/** The template of a scaling group's nested stack (heat/scaling/template.py). */
module ScalingTemplates {
  /** Resource names and serialised definitions are only ever compared, so numbers stand for them. */
  type Name = nat
  type Definition = nat

  datatype Instance = Instance(name: Name, definition: Definition)

  predicate DistinctNames(s: seq<Instance>) {
    forall i, j :: 0 <= i < j < |s| ==> s[i].name != s[j].name
  }

  function Elements(s: seq<Instance>): set<Instance> {
    set x | x in s
  }

  lemma {:induction false} ElementCount(s: seq<Instance>)
    requires DistinctNames(s)
    ensures |Elements(s)| == |s|
  {
    if s == [] {
      assert Elements(s) == {};
    } else {
      var rest, last := s[..|s| - 1], s[|s| - 1];
      ElementCount(rest);
      assert s == rest + [last];
      assert last !in rest;
      assert Elements(s) == Elements(rest) + {last};
    }
  }

  /** How many instances are not on definition d. */
  ghost function Outdated(s: seq<Instance>, d: Definition): (n: nat)
    ensures n <= |s|
  {
    if s == [] then 0 else Outdated(s[..|s| - 1], d) + if s[|s| - 1].definition != d then 1 else 0
  }

  lemma OutdatedGrows(s: seq<Instance>, d: Definition, k: nat)
    requires 0 < k <= |s|
    ensures Outdated(s[..k], d) == Outdated(s[..k - 1], d) + if s[k - 1].definition != d then 1 else 0
  {
    assert s[..k][..k - 1] == s[..k - 1];
  }

  ghost function OutdatedElements(s: seq<Instance>, d: Definition): set<Instance> {
    set x | x in s && x.definition != d
  }

  lemma {:induction false} OutdatedCount(s: seq<Instance>, d: Definition)
    requires DistinctNames(s)
    ensures Outdated(s, d) == |OutdatedElements(s, d)|
  {
    if s == [] {
      assert OutdatedElements(s, d) == {};
    } else {
      var rest, last := s[..|s| - 1], s[|s| - 1];
      OutdatedCount(rest, d);
      assert s == rest + [last];
      assert last !in rest;
      assert OutdatedElements(s, d) == OutdatedElements(rest, d) + if last.definition != d then {last} else {};
    }
  }

  /** The same instances, listed in another order, hold as many outdated ones. */
  lemma {:induction false} OutdatedInAnyOrder(s: seq<Instance>, t: seq<Instance>, d: Definition)
    requires DistinctNames(s) && DistinctNames(t) && Elements(s) == Elements(t)
    ensures |s| == |t| && Outdated(s, d) == Outdated(t, d)
  {
    ElementCount(s);
    ElementCount(t);
    OutdatedCount(s, d);
    OutdatedCount(t, d);
    assert forall x :: x in s <==> x in Elements(s);
    assert forall x :: x in t <==> x in Elements(t);
    assert OutdatedElements(s, d) == OutdatedElements(t, d);
  }

  lemma {:induction false} OutdatedSplit(s: seq<Instance>, k: nat, d: Definition)
    requires k <= |s|
    ensures Outdated(s, d) == Outdated(s[..k], d) + Outdated(s[k..], d)
  {
    if k == |s| {
      assert s[..k] == s && s[k..] == [];
    } else {
      OutdatedSplit(s[..|s| - 1], k, d);
      assert s[..|s| - 1][..k] == s[..k];
      assert s[..|s| - 1][k..] == s[k..][..|s| - 1 - k];
    }
  }

  /** Python's s[-num:]: the last num elements, but all of them for zero, and all but the first -num below it. */
  function LastOf(s: seq<Instance>, num: int): seq<Instance> {
    if num >= |s| || num == 0 then s
    else if num > 0 then s[|s| - num..]
    else if -num <= |s| then s[-num..]
    else []
  }

  function Positive(num: int): nat {
    if num > 0 then num else 0
  }

  /** Entry i of the template for an instance that is kept: the oldest outdated ones are redefined. */
  ghost function Entry(kept: seq<Instance>, d: Definition, budget: int, i: nat): Instance
    requires i < |kept|
  {
    if Outdated(kept[..i], d) < budget then kept[i].(definition := d) else kept[i]
  }

  /**
    The template: the newest instances in their order, then new ones; what is left
    of replace goes to redefinitions.
  */
  ghost function Template(existing: seq<Instance>, d: Definition, num: int, replace: int, ids: seq<Name>): seq<Instance>
    requires |ids| >= num - |existing|
  {
    var kept := LastOf(existing, num);
    seq(Positive(num), i requires 0 <= i < Positive(num) =>
      if i < |kept| then Entry(kept, d, replace - (num - |kept|), i) else Instance(ids[i - |kept|], d))
  }

  /** resource_templates; ids are the short ids it would generate. */
  method ResourceTemplates(existing: seq<Instance>, definition: Definition, num: int, replace: int, ids: seq<Name>)
    returns (templates: seq<Instance>)
    requires |ids| >= num - |existing|
    ensures templates == Template(existing, definition, num, replace, ids)
  {
    var kept := LastOf(existing, num);
    var create := num - |kept|;
    var left := replace - create;
    ghost var budget := left;
    ghost var all := Template(existing, definition, num, replace, ids);
    templates := [];
    var i := 0;
    while i < num
      invariant 0 <= i <= Positive(num)
      invariant templates == all[..i]
      invariant left == if budget <= 0 then budget
                        else Positive(budget - Outdated(kept[..if i < |kept| then i else |kept|], definition))
    {
      if i < |kept| {
        assert kept[..i + 1][..i] == kept[..i];
        if kept[i].definition != definition && left > 0 {
          left := left - 1;
          templates := templates + [kept[i].(definition := definition)];
        } else {
          templates := templates + [kept[i]];
        }
      } else {
        templates := templates + [Instance(ids[i - |kept|], definition)];
      }
      assert templates[i] == all[i];
      i := i + 1;
    }
  }

  /** Fresh ids differ from each other and from every name in use. */
  ghost predicate Fresh(ids: seq<Name>, existing: seq<Instance>) {
    && (forall i, j :: 0 <= i < j < |ids| ==> ids[i] != ids[j])
    && forall i, j :: 0 <= i < |ids| && 0 <= j < |existing| ==> ids[i] != existing[j].name
  }

  /** t carries on existing without its first off instances: their names in their order, then new names. */
  ghost predicate CarriesOn(existing: seq<Instance>, t: seq<Instance>, off: nat) {
    && off <= |existing| && |existing| - off <= |t|
    && (forall i :: 0 <= i < |existing| - off ==> t[i].name == existing[off + i].name)
    && forall i, j :: |existing| - off <= i < |t| && 0 <= j < |existing| ==> t[i].name != existing[j].name
  }

  /** Exactly num entries, on distinct names: the newest instances keep their names and order, the rest is new. */
  lemma TemplateNames(existing: seq<Instance>, d: Definition, num: nat, replace: int, ids: seq<Name>)
    requires DistinctNames(existing) && |ids| >= num - |existing| && Fresh(ids, existing)
    ensures var t, dropped := Template(existing, d, num, replace, ids), Positive(|existing| - num);
      && |t| == num && DistinctNames(t)
      && CarriesOn(existing, t, dropped)
      && forall i :: |existing| - dropped <= i < num ==> t[i].definition == d
  {
    if num == 0 {
      return;
    }
    var t, off := Template(existing, d, num, replace, ids), Positive(|existing| - num);
    var kept := LastOf(existing, num);
    assert |kept| == |existing| - off;
    forall i | 0 <= i < |kept| ensures t[i].name == existing[off + i].name {
      assert kept[i] == existing[off + i];
    }
    forall i | |kept| <= i < num ensures t[i] == Instance(ids[i - |kept|], d) {
    }
    forall i, j | 0 <= i < j < |t| ensures t[i].name != t[j].name {
      if j < |kept| {
        assert existing[off + i].name != existing[off + j].name;
      } else if i < |kept| {
        assert ids[j - |kept|] != existing[off + i].name;
      } else {
        assert ids[i - |kept|] != ids[j - |kept|];
      }
    }
  }

  /** Whatever a template changes or adds, it puts on the definition given. */
  lemma TemplateChanges(existing: seq<Instance>, d: Definition, num: nat, replace: int, ids: seq<Name>, x: Instance)
    requires |ids| >= num - |existing|
    requires x in Template(existing, d, num, replace, ids) && x !in existing
    ensures x.definition == d
  {
  }

  function NewInstances(ids: seq<Name>, d: Definition): seq<Instance> {
    seq(|ids|, i requires 0 <= i < |ids| => Instance(ids[i], d))
  }

  /** A template that replaces nothing keeps the newest instances as they are, and adds what is missing. */
  lemma TemplateWithoutReplacement(existing: seq<Instance>, d: Definition, num: nat, ids: seq<Name>)
    requires |ids| == Positive(num - |existing|)
    ensures Template(existing, d, num, 0, ids) == existing[Positive(|existing| - num)..] + NewInstances(ids, d)
  {
  }

  /** The number of kept instances whose definition the template changes. */
  ghost function Redefined(kept: seq<Instance>, d: Definition, budget: int): (n: nat)
    ensures n <= Outdated(kept, d) && n <= Positive(budget)
    ensures n == Outdated(kept, d) || n == Positive(budget)
  {
    if Outdated(kept, d) < budget then Outdated(kept, d) else Positive(budget)
  }

  ghost function Entries(kept: seq<Instance>, d: Definition, budget: int): (t: seq<Instance>)
    ensures |t| == |kept|
  {
    seq(|kept|, i requires 0 <= i < |kept| => Entry(kept, d, budget, i))
  }

  lemma {:induction false} EntriesOutdated(kept: seq<Instance>, d: Definition, budget: int, k: nat)
    requires k <= |kept|
    ensures Outdated(Entries(kept, d, budget)[..k], d) == Outdated(kept[..k], d) - Redefined(kept[..k], d, budget)
  {
    if k == 0 {
      assert Entries(kept, d, budget)[..k] == [];
    } else {
      EntriesOutdated(kept, d, budget, k - 1);
      OutdatedGrows(Entries(kept, d, budget), d, k);
      OutdatedGrows(kept, d, k);
    }
  }

  lemma {:induction false} NoneOutdated(s: seq<Instance>, d: Definition)
    requires forall x :: x in s ==> x.definition == d
    ensures Outdated(s, d) == 0
  {
    if s != [] {
      NoneOutdated(s[..|s| - 1], d);
    }
  }

  /** A template with room for every instance, or for fewer, leaves that many fewer outdated. */
  lemma TemplateOutdated(existing: seq<Instance>, d: Definition, num: nat, replace: int, ids: seq<Name>)
    requires |ids| >= num - |existing| && num > 0
    ensures var kept := LastOf(existing, num);
      Outdated(Template(existing, d, num, replace, ids), d)
        == Outdated(kept, d) - Redefined(kept, d, replace - (num - |kept|))
  {
    var kept := LastOf(existing, num);
    var t, budget := Template(existing, d, num, replace, ids), replace - (num - |kept|);
    OutdatedSplit(t, |kept|, d);
    NoneOutdated(t[|kept|..], d);
    assert t[..|kept|] == Entries(kept, d, budget)[..|kept|];
    EntriesOutdated(kept, d, budget, |kept|);
    assert kept[..|kept|] == kept;
  }

  /** The instances a template leaves alone: those it holds with the definition they have. */
  ghost function Unaffected(existing: seq<Instance>, t: seq<Instance>): set<Instance> {
    set x | x in existing && x in t
  }

  ghost function Same(kept: seq<Instance>, t: seq<Instance>, k: nat): set<Instance>
    requires k <= |kept| && k <= |t|
  {
    set i | 0 <= i < k && t[i] == kept[i] :: kept[i]
  }

  lemma SameGrows(kept: seq<Instance>, t: seq<Instance>, k: nat)
    requires 0 < k <= |kept| && k <= |t| && DistinctNames(kept)
    ensures |Same(kept, t, k)| == |Same(kept, t, k - 1)| + if t[k - 1] == kept[k - 1] then 1 else 0
  {
    assert Same(kept, t, k) == Same(kept, t, k - 1) + if t[k - 1] == kept[k - 1] then {kept[k - 1]} else {};
    assert kept[k - 1] !in Same(kept, t, k - 1);
  }

  lemma {:induction false} SameCount(kept: seq<Instance>, d: Definition, budget: int, k: nat)
    requires k <= |kept| && DistinctNames(kept)
    ensures |Same(kept, Entries(kept, d, budget), k)| == k - Redefined(kept[..k], d, budget)
  {
    var t := Entries(kept, d, budget);
    if k == 0 {
      assert Same(kept, t, k) == {};
    } else {
      SameCount(kept, d, budget, k - 1);
      SameGrows(kept, t, k);
      OutdatedGrows(kept, d, k);
      assert t[k - 1] == Entry(kept, d, budget, k - 1);
    }
  }

  lemma UnaffectedIsSame(existing: seq<Instance>, t: seq<Instance>, off: nat)
    requires DistinctNames(existing) && CarriesOn(existing, t, off)
    ensures Unaffected(existing, t) == Same(existing[off..], t, |existing| - off)
  {
  }

  lemma SameAgrees(kept: seq<Instance>, t: seq<Instance>, u: seq<Instance>, k: nat)
    requires k <= |kept| && k <= |t| && k <= |u| && t[..k] == u[..k]
    ensures Same(kept, t, k) == Same(kept, u, k)
  {
  }

  /** How many instances a template leaves alone, and so how many entries are new or redefined. */
  lemma UnaffectedCount(existing: seq<Instance>, d: Definition, num: nat, replace: int, ids: seq<Name>)
    requires DistinctNames(existing) && |ids| >= num - |existing| && Fresh(ids, existing) && num > 0
    ensures var kept := LastOf(existing, num);
      |Unaffected(existing, Template(existing, d, num, replace, ids))|
        == |kept| - Redefined(kept, d, replace - (num - |kept|))
  {
    var kept := LastOf(existing, num);
    var t, budget := Template(existing, d, num, replace, ids), replace - (num - |kept|);
    TemplateNames(existing, d, num, replace, ids);
    UnaffectedIsSame(existing, t, Positive(|existing| - num));
    assert kept == existing[Positive(|existing| - num)..];
    assert t[..|kept|] == Entries(kept, d, budget)[..|kept|];
    SameAgrees(kept, t, Entries(kept, d, budget), |kept|);
    assert DistinctNames(kept);
    assert kept[..|kept|] == kept;
    SameCount(kept, d, budget, |kept|);
  }
}
