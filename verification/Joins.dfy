/** Fn::Join in templates: reducing joins early and resolving them late (heat/engine/template.py). */
module Joins {
  import opened Wrappers

  /** A snippet of a template; the entries of a dictionary are in its order of iteration. */
  datatype Snippet =
    | Str(text: string)
    | Null
    | Num(number: int) // any other scalar
    | List(items: seq<Snippet>)
    | Dict(entries: seq<Entry>)

  datatype Entry = Entry(key: string, value: Snippet)

  const JOIN := "Fn::Join"

  function Join(args: Snippet): Snippet {
    Dict([Entry(JOIN, args)])
  }

  // ---- The walk through a snippet ----

  /** _resolve, with the handler of the matching pairs; the arguments of such a pair are left to the handler. */
  function Resolve(handle: Snippet -> Result<Snippet>, s: Snippet): Result<Snippet>
    decreases s
  {
    match s
    case Dict(entries) =>
      if |entries| == 1 && entries[0].key == JOIN then handle(entries[0].value)
      else (match ResolveEntries(handle, entries) case Ok(es) => Ok(Dict(es)) case Err(e) => Err(e))
    case List(items) => (match ResolveItems(handle, items) case Ok(xs) => Ok(List(xs)) case Err(e) => Err(e))
    case Str(_) => Ok(s)
    case Null => Ok(s)
    case Num(_) => Ok(s)
  }

  function ResolveItems(handle: Snippet -> Result<Snippet>, items: seq<Snippet>): Result<seq<Snippet>>
    decreases items
  {
    if items == [] then Ok([])
    else match Resolve(handle, items[0])
      case Err(e) => Err(e)
      case Ok(x) => match ResolveItems(handle, items[1..]) case Ok(xs) => Ok([x] + xs) case Err(e) => Err(e)
  }

  function ResolveEntries(handle: Snippet -> Result<Snippet>, entries: seq<Entry>): Result<seq<Entry>>
    decreases entries
  {
    if entries == [] then Ok([])
    else match Resolve(handle, entries[0].value)
      case Err(e) => Err(e)
      case Ok(x) =>
        match ResolveEntries(handle, entries[1..])
        case Ok(es) => Ok([Entry(entries[0].key, x)] + es)
        case Err(e) => Err(e)
  }

  /** Nowhere in s, outside of other joins' arguments, is there a join. */
  predicate JoinFree(s: Snippet)
    decreases s
  {
    match s
    case Dict(entries) =>
      !(|entries| == 1 && entries[0].key == JOIN) && forall i :: 0 <= i < |entries| ==> JoinFree(entries[i].value)
    case List(items) => forall i :: 0 <= i < |items| ==> JoinFree(items[i])
    case _ => true
  }

  /** A join is what its handler makes of it; what has no joins stays as it is. */
  lemma {:induction false} OnlyJoinsResolve(handle: Snippet -> Result<Snippet>, s: Snippet)
    ensures JoinFree(s) ==> Resolve(handle, s) == Ok(s)
    ensures Resolve(handle, Join(s)) == handle(s)
    decreases s
  {
    match s {
      case Dict(entries) =>
        if JoinFree(s) {
          JoinFreeEntries(handle, entries);
        }
      case List(items) =>
        if JoinFree(s) {
          JoinFreeItems(handle, items);
        }
      case _ =>
    }
  }

  lemma {:induction false} JoinFreeItems(handle: Snippet -> Result<Snippet>, items: seq<Snippet>)
    requires forall i :: 0 <= i < |items| ==> JoinFree(items[i])
    ensures ResolveItems(handle, items) == Ok(items)
    decreases items
  {
    if items != [] {
      OnlyJoinsResolve(handle, items[0]);
      JoinFreeItems(handle, items[1..]);
      assert items == [items[0]] + items[1..];
    }
  }

  lemma {:induction false} JoinFreeEntries(handle: Snippet -> Result<Snippet>, entries: seq<Entry>)
    requires forall i :: 0 <= i < |entries| ==> JoinFree(entries[i].value)
    ensures ResolveEntries(handle, entries) == Ok(entries)
    decreases entries
  {
    if entries != [] {
      OnlyJoinsResolve(handle, entries[0].value);
      JoinFreeEntries(handle, entries[1..]);
      assert entries == [Entry(entries[0].key, entries[0].value)] + entries[1..];
    }
  }

  // ---- Joining strings ----

  /** Python's delim.join. */
  function JoinStrings(delim: string, texts: seq<string>): string {
    if texts == [] then ""
    else if |texts| == 1 then texts[0]
    else texts[0] + delim + JoinStrings(delim, texts[1..])
  }

  lemma {:induction false} JoinAppend(delim: string, a: seq<string>, b: seq<string>)
    requires a != []
    ensures JoinStrings(delim, a + b)
            == if b == [] then JoinStrings(delim, a) else JoinStrings(delim, a) + delim + JoinStrings(delim, b)
    ensures JoinStrings(delim, []) == "" && JoinStrings(delim, [a[0]]) == a[0]
  {
    if b == [] {
      assert a + b == a;
    } else if |a| == 1 {
      assert (a + b)[1..] == b;
    } else {
      JoinAppend(delim, a[1..], b);
      assert (a + b)[1..] == a[1..] + b;
    }
  }

  /** The texts to be joined, None standing for the empty string; anything but a string is a TypeError. */
  function Texts(values: seq<Snippet>): (r: Result<seq<string>>)
    ensures r.Err? ==> r.error == TypeError
    ensures r.Ok? ==> |r.value| == |values|
  {
    if values == [] then Ok([])
    else
      var text := match values[0] case Str(t) => Ok(t) case Null => Ok("") case _ => Err(TypeError);
      match text
      case Err(e) => Err(e)
      case Ok(t) => match Texts(values[1..]) case Ok(ts) => Ok([t] + ts) case Err(e) => Err(e)
  }

  /** The checks that both handlers make of their arguments: two of them, the second a list. */
  function Arguments(args: Snippet): Result<(Snippet, seq<Snippet>)> {
    if !args.List? then Err(TypeError)
    else if |args.items| != 2 then Err(ValueError)
    else if !args.items[1].List? then Err(TypeError)
    else Ok((args.items[0], args.items[1].items))
  }

  function JoinTexts(delim: string, texts: Result<seq<string>>): Result<Snippet> {
    match texts case Ok(ts) => Ok(Str(JoinStrings(delim, ts))) case Err(e) => Err(e)
  }

  /** handle_join of resolve_joins. */
  function JoinHandler(args: Snippet): Result<Snippet> {
    match Arguments(args)
    case Err(e) => Err(e)
    case Ok((delim, values)) =>
      if !delim.Str? then Err(AttributeError) else JoinTexts(delim.text, Texts(values))
  }

  function TextOf(value: Snippet): string {
    if value.Str? then value.text else ""
  }

  /** Strings are joined as they are and None as the empty string; any other value is a TypeError. */
  lemma JoinOfValues(delim: string, values: seq<Snippet>)
    ensures JoinHandler(List([Str(delim), List(values)]))
            == if forall i :: 0 <= i < |values| ==> values[i].Str? || values[i].Null? then
                 Ok(Str(JoinStrings(delim, seq(|values|, i requires 0 <= i < |values| => TextOf(values[i])))))
               else Err(TypeError)
  {
    TextsAre(values);
  }

  /**
    When joining raises, and what: two arguments, the second a list, are asked for
    first, then a string to join with.
  */
  lemma JoinRaises(args: Snippet)
    ensures JoinHandler(args).Ok? <==>
      && args.List? && |args.items| == 2 && args.items[0].Str? && args.items[1].List?
      && var values := args.items[1].items; forall i :: 0 <= i < |values| ==> values[i].Str? || values[i].Null?
    ensures JoinHandler(args).Err? ==>
      JoinHandler(args).error
      == if args.List? && |args.items| != 2 then ValueError
         else if args.List? && args.items[1].List? && !args.items[0].Str? then AttributeError
         else TypeError
  {
    if args.List? && |args.items| == 2 && args.items[1].List? {
      TextsAre(args.items[1].items);
    }
  }

  lemma {:induction false} TextsAre(values: seq<Snippet>)
    ensures Texts(values)
            == if forall i :: 0 <= i < |values| ==> values[i].Str? || values[i].Null? then
                 Ok(seq(|values|, i requires 0 <= i < |values| => TextOf(values[i])))
               else Err(TypeError)
  {
    if values != [] {
      var rest := values[1..];
      TextsAre(rest);
      assert forall i :: 1 <= i < |values| ==> values[i] == rest[i - 1];
      assert seq(|values|, i requires 0 <= i < |values| => TextOf(values[i]))
          == [TextOf(values[0])] + seq(|rest|, i requires 0 <= i < |rest| => TextOf(rest[i]));
    }
  }

  // ---- Reducing ----

  /** How many strings a list of items starts with. */
  function Run(items: seq<Snippet>): (n: nat)
    ensures n <= |items|
    ensures forall i :: 0 <= i < n ==> items[i].Str?
    ensures n < |items| ==> !items[n].Str?
    ensures items != [] && items[0].Str? ==> n > 0
  {
    if items != [] && items[0].Str? then 1 + Run(items[1..]) else 0
  }

  predicate AllStrings(run: seq<Snippet>) {
    forall i :: 0 <= i < |run| ==> run[i].Str?
  }

  function TextsOf(run: seq<Snippet>): seq<string>
    requires AllStrings(run)
  {
    seq(|run|, i requires 0 <= i < |run| => run[i].text)
  }

  /** The first item of the reduced list, and how many items it stands for. */
  function Head(delim: string, items: seq<Snippet>): Snippet
    requires items != []
  {
    if items[0].Str? then Str(JoinStrings(delim, TextsOf(items[..Run(items)]))) else items[0]
  }

  function Width(items: seq<Snippet>): (n: nat)
    requires items != []
    ensures 0 < n <= |items|
  {
    if items[0].Str? then Run(items) else 1
  }

  /** Each maximal run of strings is replaced by the one string that joins it. */
  function Reduced(delim: string, items: seq<Snippet>): seq<Snippet>
    decreases |items|
  {
    if items == [] then [] else [Head(delim, items)] + Reduced(delim, items[Width(items)..])
  }

  ghost predicate HasString(items: seq<Snippet>) {
    exists i :: 0 <= i < |items| && items[i].Str?
  }

  /** What reduce_joins makes of the items; a delimiter that is no string has no join method. */
  ghost function ReducedItems(delim: Snippet, items: seq<Snippet>): Result<seq<Snippet>> {
    if delim.Str? then Ok(Reduced(delim.text, items))
    else if HasString(items) then Err(AttributeError)
    else Ok(items)
  }

  lemma {:induction false} RunAppend(s: seq<Snippet>, t: seq<Snippet>)
    requires Run(s) < |s| || t == [] || !t[0].Str?
    ensures Run(s + t) == Run(s)
  {
    if s == [] {
      assert s + t == t;
    } else if s[0].Str? {
      RunAppend(s[1..], t);
      assert (s + t)[1..] == s[1..] + t;
    }
  }

  /** No run of strings goes from the end of s into the beginning of t. */
  ghost predicate Apart(s: seq<Snippet>, t: seq<Snippet>) {
    s == [] || t == [] || !s[|s| - 1].Str? || !t[0].Str?
  }

  lemma HeadAppend(delim: string, s: seq<Snippet>, t: seq<Snippet>)
    requires s != [] && Apart(s, t)
    ensures Width(s + t) == Width(s) && Head(delim, s + t) == Head(delim, s)
  {
    RunAppend(s, t);
    assert (s + t)[..Run(s)] == s[..Run(s)];
  }

  lemma ReducedStep(delim: string, s: seq<Snippet>, t: seq<Snippet>)
    requires s != [] && Apart(s, t)
    ensures var rest := s[Width(s)..];
      Apart(rest, t) && Reduced(delim, s + t) == [Head(delim, s)] + Reduced(delim, rest + t)
  {
    HeadAppend(delim, s, t);
    var m := Width(s);
    assert (s + t)[m..] == s[m..] + t;
    assert s[m..] != [] ==> s[m..][|s[m..]| - 1] == s[|s| - 1];
  }

  lemma {:induction false} ReducedAppend(delim: string, s: seq<Snippet>, t: seq<Snippet>)
    requires Apart(s, t)
    ensures Reduced(delim, s + t) == Reduced(delim, s) + Reduced(delim, t)
    decreases |s|
  {
    if s == [] {
      assert s + t == t;
    } else {
      var rest := s[Width(s)..];
      ReducedStep(delim, s, t);
      ReducedAppend(delim, rest, t);
      assert [Head(delim, s)] + (Reduced(delim, rest) + Reduced(delim, t))
        == ([Head(delim, s)] + Reduced(delim, rest)) + Reduced(delim, t);
    }
  }

  lemma {:induction false} RunAll(run: seq<Snippet>)
    requires AllStrings(run)
    ensures Run(run) == |run|
  {
  }

  lemma ReducedRun(delim: string, run: seq<Snippet>)
    requires run != [] && AllStrings(run)
    ensures Reduced(delim, run) == [Str(JoinStrings(delim, TextsOf(run)))]
  {
    RunAll(run);
    assert run[..|run|] == run && run[|run|..] == [];
  }

  /** The loop of handle_join in reduce_joins. */
  method ReduceItems(delim: Snippet, items: seq<Snippet>) returns (r: Result<seq<Snippet>>)
    ensures r == ReducedItems(delim, items)
  {
    var reduced: seq<Snippet>, contiguous := [], [];
    ghost var start := 0;
    for i := 0 to |items|
      invariant Scanned(delim, items, i, start, reduced, contiguous)
    {
      if items[i].Str? {
        contiguous := contiguous + [items[i]];
      } else {
        if contiguous != [] {
          if !delim.Str? {
            assert items[start].Str?;
            return Err(AttributeError);
          }
          Flush(delim, items, i, start, reduced, contiguous);
          reduced := reduced + [Str(JoinStrings(delim.text, TextsOf(contiguous)))];
          contiguous := [];
        }
        NextItem(delim, items, i, reduced);
        reduced := reduced + [items[i]];
        start := i + 1;
      }
    }
    if contiguous != [] {
      if !delim.Str? {
        assert items[start].Str?;
        return Err(AttributeError);
      }
      Flush(delim, items, |items|, start, reduced, contiguous);
      reduced := reduced + [Str(JoinStrings(delim.text, TextsOf(contiguous)))];
    }
    assert items[..|items|] == items;
    r := Ok(reduced);
  }

  /** Before item i: a run of strings from start on is open, and what is before it is reduced. */
  ghost predicate Scanned(delim: Snippet, items: seq<Snippet>, i: nat, start: nat, reduced: seq<Snippet>,
                          contiguous: seq<Snippet>) {
    && start <= i <= |items| && contiguous == items[start..i] && AllStrings(contiguous)
    && (start > 0 ==> !items[start - 1].Str?)
    && reduced == Closed(delim, items[..start]) && (!delim.Str? ==> !HasString(items[..start]))
  }

  lemma Flush(delim: Snippet, items: seq<Snippet>, i: nat, start: nat, reduced: seq<Snippet>, contiguous: seq<Snippet>)
    requires Scanned(delim, items, i, start, reduced, contiguous) && delim.Str? && contiguous != []
    ensures reduced + [Str(JoinStrings(delim.text, TextsOf(contiguous)))] == Closed(delim, items[..i])
  {
    assert items[..i] == items[..start] + contiguous;
    CloseRun(delim, items[..start], contiguous);
  }

  lemma NextItem(delim: Snippet, items: seq<Snippet>, i: nat, reduced: seq<Snippet>)
    requires i < |items| && !items[i].Str? && reduced == Closed(delim, items[..i])
    requires !delim.Str? ==> !HasString(items[..i])
    ensures Scanned(delim, items, i + 1, i + 1, reduced + [items[i]], [])
  {
    assert items[..i + 1] == items[..i] + [items[i]];
    CloseItem(delim, items[..i], items[i]);
  }

  /** The items that the loop is done with, reduced. */
  ghost function Closed(delim: Snippet, items: seq<Snippet>): seq<Snippet> {
    if delim.Str? then Reduced(delim.text, items) else items
  }

  lemma CloseRun(delim: Snippet, items: seq<Snippet>, run: seq<Snippet>)
    requires delim.Str? && run != [] && AllStrings(run) && Apart(items, run)
    ensures Closed(delim, items + run) == Closed(delim, items) + [Str(JoinStrings(delim.text, TextsOf(run)))]
  {
    ReducedAppend(delim.text, items, run);
    ReducedRun(delim.text, run);
  }

  lemma CloseItem(delim: Snippet, items: seq<Snippet>, item: Snippet)
    requires !item.Str?
    ensures Closed(delim, items + [item]) == Closed(delim, items) + [item]
  {
    if delim.Str? {
      ReducedAppend(delim.text, items, [item]);
      assert [item][1..] == [];
    }
  }

  /** No two strings are left next to each other. */
  ghost predicate NoRuns(items: seq<Snippet>) {
    forall i :: 0 <= i < |items| - 1 ==> !(items[i].Str? && items[i + 1].Str?)
  }

  lemma {:induction false} ReducedHasNoRuns(delim: string, items: seq<Snippet>)
    ensures NoRuns(Reduced(delim, items))
    decreases |items|
  {
    if items != [] {
      ReducedHasNoRuns(delim, items[Width(items)..]);
    }
  }

  /** A list is left as it is by reducing if and only if it has no runs; so reducing twice is reducing once. */
  lemma {:induction false} ReducedIsFixed(delim: string, items: seq<Snippet>)
    ensures Reduced(delim, items) == items <==> NoRuns(items)
    ensures Reduced(delim, Reduced(delim, items)) == Reduced(delim, items)
  {
    ReducedHasNoRuns(delim, items);
    if NoRuns(items) {
      NoRunsIsFixed(delim, items);
    }
    NoRunsIsFixed(delim, Reduced(delim, items));
  }

  lemma {:induction false} NoRunsIsFixed(delim: string, items: seq<Snippet>)
    requires NoRuns(items)
    ensures Reduced(delim, items) == items
  {
    if items != [] {
      assert |items| > 1 ==> items[1..][0] == items[1];
      assert Width(items) == 1;
      assert items[..1] == [items[0]];
      assert NoRuns(items[1..]);
      NoRunsIsFixed(delim, items[1..]);
    }
  }

  // ---- Reducing preserves meaning ----

  /** A later resolution of the arguments. */
  type Transform = Snippet -> Result<Snippet>

  ghost function MapAll(t: Transform, items: seq<Snippet>): Result<seq<Snippet>> {
    if items == [] then Ok([])
    else match t(items[0])
      case Err(e) => Err(e)
      case Ok(x) => match MapAll(t, items[1..]) case Ok(xs) => Ok([x] + xs) case Err(e) => Err(e)
  }

  /** A transformation of lists item by item that leaves strings as they are. */
  ghost predicate Itemwise(t: Transform) {
    && (forall text :: t(Str(text)) == Ok(Str(text)))
    && forall items :: t(List(items)) == match MapAll(t, items) case Ok(xs) => Ok(List(xs)) case Err(e) => Err(e)
  }

  ghost function ThenTexts(r: Result<seq<Snippet>>): Result<seq<string>> {
    match r case Ok(xs) => Texts(xs) case Err(e) => Err(e)
  }

  /** Both lists resolve to texts that join to the same string, or fail in the same way. */
  ghost predicate SameJoin(delim: string, a: Result<seq<string>>, b: Result<seq<string>>) {
    if a.Ok? && b.Ok? then
      JoinStrings(delim, a.value) == JoinStrings(delim, b.value) && (a.value == [] <==> b.value == [])
    else a == b
  }

  lemma {:induction false} MapRun(t: Transform, run: seq<Snippet>, rest: seq<Snippet>)
    requires Itemwise(t) && AllStrings(run)
    ensures MapAll(t, run + rest) == Prepended(run, MapAll(t, rest))
  {
    if run == [] {
      assert run + rest == rest;
      if MapAll(t, rest).Ok? {
        assert run + MapAll(t, rest).value == MapAll(t, rest).value;
      }
    } else {
      MapRun(t, run[1..], rest);
      assert (run + rest)[1..] == run[1..] + rest;
      if MapAll(t, rest).Ok? {
        assert [run[0]] + (run[1..] + MapAll(t, rest).value) == run + MapAll(t, rest).value;
      }
    }
  }

  lemma {:induction false} TextsRun(run: seq<Snippet>, rest: seq<Snippet>)
    requires AllStrings(run)
    ensures Texts(run + rest) == match Texts(rest) case Ok(ts) => Ok(TextsOf(run) + ts) case Err(e) => Err(e)
  {
    if run == [] {
      assert run + rest == rest;
      if Texts(rest).Ok? {
        assert TextsOf(run) + Texts(rest).value == Texts(rest).value;
      }
    } else {
      TextsRun(run[1..], rest);
      assert (run + rest)[1..] == run[1..] + rest;
      if Texts(rest).Ok? {
        assert [run[0].text] + (TextsOf(run[1..]) + Texts(rest).value) == TextsOf(run) + Texts(rest).value;
      }
    }
  }

  /** Whatever the other items resolve to, and whether they do, the reduced list gives the same join. */
  lemma {:induction false} ReducedJoins(t: Transform, delim: string, items: seq<Snippet>)
    requires Itemwise(t)
    ensures SameJoin(delim, ThenTexts(MapAll(t, items)), ThenTexts(MapAll(t, Reduced(delim, items))))
    decreases |items|
  {
    if items != [] {
      var n := Width(items);
      var head, run, rest := Head(delim, items), items[..n], items[n..];
      assert items == run + rest;
      assert Reduced(delim, items) == [head] + Reduced(delim, rest);
      ReducedJoins(t, delim, rest);
      if items[0].Str? {
        MapRun(t, run, rest);
        MapRun(t, [head], Reduced(delim, rest));
        RunJoins(delim, run, MapAll(t, rest), MapAll(t, Reduced(delim, rest)));
      } else {
        assert run == [items[0]] && (run + rest)[1..] == rest
          && ([head] + Reduced(delim, rest))[1..] == Reduced(delim, rest);
        if t(items[0]).Ok? {
          ItemJoins(delim, t(items[0]).value, MapAll(t, rest), MapAll(t, Reduced(delim, rest)));
        }
      }
    }
  }

  ghost function Prepended(run: seq<Snippet>, r: Result<seq<Snippet>>): Result<seq<Snippet>> {
    match r case Ok(xs) => Ok(run + xs) case Err(e) => Err(e)
  }

  /** A run of strings and the one string that joins it may go before lists that join alike. */
  lemma RunJoins(delim: string, run: seq<Snippet>, a: Result<seq<Snippet>>, b: Result<seq<Snippet>>)
    requires run != [] && AllStrings(run)
    requires SameJoin(delim, ThenTexts(a), ThenTexts(b))
    ensures SameJoin(delim, ThenTexts(Prepended(run, a)),
                     ThenTexts(Prepended([Str(JoinStrings(delim, TextsOf(run)))], b)))
  {
    var joined := [Str(JoinStrings(delim, TextsOf(run)))];
    if a.Ok? {
      TextsRun(run, a.value);
    }
    if b.Ok? {
      TextsRun(joined, b.value);
    }
    if ThenTexts(a).Ok? && ThenTexts(b).Ok? {
      JoinAppend(delim, TextsOf(run), ThenTexts(a).value);
      JoinAppend(delim, TextsOf(joined), ThenTexts(b).value);
    }
  }

  lemma ItemJoins(delim: string, x: Snippet, a: Result<seq<Snippet>>, b: Result<seq<Snippet>>)
    requires SameJoin(delim, ThenTexts(a), ThenTexts(b))
    ensures SameJoin(delim, ThenTexts(Prepended([x], a)), ThenTexts(Prepended([x], b)))
  {
  }

  /** handle_join of reduce_joins. */
  ghost function ReduceHandler(args: Snippet): Result<Snippet> {
    match Arguments(args)
    case Err(e) => Err(e)
    case Ok((delim, items)) =>
      match ReducedItems(delim, items) case Ok(xs) => Ok(Join(List([delim, List(xs)]))) case Err(e) => Err(e)
  }

  /** f after t, where either may raise. */
  ghost function After(f: Transform, t: Transform): Transform {
    v => match t(v) case Ok(x) => f(x) case Err(e) => Err(e)
  }

  /** No transformation: transform=None. */
  ghost function Unchanged(): Transform {
    v => Ok(v)
  }

  ghost function ResolveJoins(s: Snippet, t: Transform): Result<Snippet> {
    Resolve(After(JoinHandler, t), s)
  }

  ghost function ReduceJoins(s: Snippet, t: Transform): Result<Snippet> {
    Resolve(After(ReduceHandler, t), s)
  }

  lemma MapOne(t: Transform, x: Snippet)
    ensures MapAll(t, [x]) == match t(x) case Ok(v) => Ok([v]) case Err(e) => Err(e)
  {
    assert [x][1..] == [] && MapAll(t, []) == Ok([]);
    if t(x).Ok? {
      assert [t(x).value] + [] == [t(x).value];
    }
  }

  lemma MapPair(t: Transform, x: Snippet, y: Snippet)
    requires t(x).Ok? && t(y).Ok?
    ensures MapAll(t, [x, y]) == Ok([t(x).value, t(y).value])
  {
    assert [x, y][1..] == [y];
    MapOne(t, y);
    assert [t(x).value] + [t(y).value] == [t(x).value, t(y).value];
  }

  lemma JoinOfStrings(t: Transform, delim: string, items: seq<Snippet>)
    requires Itemwise(t)
    ensures After(JoinHandler, t)(List([Str(delim), List(items)])) == JoinTexts(delim, ThenTexts(MapAll(t, items)))
  {
    var args := [Str(delim), List(items)];
    assert args[1..] == [List(items)];
    MapOne(t, List(items));
    assert t(List(args)) == match MapAll(t, args) case Ok(xs) => Ok(List(xs)) case Err(e) => Err(e);
    assert t(List(items)) == match MapAll(t, items) case Ok(xs) => Ok(List(xs)) case Err(e) => Err(e);
  }

  /** A join of reduced items resolves as the join of the items does, errors included. */
  lemma HandlerPreservesMeaning(t: Transform, args: Snippet)
    requires Itemwise(t) && ReduceHandler(args).Ok?
    ensures var reduced := ReduceHandler(args).value;
      reduced == Join(reduced.entries[0].value)
        && After(JoinHandler, t)(reduced.entries[0].value) == After(JoinHandler, t)(args)
  {
    var delim, items := args.items[0], args.items[1].items;
    assert args.items == [delim, List(items)];
    if delim.Str? {
      JoinOfStrings(t, delim.text, items);
      JoinOfStrings(t, delim.text, Reduced(delim.text, items));
      ReducedJoins(t, delim.text, items);
    }
  }

  /** Later resolutions cannot tell the two arguments of joins apart. */
  ghost predicate SameMeaning(a: Snippet, b: Snippet) {
    forall t {:trigger Itemwise(t)} :: Itemwise(t) ==> After(JoinHandler, t)(a) == After(JoinHandler, t)(b)
  }

  /**
    s is a join, with the delimiter of args, of items among which no two strings
    are neighbours, and of equal meaning.
  */
  ghost predicate IsReduction(s: Snippet, args: Snippet)
    requires GoodJoin(args)
  {
    && s.Dict? && |s.entries| == 1 && s.entries[0].key == JOIN
    && var reduced := s.entries[0].value;
    && GoodJoin(reduced) && reduced.items[0] == args.items[0]
    && NoRuns(reduced.items[1].items) && SameMeaning(reduced, args)
  }

  /** The exception for arguments that are no good. */
  function ReduceError(args: Snippet): Error {
    if !args.List? then TypeError
    else if |args.items| != 2 then ValueError
    else if !args.items[1].List? then TypeError
    else AttributeError
  }

  lemma HandlerReduces(args: Snippet)
    ensures ReduceHandler(args).Ok? <==> GoodJoin(args)
    ensures ReduceHandler(args).Ok? ==> IsReduction(ReduceHandler(args).value, args)
    ensures ReduceHandler(args).Err? ==> ReduceHandler(args).error == ReduceError(args)
  {
    if ReduceHandler(args).Ok? {
      var delim, items := args.items[0], args.items[1].items;
      if delim.Str? {
        ReducedHasNoRuns(delim.text, items);
      }
      var reduced := ReduceHandler(args).value.entries[0].value;
      forall t | Itemwise(t) ensures After(JoinHandler, t)(reduced) == After(JoinHandler, t)(args) {
        HandlerPreservesMeaning(t, args);
      }
    }
  }

  /**
    handle_join of reduce_joins: it raises for arguments that are no good, and
    otherwise returns a join that no later resolution can tell from the original.
  */
  method HandleReduce(args: Snippet) returns (r: Result<Snippet>)
    ensures r == ReduceHandler(args)
    ensures r.Ok? <==> GoodJoin(args)
    ensures r.Ok? ==> IsReduction(r.value, args)
    ensures r.Err? ==> r.error == ReduceError(args)
  {
    match Arguments(args) {
      case Err(e) => r := Err(e);
      case Ok((delim, items)) =>
        var reduced := ReduceItems(delim, items);
        match reduced
        case Ok(xs) => r := Ok(Join(List([delim, List(xs)])));
        case Err(e) => r := Err(e);
    }
    HandlerReduces(args);
  }

  /** Early reduction, with whatever transformation r of the arguments, does not change what joins resolve to later. */
  lemma {:induction false} ReducePreservesMeaning(s: Snippet, r: Transform, t: Transform)
    requires Itemwise(t) && ReduceJoins(s, r).Ok?
    ensures ResolveJoins(ReduceJoins(s, r).value, t) == ResolveJoins(s, After(t, r))
    decreases s
  {
    match s
    case Dict(entries) =>
      if |entries| == 1 && entries[0].key == JOIN {
        HandlerPreservesMeaning(t, r(entries[0].value).value);
      } else {
        EntriesPreserveMeaning(entries, r, t);
      }
    case List(items) => ItemsPreserveMeaning(items, r, t);
    case Str(_) =>
    case Null =>
    case Num(_) =>
  }

  lemma {:induction false} ItemsPreserveMeaning(items: seq<Snippet>, r: Transform, t: Transform)
    requires Itemwise(t) && ResolveItems(After(ReduceHandler, r), items).Ok?
    ensures ResolveItems(After(JoinHandler, t), ResolveItems(After(ReduceHandler, r), items).value)
            == ResolveItems(After(JoinHandler, After(t, r)), items)
    decreases items
  {
    if items != [] {
      ReducePreservesMeaning(items[0], r, t);
      ItemsPreserveMeaning(items[1..], r, t);
    }
  }

  lemma {:induction false} EntriesPreserveMeaning(entries: seq<Entry>, r: Transform, t: Transform)
    requires Itemwise(t) && ResolveEntries(After(ReduceHandler, r), entries).Ok?
    ensures var reduced := ResolveEntries(After(ReduceHandler, r), entries).value;
      && |reduced| == |entries| && (forall i :: 0 <= i < |entries| ==> reduced[i].key == entries[i].key)
      && ResolveEntries(After(JoinHandler, t), reduced) == ResolveEntries(After(JoinHandler, After(t, r)), entries)
    decreases entries
  {
    if entries != [] {
      ReducePreservesMeaning(entries[0].value, r, t);
      EntriesPreserveMeaning(entries[1..], r, t);
    }
  }

  // ---- When reducing raises ----

  ghost predicate GoodJoin(args: Snippet) {
    && args.List? && |args.items| == 2 && args.items[1].List?
    && (args.items[0].Str? || !HasString(args.items[1].items))
  }

  /** Every join that is met has arguments that can be reduced once r is done with them. */
  ghost predicate Reducible(s: Snippet, r: Transform)
    decreases s
  {
    match s
    case Dict(entries) =>
      if |entries| == 1 && entries[0].key == JOIN then
        r(entries[0].value).Ok? && GoodJoin(r(entries[0].value).value)
      else forall i :: 0 <= i < |entries| ==> Reducible(entries[i].value, r)
    case List(items) => forall i :: 0 <= i < |items| ==> Reducible(items[i], r)
    case Str(_) => true
    case Null => true
    case Num(_) => true
  }

  lemma {:induction false} ReducibleItems(items: seq<Snippet>, r: Transform)
    requires forall i :: 0 <= i < |items| ==> (ReduceJoins(items[i], r).Ok? <==> Reducible(items[i], r))
    ensures ResolveItems(After(ReduceHandler, r), items).Ok?
      <==> forall i :: 0 <= i < |items| ==> Reducible(items[i], r)
  {
    if items != [] {
      forall i | 0 <= i < |items[1..]| ensures ReduceJoins(items[1..][i], r).Ok? <==> Reducible(items[1..][i], r) {
        assert items[1..][i] == items[i + 1];
      }
      ReducibleItems(items[1..], r);
      assert (forall i :: 0 <= i < |items| ==> Reducible(items[i], r))
        <==> Reducible(items[0], r) && forall i :: 0 <= i < |items[1..]| ==> Reducible(items[1..][i], r) by {
        assert forall i :: 0 < i < |items| ==> items[i] == items[1..][i - 1];
      }
    }
  }

  lemma {:induction false} ReducibleEntries(entries: seq<Entry>, r: Transform)
    requires forall i :: 0 <= i < |entries| ==>
      (ReduceJoins(entries[i].value, r).Ok? <==> Reducible(entries[i].value, r))
    ensures ResolveEntries(After(ReduceHandler, r), entries).Ok?
            <==> forall i :: 0 <= i < |entries| ==> Reducible(entries[i].value, r)
  {
    if entries != [] {
      forall i | 0 <= i < |entries[1..]|
        ensures ReduceJoins(entries[1..][i].value, r).Ok? <==> Reducible(entries[1..][i].value, r) {
        assert entries[1..][i] == entries[i + 1];
      }
      ReducibleEntries(entries[1..], r);
      assert (forall i :: 0 <= i < |entries| ==> Reducible(entries[i].value, r))
        <==> Reducible(entries[0].value, r)
             && forall i :: 0 <= i < |entries[1..]| ==> Reducible(entries[1..][i].value, r) by {
        assert forall i :: 0 < i < |entries| ==> entries[i] == entries[1..][i - 1];
      }
    }
  }

  /** reduce_joins raises if and only if some join that it meets cannot be reduced. */
  lemma {:induction false} ReduceRaises(s: Snippet, r: Transform)
    ensures ReduceJoins(s, r).Ok? <==> Reducible(s, r)
    decreases s
  {
    match s
    case Dict(entries) =>
      if !(|entries| == 1 && entries[0].key == JOIN) {
        forall i | 0 <= i < |entries| ensures ReduceJoins(entries[i].value, r).Ok? <==> Reducible(entries[i].value, r) {
          ReduceRaises(entries[i].value, r);
        }
        ReducibleEntries(entries, r);
      }
    case List(items) =>
      forall i | 0 <= i < |items| ensures ReduceJoins(items[i], r).Ok? <==> Reducible(items[i], r) {
        ReduceRaises(items[i], r);
      }
      ReducibleItems(items, r);
    case Str(_) =>
    case Null =>
    case Num(_) =>
  }

  /** References stand for a comma, wherever they are in a list. */
  function CommaForReference(s: Snippet): Result<Snippet> {
    match s
    case Dict(_) => Ok(Str(","))
    case List(items) => (match CommasForReferences(items) case Ok(xs) => Ok(List(xs)) case Err(e) => Err(e))
    case Str(_) => Ok(s)
    case Null => Ok(s)
    case Num(_) => Ok(s)
  }

  function CommasForReferences(items: seq<Snippet>): Result<seq<Snippet>> {
    if items == [] then Ok([])
    else match CommaForReference(items[0])
      case Err(e) => Err(e)
      case Ok(x) => match CommasForReferences(items[1..]) case Ok(xs) => Ok([x] + xs) case Err(e) => Err(e)
  }

  lemma {:induction false} CommasAreItemwise(items: seq<Snippet>)
    ensures CommasForReferences(items) == MapAll(CommaForReference, items)
  {
    if items != [] {
      CommasAreItemwise(items[1..]);
    }
  }

  /** A delimiter that is still a reference: reducing early raises, though the join could be resolved later. */
  lemma {:induction false} EarlyReductionMayRaise(reference: Snippet)
    requires reference.Dict?
    ensures var s := Join(List([reference, List([Str("a"), Str("b")])]));
      && Itemwise(CommaForReference)
      && ReduceJoins(s, Unchanged()) == Err(AttributeError)
      && ResolveJoins(s, CommaForReference) == Ok(Str("a,b"))
  {
    forall items ensures CommasForReferences(items) == MapAll(CommaForReference, items) {
      CommasAreItemwise(items);
    }
    var items := [Str("a"), Str("b")];
    var args := List([reference, List(items)]);
    assert items[0].Str? && HasString(items);
    assert Arguments(args) == Ok((reference, items));
    assert After(ReduceHandler, Unchanged())(args) == Err(AttributeError);
    MapPair(CommaForReference, items[0], items[1]);
    MapPair(CommaForReference, reference, List(items));
    assert CommaForReference(args) == Ok(List([Str(","), List(items)]));
    JoinAB();
  }

  lemma JoinAB()
    ensures JoinHandler(List([Str(","), List([Str("a"), Str("b")])])) == Ok(Str("a,b"))
  {
    var items := [Str("a"), Str("b")];
    TextsRun(items, []);
    assert items + [] == items && TextsOf(items) + [] == ["a", "b"];
    assert ["a", "b"][1..] == ["b"];
    assert JoinStrings(",", ["a", "b"]) == "a,b";
  }

  // ---- Joins within the arguments of joins ----

  /** The walk with itself as the transformation of arguments, so that joins are handled inside out. */
  function Deep(handle: Snippet -> Result<Snippet>, s: Snippet): Result<Snippet>
    decreases s
  {
    match s
    case Dict(entries) =>
      if |entries| == 1 && entries[0].key == JOIN then
        (match Deep(handle, entries[0].value) case Ok(v) => handle(v) case Err(e) => Err(e))
      else (match DeepEntries(handle, entries) case Ok(es) => Ok(Dict(es)) case Err(e) => Err(e))
    case List(items) => (match DeepItems(handle, items) case Ok(xs) => Ok(List(xs)) case Err(e) => Err(e))
    case Str(_) => Ok(s)
    case Null => Ok(s)
    case Num(_) => Ok(s)
  }

  function DeepItems(handle: Snippet -> Result<Snippet>, items: seq<Snippet>): Result<seq<Snippet>>
    decreases items
  {
    if items == [] then Ok([])
    else match Deep(handle, items[0])
      case Err(e) => Err(e)
      case Ok(x) => match DeepItems(handle, items[1..]) case Ok(xs) => Ok([x] + xs) case Err(e) => Err(e)
  }

  function DeepEntries(handle: Snippet -> Result<Snippet>, entries: seq<Entry>): Result<seq<Entry>>
    decreases entries
  {
    if entries == [] then Ok([])
    else match Deep(handle, entries[0].value)
      case Err(e) => Err(e)
      case Ok(x) =>
        match DeepEntries(handle, entries[1..])
        case Ok(es) => Ok([Entry(entries[0].key, x)] + es)
        case Err(e) => Err(e)
  }

  ghost function JoinAll(): Transform {
    s => Deep(JoinHandler, s)
  }

  lemma {:induction false} DeepItemsAreMapped(items: seq<Snippet>)
    ensures DeepItems(JoinHandler, items) == MapAll(JoinAll(), items)
  {
    if items != [] {
      DeepItemsAreMapped(items[1..]);
    }
  }

  lemma JoinAllIsItemwise()
    ensures Itemwise(JoinAll())
  {
    forall items ensures DeepItems(JoinHandler, items) == MapAll(JoinAll(), items) {
      DeepItemsAreMapped(items);
    }
  }

  /** Reducing every join, however nested, and then resolving every join is resolving every join. */
  lemma {:induction false} DeepReducePreservesMeaning(s: Snippet)
    requires Deep(ReduceHandler, s).Ok?
    ensures Deep(JoinHandler, Deep(ReduceHandler, s).value) == Deep(JoinHandler, s)
    decreases s
  {
    match s
    case Dict(entries) =>
      if |entries| == 1 && entries[0].key == JOIN {
        DeepReducePreservesMeaning(entries[0].value);
        JoinAllIsItemwise();
        HandlerPreservesMeaning(JoinAll(), Deep(ReduceHandler, entries[0].value).value);
      } else {
        DeepEntriesPreserveMeaning(entries);
      }
    case List(items) => DeepItemsPreserveMeaning(items);
    case Str(_) =>
    case Null =>
    case Num(_) =>
  }

  lemma {:induction false} DeepItemsPreserveMeaning(items: seq<Snippet>)
    requires DeepItems(ReduceHandler, items).Ok?
    ensures DeepItems(JoinHandler, DeepItems(ReduceHandler, items).value) == DeepItems(JoinHandler, items)
    decreases items
  {
    if items != [] {
      DeepReducePreservesMeaning(items[0]);
      DeepItemsPreserveMeaning(items[1..]);
    }
  }

  lemma {:induction false} DeepEntriesPreserveMeaning(entries: seq<Entry>)
    requires DeepEntries(ReduceHandler, entries).Ok?
    ensures var reduced := DeepEntries(ReduceHandler, entries).value;
      && |reduced| == |entries| && (forall i :: 0 <= i < |entries| ==> reduced[i].key == entries[i].key)
      && DeepEntries(JoinHandler, reduced) == DeepEntries(JoinHandler, entries)
    decreases entries
  {
    if entries != [] {
      DeepReducePreservesMeaning(entries[0].value);
      DeepEntriesPreserveMeaning(entries[1..]);
    }
  }
}
