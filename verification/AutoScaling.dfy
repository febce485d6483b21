/** Rolling replacement of the instances of a scaling group (heat/engine/resources/autoscaling.py). */
module RollingUpdates {
  import opened ScalingTemplates

  function Min(a: int, b: int): int {
    if a < b then a else b
  }

  function Max(a: int, b: int): int {
    if a > b then a else b
  }

  /** Python's a // b. */
  function FloorDiv(a: int, b: int): int
    requires b != 0
  {
    if b > 0 then a / b else (-a) / (-b)
  }

  // ---- Orders in which the instances may be listed ----

  ghost predicate OutdatedFirst(s: seq<Instance>, d: Definition) {
    forall i, j :: 0 <= i < j < |s| && s[j].definition != d ==> s[i].definition != d
  }

  lemma {:induction false} AllOutdated(s: seq<Instance>, d: Definition)
    requires forall i :: 0 <= i < |s| ==> s[i].definition != d
    ensures Outdated(s, d) == |s|
  {
    if s != [] {
      AllOutdated(s[..|s| - 1], d);
    }
  }

  lemma {:induction false} ZeroOutdated(s: seq<Instance>, d: Definition)
    requires Outdated(s, d) == 0
    ensures forall i :: 0 <= i < |s| ==> s[i].definition == d
  {
    if s != [] {
      ZeroOutdated(s[..|s| - 1], d);
      assert forall i :: 0 <= i < |s| - 1 ==> s[i] == s[..|s| - 1][i];
    }
  }

  /** Dropping the oldest instances drops outdated ones first, if those are the oldest. */
  lemma DroppingOldest(s: seq<Instance>, d: Definition, off: nat)
    requires off <= |s|
    ensures Outdated(s[off..], d) <= Outdated(s, d)
    ensures OutdatedFirst(s, d) ==> Outdated(s[off..], d) == Positive(Outdated(s, d) - off)
  {
    OutdatedSplit(s, off, d);
    if OutdatedFirst(s, d) {
      if k :| off <= k < |s| && s[k].definition != d {
        AllOutdated(s[..off], d);
      } else {
        NoneOutdated(s[off..], d);
      }
    }
  }

  /** After an update by t: what it left alone is listed first, in the order it had, and what it changed last. */
  ghost predicate Resorted(current: seq<Instance>, next: seq<Instance>) {
    && (forall i, j :: 0 <= i < j < |next| && next[j] in current ==> next[i] in current)
    && forall i, j, p, q ::
         0 <= i < j < |next| && 0 <= p < |current| && 0 <= q < |current| && next[i] == current[p]
           && next[j] == current[q]
         ==> p < q
  }

  lemma ResortedKeepsOutdatedFirst(current: seq<Instance>, next: seq<Instance>, d: Definition)
    requires OutdatedFirst(current, d) && Resorted(current, next)
    requires forall x :: x in next && x !in current ==> x.definition == d
    ensures OutdatedFirst(next, d)
  {
  }

  // ---- One pass ----

  /** What the template of a pass does; kept is the number of outdated instances among those it keeps. */
  lemma PassCounts(current: seq<Instance>, d: Definition, num: nat, batch: nat, ids: seq<Name>) returns (kept: nat)
    requires DistinctNames(current) && |ids| >= num - |current| && Fresh(ids, current)
    requires num > 0 && num - |current| <= batch
    ensures kept <= Outdated(current, d)
    ensures OutdatedFirst(current, d) ==> kept == Positive(Outdated(current, d) - Positive(|current| - num))
    ensures var t, redefined := Template(current, d, num, batch, ids), Min(kept, batch - Positive(num - |current|));
      && |t| == num && DistinctNames(t)
      && Outdated(t, d) == kept - redefined
      && |Unaffected(current, t)| == num - Positive(num - |current|) - redefined
  {
    var off := Positive(|current| - num);
    var instances := LastOf(current, num);
    assert instances == current[off..];
    kept := Outdated(instances, d);
    DroppingOldest(current, d, off);
    TemplateNames(current, d, num, batch, ids);
    TemplateOutdated(current, d, num, batch, ids);
    UnaffectedCount(current, d, num, batch, ids);
    assert Redefined(instances, d, batch - (num - |instances|)) == Min(kept, batch - Positive(num - |current|));
  }

  /** The outdated instances that a pass leaves, of those in a group of some size in which they were listed first. */
  function LeftOutdated(size: int, outdated: int, num: int, batch: int): int {
    Positive(Positive(outdated - Positive(size - num)) - (batch - Positive(num - size)))
  }

  /** The instances that such a pass leaves alone. */
  function LeftAlone(size: int, outdated: int, num: int, batch: int): int {
    num - Positive(num - size) - Min(Positive(outdated - Positive(size - num)), batch - Positive(num - size))
  }

  /** A pass changes at most batch instances, and leaves that many fewer outdated. */
  lemma PassBounds(current: seq<Instance>, d: Definition, num: nat, batch: nat, ids: seq<Name>)
    requires DistinctNames(current) && |ids| >= num - |current| && Fresh(ids, current)
    requires num > 0 && num - |current| <= batch
    ensures var t := Template(current, d, num, batch, ids);
      && |t| == num && DistinctNames(t)
      && num - |Unaffected(current, t)| <= batch
      && Outdated(t, d) <= Positive(Outdated(current, d) - (batch - Positive(num - |current|)))
      && (OutdatedFirst(current, d) ==>
            && Outdated(t, d) == LeftOutdated(|current|, Outdated(current, d), num, batch)
            && |Unaffected(current, t)| == LeftAlone(|current|, Outdated(current, d), num, batch))
  {
    var kept := PassCounts(current, d, num, batch, ids);
    PassArithmetic(Outdated(current, d), kept, Positive(|current| - num), batch - Positive(num - |current|));
  }

  lemma PassArithmetic(outdated: nat, kept: nat, dropped: nat, budget: nat)
    requires kept <= outdated
    ensures kept - Min(kept, budget) == Positive(kept - budget) <= Positive(outdated - budget)
    ensures kept == Positive(outdated - dropped) ==>
      kept - Min(kept, budget) == Positive(Positive(outdated - dropped) - budget)
  {
  }

  // ---- Instances that keep their places ----

  /** When instances updated in place keep their age, the outdated ones form a band. */
  datatype Band = Band(front: nat, width: nat)

  ghost predicate Banded(s: seq<Instance>, d: Definition, band: Band) {
    && band.front + band.width <= |s|
    && forall i :: 0 <= i < |s| ==> (s[i].definition != d <==> band.front <= i < band.front + band.width)
  }

  /** The band of the instances that are left after the oldest were dropped. */
  function Dropped(band: Band, dropped: nat): Band {
    Band(Positive(band.front - dropped), Positive(band.width - Positive(dropped - band.front)))
  }

  /** How many instances of the band a pass redefines, and the band it leaves. */
  function BandRedefined(band: Band, size: nat, num: nat, batch: int): int {
    Min(Dropped(band, Positive(size - num)).width, batch - Positive(num - size))
  }

  function BandAfter(band: Band, size: nat, num: nat, batch: int): Band
    requires num - size <= batch && batch >= 0
  {
    var kept, redefined := Dropped(band, Positive(size - num)), BandRedefined(band, size, num, batch);
    Band(kept.front + redefined, kept.width - redefined)
  }

  lemma {:induction false} BandOutdated(s: seq<Instance>, d: Definition, band: Band, k: nat)
    requires Banded(s, d, band) && k <= |s|
    ensures Outdated(s[..k], d) == Min(Positive(k - band.front), band.width)
  {
    if k > 0 {
      BandOutdated(s, d, band, k - 1);
      OutdatedGrows(s, d, k);
    }
  }

  lemma BandKept(current: seq<Instance>, d: Definition, band: Band, off: nat)
    requires Banded(current, d, band) && off <= |current|
    ensures Banded(current[off..], d, Dropped(band, off)) && Outdated(current[off..], d) == Dropped(band, off).width
  {
    var kept := current[off..];
    BandOutdated(kept, d, Dropped(band, off), |kept|);
    assert kept[..|kept|] == kept;
  }

  lemma TemplateBanded(current: seq<Instance>, d: Definition, num: nat, batch: nat, ids: seq<Name>, band: Band)
    requires |ids| >= num - |current| && num > 0 && num - |current| <= batch
    requires Banded(current, d, band)
    ensures Banded(Template(current, d, num, batch, ids), d, BandAfter(band, |current|, num, batch))
  {
    var t, off := Template(current, d, num, batch, ids), Positive(|current| - num);
    var kept := LastOf(current, num);
    assert kept == current[off..];
    BandKept(current, d, band, off);
    forall i | 0 <= i < |kept|
      ensures t[i].definition != d
        <==> BandAfter(band, |current|, num, batch).front <= i < Dropped(band, off).front + Dropped(band, off).width
    {
      BandOutdated(kept, d, Dropped(band, off), i);
    }
  }

  // ---- The counters of the loop ----

  function Ceil(a: int, b: int): int
    requires b > 0
  {
    (a + b - 1) / b
  }

  lemma {:induction false} CeilIs(a: int, b: int, c: int)
    requires b > 0
    ensures c == Ceil(a, b) <==> (c - 1) * b < a <= c * b
  {
    var q := Ceil(a, b);
    assert q * b < a + b <= q * b + b;
    assert (q - 1) * b == q * b - b;
    if c < q {
      MultiplyOrdered(c, q - 1, b);
    } else if c > q {
      MultiplyOrdered(q, c - 1, b);
    }
  }

  /** j batches are fewer than everything if and only if j is below the number of batches. */
  lemma {:induction false} BatchesLeft(a: int, b: int, j: int)
    requires b > 0
    ensures j * b < a <==> j < Ceil(a, b)
  {
    var c := Ceil(a, b);
    CeilIs(a, b, c);
    if j < c {
      MultiplyOrdered(j, c - 1, b);
    } else {
      MultiplyOrdered(c, j, b);
    }
  }

  lemma MultiplyOrdered(x: int, y: int, b: int)
    requires x <= y && b > 0
    ensures x * b <= y * b
  {
  }

  /** The sizes that a replacement works with: those asked for, capped by the capacity. */
  datatype Policy = Policy(capacity: int, batch: int, service: int)

  /** The capacity with which a replacement starts. */
  function StartCapacity(p: Policy): int {
    Max(p.capacity - p.batch, p.service) + p.batch
  }

  /** How many passes a replacement makes. */
  function PassCount(p: Policy): int
    requires p.batch > 0
  {
    if p.capacity - p.batch >= p.service then Ceil(p.capacity, p.batch) else Ceil(p.service, p.batch) + 1
  }

  /** The counters of the loop, with the number of instances and of outdated ones, before its guard is tried. */
  datatype Counters = Counters(remainder: int, effective: int, size: int, outdated: int, started: bool)

  function StartCounters(p: Policy, size: int, outdated: int): Counters {
    Counters(p.capacity, StartCapacity(p), size, outdated, false)
  }

  /** The guard of the loop. */
  predicate Going(p: Policy, c: Counters) {
    c.remainder > 0 || c.effective > p.capacity
  }

  /** The capacity that a pass asks for. */
  function Effective(p: Policy, c: Counters): int {
    if p.capacity - c.remainder >= p.service then p.capacity else c.effective
  }

  /** The counters after a pass that left that many outdated. */
  function Stepped(p: Policy, c: Counters, outdated: int): Counters {
    Counters(c.remainder - p.batch, Effective(p, c), Effective(p, c), outdated, true)
  }

  /** What every pass keeps, however instances are listed. */
  ghost predicate Progress(p: Policy, c: Counters) {
    var top, updated := StartCapacity(p), p.capacity - c.remainder;
    && 0 < p.batch <= p.capacity && p.service <= p.capacity
    && updated >= 0 && (c.effective == p.capacity || c.effective == top)
    && (!c.started ==> updated == 0 && c.effective == top && c.size == p.capacity && c.outdated <= p.capacity)
    && (c.started ==>
          && c.size == c.effective && updated >= p.batch
          && c.outdated <= Positive(top - updated)
          && (c.remainder + p.batch > 0 || (top > p.capacity && updated - 2 * p.batch < p.service))
          && (top > p.capacity ==>
                if c.effective == top then updated - p.batch < p.service else updated >= p.service + p.batch))
  }

  /** The group has shrunk back from its temporary capacity. */
  ghost predicate Shrunk(p: Policy, c: Counters) {
    c.started && StartCapacity(p) > p.capacity && c.effective == p.capacity
  }

  /** What every pass keeps besides, when outdated instances are listed first. */
  ghost predicate OrderedProgress(p: Policy, c: Counters) {
    Shrunk(p, c) ==> c.outdated <= Positive(c.remainder)
  }

  lemma PassKeepsProgress(p: Policy, c: Counters, outdated: int)
    requires Progress(p, c) && Going(p, c)
    requires outdated <= Positive(c.outdated - (p.batch - Positive(Effective(p, c) - c.size)))
    ensures Progress(p, Stepped(p, c, outdated))
  {
  }

  /** A pass leaves enough instances alone, and so does the one that shrinks the group back. */
  lemma PassKeepsService(p: Policy, c: Counters)
    requires Progress(p, c) && Going(p, c) && OrderedProgress(p, c)
    ensures LeftAlone(c.size, c.outdated, Effective(p, c), p.batch) >= p.service
    ensures OrderedProgress(p, Stepped(p, c, LeftOutdated(c.size, c.outdated, Effective(p, c), p.batch)))
  {
  }

  /**
    Where the band is after each pass, if no instance was on the new
    definition at first and all keep their places.
  */
  ghost predicate BandProgress(p: Policy, c: Counters, band: Band) {
    var top, updated := StartCapacity(p), p.capacity - c.remainder;
    && (!c.started ==> band.front == 0 && band.width == p.capacity)
    && (c.started && top > p.capacity ==>
          if c.effective == top then band.front == updated - (top - p.capacity) && band.width == top - updated
          else band.width == 0)
  }

  /**
    Instances that keep their places: enough stay in service throughout if
    and only if no temporary capacity is needed, or everything is one batch,
    or the shrinking drops few enough of those already updated.
  */
  predicate InPlaceSafe(p: Policy)
    requires p.batch > 0
  {
    || p.service + p.batch <= p.capacity
    || p.batch == p.capacity
    || Ceil(p.service, p.batch) * p.batch >= 2 * p.service + p.batch - p.capacity
  }

  /** This pass gives the temporary capacity up. */
  ghost predicate Shrinks(p: Policy, c: Counters) {
    StartCapacity(p) > p.capacity && Effective(p, c) == p.capacity
  }

  /** The instances of a band that a pass leaves alone. */
  function BandLeftAlone(band: Band, size: nat, num: nat, batch: int): int {
    num - Positive(num - size) - BandRedefined(band, size, num, batch)
  }

  lemma BandMoves(p: Policy, c: Counters, band: Band)
    requires Progress(p, c) && Going(p, c) && BandProgress(p, c, band)
    ensures var e, extra := Effective(p, c), StartCapacity(p) - p.capacity;
      && e > 0 && e - c.size <= p.batch && c.size >= 0
      && BandProgress(p, Stepped(p, c, 0), BandAfter(band, c.size, e, p.batch))
      && if !Shrinks(p, c) || Shrunk(p, c) then BandLeftAlone(band, c.size, e, p.batch) >= p.service
         else BandLeftAlone(band, c.size, e, p.batch) == Max(p.capacity - c.remainder - extra, extra)
  {
  }

  lemma {:induction false} BandPass(p: Policy, c: Counters, band: Band, passes: nat)
    requires Progress(p, c) && Going(p, c)
    requires BandProgress(p, c, band) && passes * p.batch == p.capacity - c.remainder
    ensures var e := Effective(p, c);
      && e > 0 && e - c.size <= p.batch && c.size >= 0
      && BandProgress(p, Stepped(p, c, 0), BandAfter(band, c.size, e, p.batch))
      && (BandLeftAlone(band, c.size, e, p.batch) >= p.service
          <==> Shrunk(p, c) || !Shrinks(p, c) || InPlaceSafe(p))
  {
    if Shrinks(p, c) {
      CeilIs(p.service, p.batch, passes);
      assert (passes - 1) * p.batch == passes * p.batch - p.batch;
    }
    BandMoves(p, c, band);
  }

  /** At the end nothing is outdated, the group has its size again, and the number of passes is known. */
  lemma {:induction false} ProgressEnds(p: Policy, c: Counters, passes: nat)
    requires Progress(p, c) && !Going(p, c)
    requires passes * p.batch == p.capacity - c.remainder && c.outdated >= 0
    ensures c.outdated == 0 && c.size == p.capacity
    ensures passes == PassCount(p)
    ensures Ceil(p.capacity, p.batch) <= passes <= Ceil(p.capacity, p.batch) + 1
  {
    CeilIs(p.capacity, p.batch, passes);
    CeilIs(p.service, p.batch, passes - 1);
    BatchesLeft(p.capacity, p.batch, passes);
    BatchesLeft(p.service, p.batch, Ceil(p.capacity, p.batch));
    assert (passes - 1) * p.batch == passes * p.batch - p.batch;
    assert (passes - 2) * p.batch == passes * p.batch - 2 * p.batch;
  }

  /** While the loop goes on, it has not made all its passes. */
  lemma {:induction false} ProgressGoesOn(p: Policy, c: Counters, passes: nat)
    requires Progress(p, c) && Going(p, c)
    requires passes * p.batch == p.capacity - c.remainder
    ensures passes < PassCount(p)
  {
    BatchesLeft(p.capacity, p.batch, passes);
    BatchesLeft(p.service, p.batch, passes - 1);
    BatchesLeft(p.capacity, p.batch, 0);
    BatchesLeft(p.service, p.batch, 0);
    assert (passes - 1) * p.batch == passes * p.batch - p.batch;
  }

  /** After that many passes, there was a pause after each that left something to do. */
  ghost predicate Paused(capacity: int, batch: int, remainder: int, passes: nat, pauses: int)
    requires batch > 0
  {
    passes * batch == capacity - remainder && pauses == Min(passes, Ceil(capacity, batch) - 1)
  }

  lemma NothingDoneYet(capacity: int, batch: int)
    requires 0 < batch <= capacity
    ensures Paused(capacity, batch, capacity, 0, 0)
  {
  }

  lemma PauseAfter(capacity: int, batch: int, remainder: int, passes: nat, pauses: int)
    requires batch > 0 && Paused(capacity, batch, remainder, passes, pauses)
    ensures Paused(capacity, batch, remainder - batch, passes + 1, if remainder > batch then pauses + 1 else pauses)
  {
  }

  /** The counters after one pass for each element of outdated, which is what it left outdated. */
  function SteppedBy(p: Policy, c: Counters, outdated: seq<int>): Counters {
    if outdated == [] then c
    else Stepped(p, SteppedBy(p, c, outdated[..|outdated| - 1]), outdated[|outdated| - 1])
  }

  /** The loop goes on after any number of passes: with a negative batch size it never ends. */
  lemma {:induction false} NegativeBatchNeverEnds(p: Policy, size: int, left: int, outdated: seq<int>)
    requires p.batch < 0 < p.capacity
    ensures var c := SteppedBy(p, StartCounters(p, size, left), outdated); c.remainder >= p.capacity && Going(p, c)
  {
    if outdated != [] {
      NegativeBatchNeverEnds(p, size, left, outdated[..|outdated| - 1]);
    }
  }

  // ---- The group ----

  datatype Outcome = Replaced | DivisionByZero | WouldTimeOut | UpdateFailed | Endless

  /** What a pass did: instances created or redefined, and instances left in service meanwhile. */
  datatype Pass = Pass(changed: int, inService: int)

  /** A pass changes at most batch instances; the others, kept and not redefined, stay in service. */
  ghost predicate PassStarts(current: seq<Instance>, d: Definition, num: nat, batch: nat, pass: Pass) {
    && pass.changed == num - pass.inService <= batch
    && (OutdatedFirst(current, d) ==> pass.inService == LeftAlone(|current|, Outdated(current, d), num, batch))
  }

  /** A pass leaves that many fewer instances outdated; those stay first if changed instances are listed last. */
  ghost predicate PassEnds(current: seq<Instance>, next: seq<Instance>, d: Definition, num: nat, batch: nat) {
    && Outdated(next, d) <= Positive(Outdated(current, d) - (batch - Positive(num - |current|)))
    && (OutdatedFirst(current, d) ==>
          && Outdated(next, d) == LeftOutdated(|current|, Outdated(current, d), num, batch)
          && (Resorted(current, next) ==> OutdatedFirst(next, d)))
  }

  /**
    The counters of the loop describe the group; while every listing puts
    outdated instances first, so does this one.
  */
  ghost predicate Tracked(current: seq<Instance>, d: Definition, p: Policy, c: Counters, ordered: bool) {
    && c.size == |current| && c.outdated == Outdated(current, d)
    && Progress(p, c)
    && (ordered ==> OutdatedFirst(current, d) && OrderedProgress(p, c))
  }

  lemma BatchStarts(current: seq<Instance>, d: Definition, p: Policy, c: Counters, ordered: bool, pass: Pass)
    requires Tracked(current, d, p, c, ordered) && Going(p, c)
    ensures var e := Effective(p, c);
      && e > 0 && e - |current| <= p.batch
      && (PassStarts(current, d, e, p.batch, pass) ==>
            pass.changed <= p.batch && (ordered ==> pass.inService >= p.service))
  {
    if ordered {
      PassKeepsService(p, c);
    }
  }

  lemma BatchEnds(current: seq<Instance>, next: seq<Instance>, d: Definition, p: Policy, c: Counters, ordered: bool)
    requires Tracked(current, d, p, c, ordered) && Going(p, c)
    requires |next| == Effective(p, c) && |next| > 0 && PassEnds(current, next, d, |next|, p.batch)
    ensures Tracked(next, d, p, Stepped(p, c, Outdated(next, d)), ordered && Resorted(current, next))
  {
    PassKeepsProgress(p, c, Outdated(next, d));
    if ordered {
      PassKeepsService(p, c);
    }
  }

  /** No pass changed more than batch instances; and, if strict, each left enough in service. */
  ghost predicate Logged(log: seq<Pass>, p: Policy, strict: bool) {
    forall pass :: pass in log ==> pass.changed <= p.batch && (strict ==> pass.inService >= p.service)
  }

  lemma LogGrows(log: seq<Pass>, pass: Pass, p: Policy, strict: bool)
    requires Logged(log, p, strict) && pass.changed <= p.batch && (strict ==> pass.inService >= p.service)
    ensures Logged(log + [pass], p, strict)
  {
  }

  /** Every pass left enough instances in service. */
  ghost predicate KeptService(log: seq<Pass>, service: int) {
    forall pass :: pass in log ==> pass.inService >= service
  }

  ghost predicate NoneUpdated(s: seq<Instance>, d: Definition) {
    forall i :: 0 <= i < |s| ==> s[i].definition != d
  }

  /** Every listing so far has kept the order of the template before it. */
  ghost predicate InPlaceSoFar(current: seq<Instance>, d: Definition, p: Policy, c: Counters, band: Band,
                               log: seq<Pass>)
    requires p.batch > 0
  {
    && Banded(current, d, band) && BandProgress(p, c, band)
    && (KeptService(log, p.service) <==> !Shrunk(p, c) || InPlaceSafe(p))
  }

  lemma {:induction false} InPlaceKept(current: seq<Instance>, next: seq<Instance>, d: Definition, p: Policy,
                                       c: Counters, band: Band, log: seq<Pass>, pass: Pass)
    requires p.batch > 0 && InPlaceSoFar(current, d, p, c, band, log)
    requires Progress(p, c) && Going(p, c) && c.size == |current|
    requires |log| * p.batch == p.capacity - c.remainder
    requires Effective(p, c) > 0 && Effective(p, c) - |current| <= p.batch
    requires PassOnBand(current, next, d, Effective(p, c), p.batch, band, pass, true)
    ensures InPlaceSoFar(next, d, p, Stepped(p, c, Outdated(next, d)),
                         BandAfter(band, c.size, Effective(p, c), p.batch), log + [pass])
  {
    BandPass(p, c, band, |log|);
    assert forall q :: q in log + [pass] <==> q in log || q == pass;
  }

  /** A pass over a band, and the band it leaves if every instance keeps its place. */
  ghost predicate PassOnBand(current: seq<Instance>, next: seq<Instance>, d: Definition, num: nat, batch: nat,
                             band: Band, pass: Pass, inPlace: bool)
    requires num - |current| <= batch
  {
    Banded(current, d, band) ==>
      && pass.inService == BandLeftAlone(band, |current|, num, batch)
      && (inPlace ==> Banded(next, d, BandAfter(band, |current|, num, batch)))
  }

  lemma BandOfPass(current: seq<Instance>, d: Definition, num: nat, batch: nat, ids: seq<Name>, band: Band)
    requires DistinctNames(current) && |ids| >= num - |current| && Fresh(ids, current)
    requires num > 0 && num - |current| <= batch
    ensures var t := Template(current, d, num, batch, ids);
      PassOnBand(current, t, d, num, batch, band, PassOf(current, t), true)
  {
    if Banded(current, d, band) {
      TemplateBanded(current, d, num, batch, ids, band);
      TemplateNames(current, d, num, batch, ids);
      UnaffectedCount(current, d, num, batch, ids);
      var off := Positive(|current| - num);
      BandKept(current, d, band, off);
      assert LastOf(current, num) == current[off..];
    }
  }

  /** What happened in the loop so far; resorted and inPlace tell how the instances were listed after every pass. */
  datatype Trace = Trace(c: Counters, band: Band, log: seq<Pass>, resorted: bool, inPlace: bool)

  /** A trace of a loop that began with outdated instances listed first, if ordered. */
  ghost predicate Traced(current: seq<Instance>, d: Definition, p: Policy, t: Trace, ordered: bool)
    requires p.batch > 0
  {
    && Tracked(current, d, p, t.c, ordered && t.resorted)
    && Logged(t.log, p, ordered && t.resorted)
    && |t.log| * p.batch == p.capacity - t.c.remainder
    && (t.inPlace ==> InPlaceSoFar(current, d, p, t.c, t.band, t.log))
  }

  ghost function NextTrace(current: seq<Instance>, next: seq<Instance>, d: Definition, p: Policy, t: Trace, pass: Pass,
                           kept: bool): Trace
    requires Effective(p, t.c) > 0 && Effective(p, t.c) - t.c.size <= p.batch && t.c.size >= 0 && p.batch >= 0
  {
    Trace(Stepped(p, t.c, Outdated(next, d)), BandAfter(t.band, t.c.size, Effective(p, t.c), p.batch),
          t.log + [pass], t.resorted && Resorted(current, next), t.inPlace && kept)
  }

  lemma OneMoreBatch(n: nat, m: nat, batch: nat, updated: int)
    requires n * batch == updated && m == n + 1
    ensures m * batch == updated + batch
  {
  }

  lemma {:induction false} TraceKept(current: seq<Instance>, next: seq<Instance>, d: Definition, p: Policy, t: Trace,
                                     ordered: bool, pass: Pass, kept: bool)
    requires p.batch > 0 && Traced(current, d, p, t, ordered) && Going(p, t.c)
    requires |next| == Effective(p, t.c) && |next| > 0 && |next| - |current| <= p.batch
    requires PassEnds(current, next, d, |next|, p.batch)
    requires PassOnBand(current, next, d, |next|, p.batch, t.band, pass, kept)
    requires pass.changed <= p.batch && (ordered && t.resorted ==> pass.inService >= p.service)
    ensures Traced(next, d, p, NextTrace(current, next, d, p, t, pass, kept), ordered)
  {
    BatchEnds(current, next, d, p, t.c, ordered && t.resorted);
    LogGrows(t.log, pass, p, ordered && t.resorted);
    OneMoreBatch(|t.log|, |t.log + [pass]|, p.batch, p.capacity - t.c.remainder);
    if t.inPlace && kept {
      InPlaceKept(current, next, d, p, t.c, t.band, t.log, pass);
    }
  }

  ghost function PassOf(current: seq<Instance>, t: seq<Instance>): Pass {
    Pass(|t| - |Unaffected(current, t)|, |Unaffected(current, t)|)
  }

  lemma BeforePass(current: seq<Instance>, d: Definition, num: nat, batch: nat, ids: seq<Name>)
    requires DistinctNames(current) && |ids| >= num - |current| && Fresh(ids, current)
    requires num > 0 && num - |current| <= batch
    ensures PassStarts(current, d, num, batch, PassOf(current, Template(current, d, num, batch, ids)))
  {
    PassBounds(current, d, num, batch, ids);
  }

  lemma AfterPass(current: seq<Instance>, d: Definition, num: nat, batch: nat, ids: seq<Name>, next: seq<Instance>)
    requires DistinctNames(current) && |ids| >= num - |current| && Fresh(ids, current)
    requires num > 0 && num - |current| <= batch
    requires DistinctNames(next) && Elements(next) == Elements(Template(current, d, num, batch, ids))
    ensures |next| == num && PassEnds(current, next, d, num, batch)
  {
    var t := Template(current, d, num, batch, ids);
    PassBounds(current, d, num, batch, ids);
    OutdatedInAnyOrder(t, next, d);
    if OutdatedFirst(current, d) && Resorted(current, next) {
      forall x | x in next && x !in current ensures x.definition == d {
        assert x in Elements(next);
        TemplateChanges(current, d, num, batch, ids, x);
      }
      ResortedKeepsOutdatedFirst(current, next, d);
    }
  }

  /** The newest of the instances, as many as fit into size, then new ones. */
  ghost function Resized(current: seq<Instance>, size: nat, ids: seq<Name>, d: Definition): seq<Instance> {
    current[Positive(|current| - size)..] + NewInstances(ids, d)
  }

  class InstanceGroup {
    /** get_instances(): what the nested stack holds, oldest first. */
    var instances: seq<Instance>
    var nextId: Name

    ghost predicate Valid()
      reads this
    {
      DistinctNames(instances) && forall i :: 0 <= i < |instances| ==> instances[i].name < nextId
    }

    /** short_id.generate_id for each new instance. */
    method GenerateIds(n: nat) returns (ids: seq<Name>)
      requires Valid()
      modifies `nextId
      ensures |ids| == n && Fresh(ids, instances) && old(nextId) <= nextId
      ensures forall i :: 0 <= i < |ids| ==> old(nextId) <= ids[i] < nextId
    {
      var first := nextId;
      ids := seq(n, i requires 0 <= i < n => first + i);
      nextId := nextId + n;
    }

    /** _create_template. */
    method CreateTemplate(d: Definition, num: nat, replace: int) returns (t: seq<Instance>, ghost ids: seq<Name>)
      requires Valid()
      modifies `nextId
      ensures Valid() && |ids| == Positive(num - |instances|) && Fresh(ids, instances)
      ensures forall i :: 0 <= i < |ids| ==> old(nextId) <= ids[i]
      ensures t == Template(instances, d, num, replace, ids) && DistinctNames(t)
      ensures forall i :: 0 <= i < |t| ==> t[i].name < nextId
    {
      var fresh_ids := GenerateIds(Positive(num - |instances|));
      ids := fresh_ids;
      t := ResourceTemplates(instances, d, num, replace, fresh_ids);
      TemplateNames(instances, d, num, replace, ids);
      ghost var off := Positive(|instances| - num);
      forall i | 0 <= i < |t| ensures t[i].name < nextId {
        if i < |instances| - off {
          assert t[i].name == instances[off + i].name;
        }
      }
    }

    /** update_with_template, run to its end: it fails, or the group holds just what t says, listed in any order. */
    method Update(t: seq<Instance>, fails: bool) returns (done: bool)
      requires DistinctNames(t) && forall i :: 0 <= i < |t| ==> t[i].name < nextId
      modifies `instances
      ensures done <==> !fails
      ensures done ==> Valid() && Elements(instances) == Elements(t)
    {
      done := !fails;
      instances := *;
      if done && !(DistinctNames(instances) && Elements(instances) == Elements(t)) {
        instances := t;
      }
      if done {
        forall i | 0 <= i < |instances| ensures instances[i].name < nextId {
          assert instances[i] in Elements(t);
        }
      }
    }

    /** One pass of the loop: at most batch instances are created or redefined. */
    method ReplaceBatch(d: Definition, num: nat, batch: nat, fails: bool, ghost band: Band)
      returns (done: bool, ghost pass: Pass, ghost inPlace: bool)
      requires Valid() && num > 0 && num - |instances| <= batch
      modifies this
      ensures done <==> !fails
      ensures PassStarts(old(instances), d, num, batch, pass)
      ensures PassOnBand(old(instances), instances, d, num, batch, band, pass, inPlace)
      ensures done ==> Valid() && |instances| == num && PassEnds(old(instances), instances, d, num, batch)
    {
      ghost var current := instances;
      var t, ids := CreateTemplate(d, num, batch);
      pass := PassOf(current, t);
      BeforePass(current, d, num, batch, ids);
      BandOfPass(current, d, num, batch, ids, band);
      done := Update(t, fails);
      inPlace := instances == t;
      if done {
        AfterPass(current, d, num, batch, ids, instances);
      }
    }

    /** The body of the loop, up to the pause. */
    method NextBatch(p: Policy, d: Definition, effective: int, remainder: int, fails: bool,
                     ghost t: Trace, ghost ordered: bool)
      returns (done: bool, asked: int, ghost next: Trace)
      requires p.batch > 0 && Valid() && Traced(instances, d, p, t, ordered)
      requires t.c.remainder == remainder && t.c.effective == effective && Going(p, t.c)
      modifies this
      ensures done <==> !fails
      ensures asked == Effective(p, t.c) && |next.log| == |t.log| + 1
      ensures Logged(next.log, p, ordered && t.resorted) && (next.resorted ==> t.resorted)
      ensures done ==> Valid() && Traced(instances, d, p, next, ordered)
      ensures next.c.remainder == remainder - p.batch && next.c.effective == asked && (next.inPlace ==> t.inPlace)
    {
      ghost var current := instances;
      asked := effective;
      if p.capacity - remainder >= p.service {
        asked := p.capacity;
      }
      BatchStarts(current, d, p, t.c, ordered && t.resorted, Pass(0, 0));
      ghost var pass, kept;
      done, pass, kept := ReplaceBatch(d, asked, p.batch, fails, t.band);
      BatchStarts(current, d, p, t.c, ordered && t.resorted, pass);
      next := NextTrace(current, instances, d, p, t, pass, kept);
      LogGrows(t.log, pass, p, ordered && t.resorted);
      if done {
        TraceKept(current, instances, d, p, t, ordered, pass, kept);
      }
    }

    /**
      The while loop; fails says which updates of the nested stack fail. Pauses
      are counted in batches after which there was something left to do.
    */
    method ReplaceAll(p: Policy, d: Definition, fails: nat -> bool)
      returns (done: bool, ghost log: seq<Pass>, ghost pauses: int, ghost resorted: bool, ghost inPlace: bool)
      requires Valid() && |instances| == p.capacity && 0 < p.batch <= p.capacity && p.service <= p.capacity
      modifies this
      ensures done <==> forall i: nat :: i < PassCount(p) ==> !fails(i)
      ensures forall pass :: pass in log ==> pass.changed <= p.batch
      ensures resorted && OutdatedFirst(old(instances), d) ==> KeptService(log, p.service)
      ensures done && inPlace && NoneUpdated(old(instances), d) ==> (KeptService(log, p.service) <==> InPlaceSafe(p))
      ensures done ==> Valid() && |instances| == p.capacity
      ensures done ==> forall i :: 0 <= i < |instances| ==> instances[i].definition == d
      ensures done ==> |log| == PassCount(p) && Ceil(p.capacity, p.batch) <= |log| <= Ceil(p.capacity, p.batch) + 1
      ensures done ==> pauses == Ceil(p.capacity, p.batch) - 1
    {
      var effective := StartCapacity(p);
      var remainder, passes := p.capacity, 0;
      pauses := 0;
      ghost var c := StartCounters(p, |instances|, Outdated(instances, d));
      ghost var t := Trace(c, Band(0, p.capacity), [], true, NoneUpdated(instances, d));
      ghost var ordered := OutdatedFirst(instances, d);
      NothingDoneYet(p.capacity, p.batch);
      while remainder > 0 || effective > p.capacity
        invariant t.c.remainder == remainder && t.c.effective == effective
        invariant Valid() && Traced(instances, d, p, t, ordered)
        invariant Paused(p.capacity, p.batch, remainder, |t.log|, pauses)
        invariant passes == |t.log| && forall i: nat :: i < passes ==> !fails(i)
        decreases Positive(remainder) + if effective > p.capacity then 1 else 0
      {
        ghost var before := t;
        ProgressGoesOn(p, t.c, passes);
        done, effective, t := NextBatch(p, d, effective, remainder, fails(passes), t, ordered);
        if !done {
          return false, t.log, pauses, t.resorted, false;
        }
        PauseAfter(p.capacity, p.batch, remainder, |before.log|, pauses);
        remainder, passes := remainder - p.batch, passes + 1;
        if remainder > 0 {
          pauses := pauses + 1;
        }
      }
      BatchesLeft(p.capacity, p.batch, |t.log|);
      ProgressEnds(p, t.c, |t.log|);
      ZeroOutdated(instances, d);
      done, log, resorted, inPlace := true, t.log, t.resorted, t.inPlace;
    }

    /**
      _replace. The loop that a negative batch size leads to never ends by
      itself (NegativeBatchNeverEnds); Endless stands for it.
    */
    method Replace(minInService: int, maxBatch: int, pause: nat, timeoutMins: int, d: Definition, fails: nat -> bool)
      returns (outcome: Outcome, ghost log: seq<Pass>, ghost pauses: int, ghost resorted: bool, ghost inPlace: bool)
      requires Valid()
      modifies this
      ensures var capacity := |old(instances)|;
        var p := Policy(capacity, Min(maxBatch, capacity), Min(minInService, capacity));
        && (outcome == DivisionByZero <==> p.batch == 0)
        && (outcome == WouldTimeOut <==>
              p.batch != 0 && pause * (FloorDiv(capacity + p.batch - 1, p.batch) - 1) >= timeoutMins * 60)
        && (outcome == UpdateFailed <==>
              p.batch > 0 && outcome != WouldTimeOut && exists i: nat :: i < PassCount(p) && fails(i))
        && (outcome == Endless <==> p.batch < 0 < capacity && outcome != WouldTimeOut)
        && (outcome == DivisionByZero || outcome == WouldTimeOut || outcome == Endless ==> unchanged(this) && log == [])
        && (forall pass :: pass in log ==> pass.changed <= p.batch)
        && (resorted && OutdatedFirst(old(instances), d) ==> KeptService(log, p.service))
        && (outcome == Replaced && capacity > 0 && inPlace && NoneUpdated(old(instances), d) ==>
              (KeptService(log, p.service) <==> InPlaceSafe(p)))
        && (outcome == Replaced ==>
              && Valid() && |instances| == capacity
              && (forall i :: 0 <= i < |instances| ==> instances[i].definition == d)
              && (capacity > 0 ==>
                    && |log| == PassCount(p) <= Ceil(capacity, p.batch) + 1
                    && pauses == Ceil(capacity, p.batch) - 1 && pause * pauses < timeoutMins * 60))
    {
      var capacity := |instances|;
      var batch, service := Min(maxBatch, capacity), Min(minInService, capacity);
      log, pauses, resorted, inPlace := [], 0, true, true;
      if batch == 0 {
        return DivisionByZero, log, pauses, resorted, inPlace;
      }
      var batchCount := FloorDiv(capacity + batch - 1, batch);
      if pause * (batchCount - 1) >= timeoutMins * 60 {
        return WouldTimeOut, log, pauses, resorted, inPlace;
      }
      if batch < 0 {
        return if capacity > 0 then Endless else Replaced, log, pauses, resorted, inPlace;
      }
      var done;
      done, log, pauses, resorted, inPlace := ReplaceAll(Policy(capacity, batch, service), d, fails);
      outcome := if done then Replaced else UpdateFailed;
    }

    /** resize: the newest instances are kept as they are, new ones are added if there are too few. */
    method Resize(d: Definition, size: nat, fails: bool) returns (done: bool, ghost ids: seq<Name>)
      requires Valid()
      modifies this
      ensures done <==> !fails
      ensures |ids| == Positive(size - |old(instances)|) && forall i :: 0 <= i < |ids| ==> old(nextId) <= ids[i]
      ensures done ==> Valid() && |instances| == size
      ensures done ==> Elements(instances) == Elements(Resized(old(instances), size, ids, d))
    {
      ghost var current := instances;
      var t;
      t, ids := CreateTemplate(d, size, 0);
      TemplateWithoutReplacement(current, d, size, ids);
      done := Update(t, fails);
      if done {
        OutdatedInAnyOrder(t, instances, d);
      }
    }
  }

  /**
    A pass may leave too few in service when instances updated in place keep their
    age: here one where two were asked for.
  */
  lemma InPlaceUpdateBreaksService(d: Definition, e: Definition)
    requires d != e
    ensures var start := [Instance(0, e), Instance(1, e), Instance(2, e)];
      var first := Template(start, d, StartCapacity(Policy(3, 2, 2)), 2, [3]);
      var second := Template(first, d, 3, 2, []);
      && first == [Instance(0, d), Instance(1, e), Instance(2, e), Instance(3, d)]
      && second == [Instance(1, d), Instance(2, d), Instance(3, d)]
      && Unaffected(first, second) == {Instance(3, d)}
  {
    var start := [Instance(0, e), Instance(1, e), Instance(2, e)];
    OutdatedGrows(start, d, 1);
    OutdatedGrows(start, d, 2);
    assert start[..0] == [];
    var first := Template(start, d, 4, 2, [3]);
    assert first == [Instance(0, d), Instance(1, e), Instance(2, e), Instance(3, d)];
    var kept := first[1..];
    assert kept == [Instance(1, e), Instance(2, e), Instance(3, d)];
    OutdatedGrows(kept, d, 1);
    OutdatedGrows(kept, d, 2);
    assert kept[..0] == [];
    var second := Template(first, d, 3, 2, []);
    assert second == [Instance(1, d), Instance(2, d), Instance(3, d)];
  }
}
