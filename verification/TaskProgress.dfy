/** What the runs of a dependency task group have in common: progress, outcome and order of events. */
module TaskProgress {
  import opened Wrappers
  import opened Graphs
  import opened TaskInvariant

  // ---------------------------------------------------------------- progress

  /** What is left to do for k: twice its remaining advances, or one deletion. */
  ghost function Weight(g: Nodes, st: Snapshot, k: Key): nat {
    if k !in st then 0
    else if !st[k].done then (if st[k].pos < Length(st[k].task) then 2 * (Length(st[k].task) - st[k].pos) else 0)
    else if Completed(st[k]) && k in g then 1
    else 0
  }

  ghost function Pick(keys: set<Key>): (k: Key)
    requires keys != {}
    ensures k in keys
  {
    var k :| k in keys;
    k
  }

  ghost function Total(keys: set<Key>, g: Nodes, st: Snapshot): nat {
    if keys == {} then 0 else Weight(g, st, Pick(keys)) + Total(keys - {Pick(keys)}, g, st)
  }

  lemma {:induction false} TotalDrops(keys: set<Key>, g: Nodes, st: Snapshot, g': Nodes, st': Snapshot, c: Key)
    requires forall k :: k in keys ==> Weight(g', st', k) <= Weight(g, st, k)
    ensures Total(keys, g', st') <= Total(keys, g, st)
    ensures c in keys && Weight(g', st', c) < Weight(g, st, c) ==> Total(keys, g', st') < Total(keys, g, st)
  {
    if keys != {} {
      TotalDrops(keys - {Pick(keys)}, g, st, g', st', c);
    }
  }

  lemma AdvanceDrops(keys: set<Key>, g: Nodes, st: Snapshot, k: Key, s: RunnerState)
    requires k in keys && k in st && Pending(st[k])
    requires s.task == st[k].task && s.pos == st[k].pos + 1 && (Pending(s) || Completed(s))
    ensures Total(keys, g, st[k := s]) < Total(keys, g, st)
  {
    TotalDrops(keys, g, st, g, st[k := s], k);
  }

  lemma GhostStartKeeps(keys: set<Key>, g: Nodes, st: Snapshot, k: Key, s: RunnerState)
    requires k in st && Cancelled(st[k]) && s == st[k].(runner := s.runner)
    ensures Total(keys, g, st[k := s]) <= Total(keys, g, st)
  {
    TotalDrops(keys, g, st, g, st[k := s], k);
  }

  lemma DeleteDrops(keys: set<Key>, g0: Nodes, g: Nodes, st: Snapshot, k: Key)
    requires Mirrored(g0) && Inv(g0, g, st) && k in g && st[k].done && keys <= g0.Keys
    ensures Total(keys, Deleted(g, k), st) <= Total(keys, g, st)
    ensures k in keys && Completed(st[k]) ==> Total(keys, Deleted(g, k), st) < Total(keys, g, st)
  {
    assert KeyInv(g0, g, st, k);
    forall j | j in keys ensures Weight(Deleted(g, k), st, j) <= Weight(g, st, j) {
      if j in g[k].satisfy && j !in g {
        assert Satisfies(g0, k, j);
        assert Requires(g0, j, k);
        assert KeyInv(g0, g, st, j);
      }
    }
    TotalDrops(keys, g, st, Deleted(g, k), st, k);
  }

  lemma FailDrops(keys: set<Key>, g0: Nodes, g: Nodes, st: Snapshot, k: Key, s: RunnerState, g': Nodes)
    requires Mirrored(g0) && Inv(g0, g, st) && k in g && Pending(st[k]) && k in keys && keys <= g0.Keys
    requires s.task == st[k].task && s.pos == Length(s.task) && s.task.failure.Some?
    requires Hollowed(g0, g, g', k)
    ensures Total(keys, g', CancelledStates(g0, st[k := s], k)) < Total(keys, g, st)
  {
    var st' := CancelledStates(g0, st[k := s], k);
    FailedStates(g0, g, st, k, s);
    forall j | j in keys ensures Weight(g', st', j) <= Weight(g, st, j) {
      assert j == k || Reaches(g0, j, k) || (st'[j] == st[j] && (j in g' <==> j in g));
    }
    TotalDrops(keys, g, st, g', st', k);
  }

  /**
    While some subtask is not done, there is one that the next round starts,
    steps or deletes.
  */
  lemma {:induction false} Candidate(g0: Nodes, order: seq<Key>, g: Nodes, st: Snapshot, k: Key) returns (c: Key)
    requires Mirrored(g0) && IsTopoOrder(g0, order) && Inv(g0, g, st)
    requires k in st && !st[k].done
    ensures c in g && ((Pending(st[c]) && g[c].require == {}) || Completed(st[c]))
    decreases Positions(order)[k]
  {
    assert KeyInv(g0, g, st, k);
    if r :| r in g[k].require {
      assert Requires(g, k, r);
      assert KeyInv(g0, g, st, r);
      if Completed(st[r]) {
        c := r;
      } else {
        TopoOrderIsRank(g0, order);
        c := Candidate(g0, order, g, st, r);
      }
    } else {
      c := k;
    }
  }

  /**
    If every completed subtask has been deleted, as it has after a round that
    raised nothing, some unfinished one is ready, and the next round advances it.
  */
  lemma SomethingReady(g0: Nodes, order: seq<Key>, g: Nodes, st: Snapshot, k: Key) returns (c: Key)
    requires Mirrored(g0) && IsTopoOrder(g0, order) && Inv(g0, g, st)
    requires k in st && !st[k].done
    requires LeftOver(g, st, {})
    ensures Ready(g, st, c)
  {
    c := Candidate(g0, order, g, st, k);
  }

  /**
    Not every round advances an unfinished subtask. In its first round this
    group starts 0, which completes, and then 2, which raises. That cuts the
    round short before 0 is deleted, so all that the next round can do is to
    delete it: 1, which requires 0, cannot be started yet.
  */
  lemma IdleRound() returns (g0: Nodes, st0: Snapshot, st1: Snapshot, st2: Snapshot, g: Nodes, st: Snapshot)
    ensures Mirrored(g0) && !Cyclic(g0) && st0.Keys == g0.Keys && AllFresh(st0)
    ensures Ready(g0, st0, 0) && Started(st0[0]).1.None? && st1 == st0[0 := Started(st0[0]).0]
    ensures Ready(g0, st1, 2) && Started(st1[2]).1.Some? && st2 == st1[2 := Started(st1[2]).0]
    ensures CancelPost(g0, g0, st2, g, 2) && st == CancelledStates(g0, st2, 2)
    ensures !NoneLeft(st) && NoneReady(g, st)
  {
    g0 := map[0 := Node({}, {1}), 1 := Node({0}, {}), 2 := EMPTY_NODE];
    MirroredByRank(g0, map[0 := 0, 1 := 1, 2 := 0]);
    var quick := Task(Coroutine, 0, None);
    st0 := map[0 := RunnerState(quick, NotStarted, false, 0), 1 := RunnerState(quick, NotStarted, false, 0),
               2 := RunnerState(Task(Coroutine, 0, Some(0)), NotStarted, false, 0)];
    st1 := st0[0 := Started(st0[0]).0];
    st2 := st1[2 := Started(st1[2]).0];
    g := Deleted(g0, 2);
    st := CancelledStates(g0, st2, 2);
    forall x ensures Reaches(g0, x, 2) <==> x == 2 {
      ReachesSelf(g0, 2);
      if x != 2 && Reaches(g0, x, 2) {
        var r := ReachesLast(g0, x, 2);
      }
    }
    assert !st[1].done;
  }

  /** Two sides that agree, and ranks that fall along every requirement. */
  lemma MirroredByRank(g: Nodes, rank: map<Key, nat>)
    requires forall a, b :: a in g && b in g[a].require ==> b in g && a in g[b].satisfy
    requires forall a, b :: b in g && a in g[b].satisfy ==> a in g && b in g[a].require
    requires IsRank(g, rank)
    ensures Mirrored(g) && !Cyclic(g)
  {
    RankedIsAcyclic(g, rank);
  }

  // ---------------------------------------------------------------- cancelled subtasks that are called

  /** The first loop of a round would start k, although it was cancelled. */
  ghost predicate StartedRegardless(g: Nodes, st: Snapshot, k: Key) {
    k in st && Cancelled(st[k]) && st[k].runner.NotStarted? && k in g && g[k].require == {}
  }

  /**
    After the failure of k has been handled, which of the subtasks that waited
    for k the next round would start all the same: those that were not started
    by an earlier round and are still in the graph, or were looked up again
    because a requirement was cancelled now. If that one is a plain callable,
    starting it is calling it.
  */
  lemma CancelledIsStarted(g0: Nodes, g: Nodes, before: Snapshot, now: Snapshot, k: Key, e: Exn, g': Nodes, x: Key)
    requires Mirrored(g0) && !Cyclic(g0) && JustRaised(g0, g, before, now, k, e) && CancelPost(g0, g, now, g', k)
    requires x in g0 && x != k && Reaches(g0, x, k)
    ensures var st := CancelledStates(g0, now, k);
      && Cancelled(st[x])
      && (StartedRegardless(g', st, x) <==>
            && before[x].runner.NotStarted?
            && (x in g || exists r :: Requires(g0, x, r) && Reaches(g0, r, k) && r in before && Pending(before[r])))
      && (Pending(before[x]) ==> StartedRegardless(g', st, x))
      && (StartedRegardless(g', st, x) ==> (Started(st[x]).0.pos > st[x].pos <==> st[x].task.kind.Callable?))
  {
    var st := CancelledStates(g0, now, k);
    WaiterNotStarted(g0, g, before, k, x);
    assert KeyInv(g0, g, before, x);
    forall r | r in g0 && Reaches(g0, r, k) ensures !now[r].done <==> Pending(before[r]) {
      assert KeyInv(g0, g, before, r);
      if r != k {
        WaiterNotStarted(g0, g, before, k, r);
      }
    }
    assert LookedUp(g0, now, k, x) <==>
      exists r :: Requires(g0, x, r) && Reaches(g0, r, k) && r in before && Pending(before[r]);
  }

  /**
    A group that aggregates exceptions and calls a cancelled callable: 1 is a
    callable that requires 0, 0 raises at its start, and 2 is still running,
    so that there is another round.
  */
  lemma CancelledCallableIsCalled()
    returns (g0: Nodes, st0: Snapshot, st1: Snapshot, st2: Snapshot, g: Nodes, st: Snapshot)
    ensures Mirrored(g0) && !Cyclic(g0) && st0.Keys == g0.Keys && AllFresh(st0)
    ensures Ready(g0, st0, 2) && Started(st0[2]).1.None? && st1 == st0[2 := Started(st0[2]).0]
    ensures Ready(g0, st1, 0) && Started(st1[0]).1.Some? && st2 == st1[0 := Started(st1[0]).0]
    ensures CancelPost(g0, g0, st2, g, 0) && st == CancelledStates(g0, st2, 0)
    ensures !NoneLeft(st) && StartedRegardless(g, st, 1)
    ensures st[1].task.kind.Callable? && Started(st[1]).0.pos == 1
  {
    g0 := map[0 := Node({}, {1}), 1 := Node({0}, {}), 2 := EMPTY_NODE];
    MirroredByRank(g0, map[0 := 0, 1 := 1, 2 := 0]);
    st0 := map[0 := RunnerState(Task(Coroutine, 0, Some(0)), NotStarted, false, 0),
               1 := RunnerState(Task(Callable, 0, None), NotStarted, false, 0),
               2 := RunnerState(Task(Coroutine, 1, None), NotStarted, false, 0)];
    st1 := st0[2 := Started(st0[2]).0];
    st2 := st1[0 := Started(st1[0]).0];
    // 1 is deleted first, and 0 then looks it up again
    g := map[1 := EMPTY_NODE, 2 := EMPTY_NODE];
    st := CancelledStates(g0, st2, 0);
    ReachesSelf(g0, 0);
    ReachesBefore(g0, 1, 0, 0);
    assert !Reaches(g0, 2, 0) by {
      if Reaches(g0, 2, 0) {
        var r := ReachesFirst(g0, 2, 0);
      }
    }
    assert LookedUp(g0, st2, 0, 1) by {
      assert Requires(g0, 1, 0);
    }
    assert !st[2].done;
  }

  /**
    A subtask that was cancelled, and deleted, before stays out of the graph
    when another requirement fails that it waits for only through cancelled
    subtasks: 0 has failed, 2 requires 0 and 1, 3 requires 2, and now 1 fails.
  */
  lemma CancelledStaysOut() returns (g0: Nodes, g: Nodes, st: Snapshot, now: Snapshot)
    ensures Mirrored(g0) && !Cyclic(g0) && Inv(g0, g, st) && JustRaised(g0, g, st, now, 1, 0)
    ensures Reaches(g0, 3, 1) && Reaches(g0, 2, 1)
    ensures forall g' :: CancelPost(g0, g, now, g', 1) ==> 2 in g' && 3 !in g'
  {
    g0 := map[0 := Node({}, {2}), 1 := Node({}, {2}), 2 := Node({0, 1}, {3}), 3 := Node({2}, {})];
    MirroredByRank(g0, map[0 := 0, 1 := 0, 2 := 1, 3 := 2]);
    g := map[1 := Node({}, {2})];
    var raises := Task(Coroutine, 1, Some(0));
    var cancelled := RunnerState(Task(Coroutine, 0, None), Generator, true, 0);
    st := map[0 := RunnerState(raises, Generator, true, 2), 1 := RunnerState(raises, Generator, false, 1),
              2 := cancelled, 3 := cancelled];
    now := st[1 := st[1].(pos := 2)];
    assert Requires(g0, 2, 0) && Requires(g0, 2, 1) && Requires(g0, 3, 2);
    forall k | k in g0 ensures KeyInv(g0, g, st, k) {
    }
    ReachesSelf(g0, 1);
    ReachesBefore(g0, 2, 1, 1);
    ReachesBefore(g0, 3, 2, 1);
    assert LookedUp(g0, now, 1, 2) && !LookedUp(g0, now, 1, 3);
  }

  // ---------------------------------------------------------------- which rounds advance a body

  /** k is not done and requires nothing that is still in the graph. */
  ghost predicate Ready(g: Nodes, st: Snapshot, k: Key) {
    k in st && Pending(st[k]) && k in g && g[k].require == {}
  }

  ghost predicate NoneReady(g: Nodes, st: Snapshot) {
    forall k :: !Ready(g, st, k)
  }

  /** No body was advanced between a and b. */
  ghost predicate SamePos(a: Snapshot, b: Snapshot) {
    a.Keys == b.Keys && forall k :: k in a ==> a[k].pos == b[k].pos
  }

  /** Between a and b exactly the bodies were advanced that were ready with g. */
  ghost predicate Advances(g: Nodes, a: Snapshot, b: Snapshot) {
    && a.Keys == b.Keys
    && forall k :: k in a ==> b[k].pos >= a[k].pos && (b[k].pos > a[k].pos <==> Ready(g, a, k))
  }

  /** Between a and b no body was advanced but those of subtasks that had not been started, and those at most once. */
  ghost predicate OnlyStarts(a: Snapshot, b: Snapshot) {
    && a.Keys == b.Keys
    && forall k :: k in a ==> b[k].pos == a[k].pos || (a[k].runner.NotStarted? && b[k].pos == a[k].pos + 1)
  }

  ghost predicate Starts(g: Nodes, st: Snapshot, k: Key)
    requires k in st
  {
    k in g && g[k].require == {} && st[k].runner.NotStarted?
  }

  /** The states after the first loop of a round: whatever it is the turn of, the graph stays the same. */
  ghost function AfterStarts(g: Nodes, st: Snapshot): Snapshot {
    map k | k in st :: if Starts(g, st, k) then Started(st[k]).0 else st[k]
  }

  ghost predicate Runs(g: Nodes, st: Snapshot, k: Key)
    requires k in st
  {
    k in g && !st[k].runner.NotStarted?
  }

  /** The states after the second loop, which began with g and st. */
  ghost function AfterSteps(g: Nodes, st: Snapshot): Snapshot {
    map k | k in st :: if Runs(g, st, k) then Stepped(st[k]).0 else st[k]
  }

  ghost function AfterRound(g: Nodes, st: Snapshot): Snapshot {
    AfterSteps(g, AfterStarts(g, st))
  }

  /** Nothing is raised in the turn of k in the first loop, and no cancelled callable is called. */
  ghost predicate StartsWell(g: Nodes, st: Snapshot, k: Key)
    requires k in st
  {
    Starts(g, st, k) ==> Started(st[k]).1.None? && (st[k].task.kind.Callable? ==> !Cancelled(st[k]))
  }

  /** A round that raises nothing advances the bodies of exactly the subtasks that are ready when it begins. */
  lemma RoundAdvances(g0: Nodes, g: Nodes, st: Snapshot, k: Key)
    requires Inv(g0, g, st) && k in st && StartsWell(g, st, k)
    ensures AfterRound(g, st)[k].pos >= st[k].pos
    ensures AfterRound(g, st)[k].pos > st[k].pos <==> Ready(g, st, k)
  {
    assert KeyInv(g0, g, st, k);
  }

  /** A round that began with nodes and st0 and left to do; it will start, advance or delete next, if nothing raises. */
  datatype Plan = Plan(nodes: Nodes, st0: Snapshot, next: Key, left: nat)

  /** c requires nothing that is still in the graph, and is not done or not deleted. */
  ghost predicate Movable(g: Nodes, st: Snapshot, c: Key) {
    c in st && c in g && g[c].require == {} && (Pending(st[c]) || Completed(st[c]))
  }

  /** Less is left to do than when the round began, or c is still to come. */
  ghost predicate Moves(p: Plan, g0: Nodes, g: Nodes, st: Snapshot, toCome: bool) {
    var total := Total(g0.Keys, g, st);
    total < p.left || (total <= p.left && toCome && Movable(g, st, p.next))
  }

  /** During the first loop of a round; the keys in todo are still to come. */
  ghost predicate StartTurn(p: Plan, g0: Nodes, g: Nodes, st: Snapshot, todo: set<Key>) {
    && Moves(p, g0, g, st, p.next in todo || (p.next in st && !st[p.next].runner.NotStarted?))
    && g == p.nodes && st.Keys == p.st0.Keys
    && forall k :: k in st ==>
         if k in todo then st[k] == p.st0[k] else st[k] == AfterStarts(g, p.st0)[k] && StartsWell(g, p.st0, k)
  }

  /** The subtasks that have completed and are still in the graph are among todo. */
  ghost predicate LeftOver(g: Nodes, st: Snapshot, todo: set<Key>) {
    forall k :: k in g && k in st && Completed(st[k]) ==> k in todo
  }

  /** During the second loop, which began with states mid. */
  ghost predicate StepTurn(p: Plan, g0: Nodes, g: Nodes, st: Snapshot, todo: set<Key>) {
    && Moves(p, g0, g, st, p.next in todo && p.next in st && !st[p.next].runner.NotStarted?)
    && LeftOver(g, st, todo)
    && st.Keys == p.st0.Keys && (forall k :: k in st ==> StartsWell(p.nodes, p.st0, k))
    && forall k :: k in st ==>
         if k in todo then st[k] == AfterStarts(p.nodes, p.st0)[k] && (Cancelled(st[k]) || (k in g <==> k in p.nodes))
         else st[k] == AfterRound(p.nodes, p.st0)[k]
  }

  /** The states after the turn of k in the first loop. */
  ghost function StartTurned(g: Nodes, st: Snapshot, k: Key): Snapshot
    requires k in st
  {
    if Starts(g, st, k) then st[k := Started(st[k]).0] else st
  }

  lemma StartTurnKept(p: Plan, g0: Nodes, g: Nodes, st: Snapshot, todo: set<Key>, k: Key)
    requires Mirrored(g0) && Inv(g0, g, st) && StartTurn(p, g0, g, st, todo) && k in st && StartsWell(g, st, k)
    requires k in todo
    ensures StartTurn(p, g0, g, StartTurned(g, st, k), todo - {k})
  {
    assert KeyInv(g0, g, st, k);
    if Starts(g, st, k) {
      StartKeeps(g0, g, st, k);
    }
  }

  lemma StartTurnEnds(p: Plan, g0: Nodes, g: Nodes, st: Snapshot, todo: set<Key>)
    requires Inv(g0, g, st) && StartTurn(p, g0, g, st, {}) && todo == st.Keys
    ensures StepTurn(p, g0, g, st, todo) && st == AfterStarts(p.nodes, p.st0)
  {
  }

  /** The graph and the states after the turn of k in the second loop. */
  ghost function Turned(g: Nodes, st: Snapshot, k: Key): (Nodes, Snapshot)
    requires k in st
  {
    if Runs(g, st, k) then (AfterStep(g, Stepped(st[k]).0, k), st[k := Stepped(st[k]).0]) else (g, st)
  }

  /** Nothing is raised in the turn of k. */
  ghost predicate StepsWell(g: Nodes, st: Snapshot, k: Key)
    requires k in st
  {
    Runs(g, st, k) ==> Stepped(st[k]).1.None?
  }

  lemma StepTurnKept(p: Plan, g0: Nodes, g: Nodes, st: Snapshot, todo: set<Key>, k: Key)
    requires Mirrored(g0) && Inv(g0, g, st) && StepTurn(p, g0, g, st, todo) && k in st && StepsWell(g, st, k)
    requires k in todo
    ensures StepTurn(p, g0, Turned(g, st, k).0, Turned(g, st, k).1, todo - {k})
  {
    assert KeyInv(g0, g, st, k);
    if Runs(g, st, k) {
      StepKeeps(g0, g, st, k);
      StillMoves(p, g0, g, st, todo, k);
    }
  }

  lemma StillMoves(p: Plan, g0: Nodes, g: Nodes, st: Snapshot, todo: set<Key>, k: Key)
    requires Mirrored(g0) && Inv(g0, g, st) && k in st && Runs(g, st, k) && Stepped(st[k]).1.None?
    requires Moves(p, g0, g, st, p.next in todo && p.next in st && !st[p.next].runner.NotStarted?)
    ensures var (g', st') := Turned(g, st, k);
      Moves(p, g0, g', st', p.next in todo - {k} && p.next in st' && !st'[p.next].runner.NotStarted?)
  {
    StepKeeps(g0, g, st, k);
    var c := p.next;
    if Movable(g, st, c) && c != k {
      assert KeyInv(g0, g, st, c);
      var (g', st') := Turned(g, st, k);
      assert Inv(g0, g', st') && KeyInv(g0, g', st', c);
      assert c in g' && st'[c] == st[c];
      LeafStays(g0, g, st, k, c);
    }
  }

  /** A step deletes nothing but the subtask itself, and no other one gets requirements. */
  lemma LeafStays(g0: Nodes, g: Nodes, st: Snapshot, k: Key, c: Key)
    requires Inv(g0, g, st) && k in st && c in st && c in g && g[c].require == {} && c != k
    ensures c in AfterStep(g, Stepped(st[k]).0, k) ==> AfterStep(g, Stepped(st[k]).0, k)[c].require == {}
  {
  }

  /** A round in which some subtask is not done. */
  lemma BeginRound(g0: Nodes, order: seq<Key>, g: Nodes, st: Snapshot) returns (p: Plan)
    requires Mirrored(g0) && IsTopoOrder(g0, order) && Inv(g0, g, st) && !NoneLeft(st)
    ensures p.st0 == st && p.left == Total(g0.Keys, g, st) && StartTurn(p, g0, g, st, g.Keys)
  {
    var k :| k in st && !st[k].done;
    var c := Candidate(g0, order, g, st, k);
    assert KeyInv(g0, g, st, c);
    p := Plan(g, st, c, Total(g0.Keys, g, st));
  }

  /** What is known when a round is over that raised nothing. */
  lemma RoundTells(p: Plan, g0: Nodes, g: Nodes, st: Snapshot)
    requires Inv(g0, p.nodes, p.st0) && StepTurn(p, g0, g, st, {})
    ensures Total(g0.Keys, g, st) < p.left && LeftOver(g, st, {})
    ensures st == AfterRound(p.nodes, p.st0)
    ensures Advances(p.nodes, p.st0, st)
    ensures SamePos(p.st0, st) <==> NoneReady(p.nodes, p.st0)
  {
    forall k | k in st
      ensures st[k].pos >= p.st0[k].pos && (st[k].pos > p.st0[k].pos <==> Ready(p.nodes, p.st0, k))
    {
      RoundAdvances(g0, p.nodes, p.st0, k);
    }
  }

  /** Up to the end of the first loop nothing is stepped. */
  lemma TurnOnlyStarts(g: Nodes, st: Snapshot)
    ensures OnlyStarts(st, AfterStarts(g, st))
  {
  }

  lemma OnlyStartsStill(a: Snapshot, b: Snapshot, c: Snapshot)
    requires SamePos(b, c)
    ensures OnlyStarts(a, b) ==> OnlyStarts(a, c)
  {
  }

  lemma OneStarts(p: Plan, g0: Nodes, g: Nodes, st: Snapshot, todo: set<Key>, k: Key)
    requires StartTurn(p, g0, g, st, todo) && k in todo && k in st
    ensures OnlyStarts(p.st0, StartTurned(g, st, k))
  {
  }

  // ---------------------------------------------------------------- all rounds of a run

  /** Between two rounds: the graph, the states, and how many exceptions had been caught. */
  datatype Mark = Mark(nodes: Nodes, states: Snapshot, caught: nat)

  /** A round that raised nothing and advanced no body. */
  ghost predicate Idles(a: Mark, b: Mark) {
    a.caught == b.caught && SamePos(a.states, b.states)
  }

  /** How many of the rounds between the marks were idle. */
  ghost function IdleRounds(marks: seq<Mark>): nat {
    if |marks| < 2 then 0
    else IdleRounds(marks[..|marks| - 1]) + if Idles(marks[|marks| - 2], marks[|marks| - 1]) then 1 else 0
  }

  /** The round from m to next raised nothing: it was given its turn everywhere. */
  ghost predicate Undisturbed(m: Mark, next: Mark) {
    && next.caught == m.caught && LeftOver(next.nodes, next.states, {})
    && next.states == AfterRound(m.nodes, m.states) && Advances(m.nodes, m.states, next.states)
  }

  /** A round ends undisturbed, or with an exception: in its first loop if it was interrupted after that. */
  ghost predicate RoundEnds(m: Mark, next: Mark, interrupted: bool) {
    && (next.caught == m.caught + 1 || Undisturbed(m, next))
    && (interrupted ==> next.caught == m.caught + 1 && OnlyStarts(m.states, next.states))
  }

  /**
    The marks of a run that began at m0 with so much left to do: at most one
    round for each piece of work, and one idle round for each exception caught.
  */
  ghost predicate Marked(marks: seq<Mark>, m0: Mark, left: nat, interrupt: Option<nat>) {
    && marks != [] && marks[0] == m0 && |marks| <= left + 1
    && IdleRounds(marks) <= marks[|marks| - 1].caught
    && forall i :: 0 <= i < |marks| - 1 ==> RoundEnds(marks[i], marks[i + 1], interrupt == Some(i))
  }

  /** Each caught exception pays for one idle round; if all are paid, no completed subtask is left over. */
  ghost predicate IdlePaid(marks: seq<Mark>, m: Mark) {
    && marks != [] && marks[|marks| - 1] == m
    && IdleRounds(marks) <= m.caught && (IdleRounds(marks) == m.caught ==> LeftOver(m.nodes, m.states, {}))
  }

  lemma RoundPays(g0: Nodes, order: seq<Key>, marks: seq<Mark>, m: Mark, next: Mark,
                  m0: Mark, left: nat, interrupt: Option<nat>)
    requires Mirrored(g0) && IsTopoOrder(g0, order) && IdlePaid(marks, m) && Marked(marks, m0, left, interrupt)
    requires Inv(g0, m.nodes, m.states) && !NoneLeft(m.states) && |marks| <= left
    requires RoundEnds(m, next, interrupt == Some(|marks| - 1))
    ensures IdlePaid(marks + [next], next) && Marked(marks + [next], m0, left, interrupt)
  {
    assert (marks + [next])[..|marks|] == marks;
    if Idles(m, next) && IdleRounds(marks) == m.caught {
      var k :| k in m.states && !m.states[k].done;
      var c := SomethingReady(g0, order, m.nodes, m.states, k);
      assert false;
    }
  }

  // ---------------------------------------------------------------- outcome

  /** k itself does not count among the failed requirements. */
  ghost predicate HasFailedRequirement(g0: Nodes, st: Snapshot, k: Key) {
    exists r :: r in st && r != k && Reaches(g0, k, r) && Failed(st[r])
  }

  /**
    The subtasks with a failed transitive requirement were cancelled and their
    bodies never advanced; all others ended as they were going to.
  */
  ghost predicate Partition(g0: Nodes, st: Snapshot) {
    && st.Keys == g0.Keys
    && forall k :: k in g0 ==>
         if HasFailedRequirement(g0, st, k) then Cancelled(st[k])
         else if st[k].task.failure.Some? then Failed(st[k])
         else Completed(st[k])
  }

  ghost predicate NoneLeft(st: Snapshot) {
    forall k :: k in st ==> st[k].done
  }

  /** All but the subtasks in todo have been marked as done, and nothing else. */
  ghost predicate Stopped(st: Snapshot, st': Snapshot, todo: set<Key>) {
    && st'.Keys == st.Keys
    && forall k :: k in st ==> st'[k] == if k in todo then st[k] else st[k].(done := true)
  }

  /** A cancelled subtask has a failed requirement to blame. */
  lemma {:induction false} CancelledHasCause(g0: Nodes, order: seq<Key>, g: Nodes, st: Snapshot, k: Key)
    requires Mirrored(g0) && IsTopoOrder(g0, order) && Inv(g0, g, st)
    requires k in g0 && Cancelled(st[k])
    ensures HasFailedRequirement(g0, st, k)
    decreases Positions(order)[k]
  {
    assert KeyInv(g0, g, st, k);
    var r :| Requires(g0, k, r) && r in st && (Failed(st[r]) || Cancelled(st[r]));
    TopoOrderIsRank(g0, order);
    TopoOrderIsAcyclic(g0, order);
    ReachesSelf(g0, r);
    ReachesBefore(g0, k, r, r);
    if Cancelled(st[r]) {
      CancelledHasCause(g0, order, g, st, r);
      var f :| f in st && f != r && Reaches(g0, r, f) && Failed(st[f]);
      ReachesBefore(g0, k, r, f);
      NoWayBack(g0, k, r);
    }
  }

  lemma NoFailureNoCancellation(g0: Nodes, order: seq<Key>, g: Nodes, st: Snapshot)
    requires Mirrored(g0) && IsTopoOrder(g0, order) && Inv(g0, g, st)
    requires forall k :: k in st ==> !Failed(st[k])
    ensures forall k :: k in st ==> !Cancelled(st[k])
  {
    forall k | k in st && Cancelled(st[k]) ensures false {
      CancelledHasCause(g0, order, g, st, k);
    }
  }

  lemma InvGivesPartition(g0: Nodes, order: seq<Key>, g: Nodes, st: Snapshot)
    requires Mirrored(g0) && IsTopoOrder(g0, order) && Inv(g0, g, st) && NoneLeft(st)
    ensures Partition(g0, st)
  {
    forall k | k in g0
      ensures if HasFailedRequirement(g0, st, k) then Cancelled(st[k])
              else if st[k].task.failure.Some? then Failed(st[k]) else Completed(st[k])
    {
      assert KeyInv(g0, g, st, k);
      if HasFailedRequirement(g0, st, k) {
        var r :| r in st && r != k && Reaches(g0, k, r) && Failed(st[r]);
        var p :| WalkBetween(g0, p, k, r);
        WaitersCancelled(g0, g, st, r, p);
      } else if Cancelled(st[k]) {
        CancelledHasCause(g0, order, g, st, k);
      }
    }
  }

  /** In a finished run the subtasks with a transitive requirement that would raise are those that were cancelled. */
  lemma CancelledByTasks(g0: Nodes, st: Snapshot, k: Key)
    requires !Cyclic(g0) && Partition(g0, st) && k in g0
    ensures Cancelled(st[k]) <==> exists r :: r in g0 && r != k && Reaches(g0, k, r) && st[r].task.failure.Some?
  {
    if r :| r in g0 && r != k && Reaches(g0, k, r) && st[r].task.failure.Some? {
      if HasFailedRequirement(g0, st, r) {
        var f :| f in st && f != r && Reaches(g0, r, f) && Failed(st[f]);
        ReachesTransitive(g0, k, r, f);
        var b := ReachesFirst(g0, k, r);
        NoWayBack(g0, k, b);
        if f == k {
          ReachesTransitive(g0, b, r, k);
        }
      }
    }
  }

  /** Which subtasks complete, fail or are cancelled does not depend on how the run was scheduled. */
  lemma {:induction false} OutcomeUnique(g0: Nodes, order: seq<Key>, st: Snapshot, st': Snapshot, n: nat)
    requires Mirrored(g0) && IsTopoOrder(g0, order)
    requires Partition(g0, st) && Partition(g0, st')
    requires forall k :: k in g0 ==> st[k].task == st'[k].task
    requires n <= |order|
    ensures forall i :: 0 <= i < n ==>
      && (Failed(st[order[i]]) <==> Failed(st'[order[i]]))
      && (Cancelled(st[order[i]]) <==> Cancelled(st'[order[i]]))
      && (Completed(st[order[i]]) <==> Completed(st'[order[i]]))
  {
    if n > 0 {
      OutcomeUnique(g0, order, st, st', n - 1);
      var k := order[n - 1];
      assert k in g0;
      forall r | r in g0 && r != k && Reaches(g0, k, r) ensures Failed(st[r]) <==> Failed(st'[r]) {
        TopoOrderIsRank(g0, order);
        var p :| WalkBetween(g0, p, k, r);
        RankAlongWalk(g0, Positions(order), p);
        var i := Positions(order)[r];
        assert order[i] == r && i < n - 1;
      }
      assert HasFailedRequirement(g0, st, k) <==> HasFailedRequirement(g0, st', k);
    }
  }

  /** The same subtasks complete, fail and are cancelled in any two finished runs. */
  lemma {:induction false} OutcomeIndependentOfSchedule(g0: Nodes, order: seq<Key>, st: Snapshot, st': Snapshot)
    requires Mirrored(g0) && IsTopoOrder(g0, order)
    requires Partition(g0, st) && Partition(g0, st')
    requires forall k :: k in g0 ==> st[k].task == st'[k].task
    ensures forall k :: k in g0 ==>
      && (Failed(st[k]) <==> Failed(st'[k]))
      && (Cancelled(st[k]) <==> Cancelled(st'[k]))
      && (Completed(st[k]) <==> Completed(st'[k]))
  {
    OutcomeUnique(g0, order, st, st', |order|);
    forall k | k in g0 ensures exists i :: 0 <= i < |order| && order[i] == k {
      assert k in order;
    }
  }

  // ---------------------------------------------------------------- order of events

  /** Between a and b no body advanced but those whose requirements had all completed. */
  ghost predicate SafeStep(g0: Nodes, a: Snapshot, b: Snapshot) {
    forall k, r :: k in a && k in b && a[k].pos != b[k].pos && Requires(g0, k, r) ==> r in a && Completed(a[r])
  }

  ghost predicate SafeHistory(g0: Nodes, h: seq<Snapshot>) {
    forall i :: 0 <= i < |h| - 1 ==> SafeStep(g0, h[i], h[i + 1])
  }

  lemma HistoryGrows(g0: Nodes, h: seq<Snapshot>, b: Snapshot)
    requires h != [] && SafeHistory(g0, h) && SafeStep(g0, h[|h| - 1], b)
    ensures SafeHistory(g0, h + [b])
  {
  }

  /** The body of k has just raised e; in every other respect the state before obeys the invariant. */
  ghost predicate JustRaised(g0: Nodes, g: Nodes, before: Snapshot, now: Snapshot, k: Key, e: Exn) {
    && Inv(g0, g, before)
    && k in g && k in before && g[k].require == {} && Pending(before[k])
    && k in now && now == before[k := now[k]]
    && now[k].task == before[k].task && now[k].pos == Length(now[k].task) && !now[k].done
    && now[k].task.failure == Some(e)
  }

  ghost function FailedKeys(st: Snapshot): set<Key> {
    set k | k in st && Failed(st[k])
  }

  // ---------------------------------------------------------------- one call into a runner

  /** What a call that raised nothing leaves: the invariant, and no more to do than before. */
  ghost predicate Kept(g0: Nodes, g: Nodes, st: Snapshot, g': Nodes, st': Snapshot) {
    Inv(g0, g', st') && Total(g0.Keys, g', st') <= Total(g0.Keys, g, st) && FailedKeys(st') == FailedKeys(st)
  }

  lemma OnlyReadyAdvance(g0: Nodes, g: Nodes, st: Snapshot, k: Key, s: RunnerState)
    requires Mirrored(g0) && Inv(g0, g, st) && k in st
    requires s.pos != st[k].pos ==> k in g && g[k].require == {} && Pending(st[k])
    ensures SafeStep(g0, st, st[k := s])
  {
    if s.pos != st[k].pos {
      ReadyIsSettled(g0, g, st, k);
    }
  }

  /** Starting a subtask without requirements that was not started before. */
  lemma StartKeeps(g0: Nodes, g: Nodes, st: Snapshot, k: Key)
    requires Mirrored(g0) && Inv(g0, g, st)
    requires k in g && g[k].require == {} && st[k].runner.NotStarted?
    requires st[k].task.kind.Callable? ==> !Cancelled(st[k])
    ensures SafeStep(g0, st, st[k := Started(st[k]).0])
    ensures Pending(st[k]) || Cancelled(st[k])
    ensures match Started(st[k]).1
            case None => Kept(g0, g, st, g, st[k := Started(st[k]).0])
            case Some(e) => JustRaised(g0, g, st, st[k := Started(st[k]).0], k, e)
    ensures Started(st[k]).1.None? && Pending(st[k]) ==>
      Total(g0.Keys, g, st[k := Started(st[k]).0]) < Total(g0.Keys, g, st)
  {
    var s := Started(st[k]).0;
    assert KeyInv(g0, g, st, k);
    OnlyReadyAdvance(g0, g, st, k, s);
    if Pending(st[k]) {
      if Started(st[k]).1.None? {
        InvAdvance(g0, g, st, k, s);
        AdvanceDrops(g0.Keys, g, st, k, s);
      }
    } else {
      InvGhostStart(g0, g, st, k, s);
      GhostStartKeeps(g0.Keys, g, st, k, s);
    }
  }

  /** The graph after k was stepped: k is deleted once it is done. */
  function AfterStep(g: Nodes, s: RunnerState, k: Key): Nodes {
    if s.done then Deleted(g, k) else g
  }

  /** Stepping a subtask that was started and is still in the graph, and deleting it once it is done. */
  lemma StepKeeps(g0: Nodes, g: Nodes, st: Snapshot, k: Key)
    requires Mirrored(g0) && Inv(g0, g, st)
    requires k in g && !st[k].runner.NotStarted?
    ensures SafeStep(g0, st, st[k := Stepped(st[k]).0])
    ensures match Stepped(st[k]).1
            case None => Kept(g0, g, st, AfterStep(g, Stepped(st[k]).0, k), st[k := Stepped(st[k]).0])
            case Some(e) => JustRaised(g0, g, st, st[k := Stepped(st[k]).0], k, e)
    ensures Stepped(st[k]).1.None? && (Pending(st[k]) || Completed(st[k])) ==>
      Total(g0.Keys, AfterStep(g, Stepped(st[k]).0, k), st[k := Stepped(st[k]).0]) < Total(g0.Keys, g, st)
    ensures forall j :: j in st && j != k && !Cancelled(st[j]) ==> (j in AfterStep(g, Stepped(st[k]).0, k) <==> j in g)
  {
    var s := Stepped(st[k]).0;
    assert KeyInv(g0, g, st, k);
    OnlyReadyAdvance(g0, g, st, k, s);
    if Pending(st[k]) {
      if Stepped(st[k]).1.None? {
        InvAdvance(g0, g, st, k, s);
        AdvanceDrops(g0.Keys, g, st, k, s);
      }
    } else {
      assert st[k := s] == st;
    }
    if s.done {
      InvDelete(g0, g, st[k := s], k);
      DeleteDrops(g0.Keys, g0, g, st[k := s], k);
    }
  }

  /** Cancelling a subtask whose body has just raised, and everything that waits for it. */
  lemma FailKeeps(g0: Nodes, order: seq<Key>, g: Nodes, before: Snapshot, now: Snapshot, k: Key, e: Exn, g': Nodes)
    requires Mirrored(g0) && IsTopoOrder(g0, order) && JustRaised(g0, g, before, now, k, e)
    requires CancelPost(g0, g, now, g', k)
    ensures Inv(g0, g', CancelledStates(g0, now, k))
    ensures SafeStep(g0, now, CancelledStates(g0, now, k)) && SamePos(now, CancelledStates(g0, now, k))
    ensures FailedKeys(CancelledStates(g0, now, k)) == FailedKeys(before) + {k} && k !in FailedKeys(before)
    ensures Total(g0.Keys, g', CancelledStates(g0, now, k)) < Total(g0.Keys, g, before)
  {
    TopoOrderIsAcyclic(g0, order);
    InvFail(g0, g, before, k, now[k], g');
    FailDrops(g0.Keys, g0, g, before, k, now[k], g');
  }

  /** With no exception caught, a run that is over completed everything. */
  lemma AllCompleted(g0: Nodes, order: seq<Key>, g: Nodes, st: Snapshot)
    requires Mirrored(g0) && IsTopoOrder(g0, order) && Inv(g0, g, st) && NoneLeft(st) && FailedKeys(st) == {}
    ensures forall k :: k in st ==> Completed(st[k])
  {
    assert forall k :: k in st && Failed(st[k]) ==> k in FailedKeys(st);
    NoFailureNoCancellation(g0, order, g, st);
    forall k | k in st ensures Completed(st[k]) {
      assert KeyInv(g0, g, st, k);
    }
  }

  /** Marking everything as done advances no body, and forgets no failure. */
  lemma StoppedKeeps(g0: Nodes, st: Snapshot, st': Snapshot)
    requires Stopped(st, st', {})
    ensures SafeStep(g0, st, st') && SamePos(st, st') && NoneLeft(st') && FailedKeys(st) <= FailedKeys(st')
  {
  }
}
