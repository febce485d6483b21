/**
  Subtasks, their runners, and the invariant that ties the runners of a
  dependency task group to what is left of its graph.
*/
module TaskInvariant {
  import opened Wrappers
  import opened Graphs

  type Exn = nat

  datatype Kind = Coroutine | Callable

  /**
    A subtask. A co-routine yields some number of times and then returns, or
    raises failure. A plain callable does all of its work when it is called.
  */
  datatype Task = Task(kind: Kind, pauses: nat, failure: Option<Exn>)

  /** How often the body of a task is advanced before it ends. */
  function Length(t: Task): (n: nat)
    ensures n > 0
  {
    if t.kind.Callable? then 1 else t.pauses + 1
  }

  /** TaskRunner._runner: None, False, or a generator. */
  datatype Runner = NotStarted | Plain | Generator

  /** A runner: pos counts how often the body of its task was advanced. */
  datatype RunnerState = RunnerState(task: Task, runner: Runner, done: bool, pos: nat)

  type Snapshot = map<Key, RunnerState>

  /** next() on the generator. An exhausted generator ends at once. */
  function Resumed(s: RunnerState): (RunnerState, Option<Exn>) {
    if s.pos >= Length(s.task) then
      (s.(done := true), None)
    else if s.pos + 1 < Length(s.task) then
      (s.(pos := s.pos + 1), None)
    else if s.task.failure.None? then
      (s.(pos := s.pos + 1, done := true), None)
    else
      (s.(pos := s.pos + 1), s.task.failure)
  }

  /** TaskRunner.step */
  function Stepped(s: RunnerState): (RunnerState, Option<Exn>) {
    if s.done then (s, None) else Resumed(s)
  }

  /** TaskRunner.start */
  function Started(s: RunnerState): (RunnerState, Option<Exn>) {
    match s.task.kind
    case Coroutine => Stepped(s.(runner := Generator))
    case Callable =>
      if s.task.failure.Some? then (s.(pos := s.pos + 1), s.task.failure)
      else (s.(pos := s.pos + 1, runner := Plain, done := true), None)
  }

  // ---------------------------------------------------------------- the four conditions of a subtask

  predicate Ended(s: RunnerState) {
    s.done && s.pos == Length(s.task)
  }

  predicate Pending(s: RunnerState) {
    && !s.done
    && s.pos < Length(s.task)
    && s.runner == (if s.pos == 0 then NotStarted else Generator)
  }

  predicate Completed(s: RunnerState) {
    Ended(s) && s.task.failure.None? && !s.runner.NotStarted?
  }

  predicate Failed(s: RunnerState) {
    Ended(s) && s.task.failure.Some?
  }

  predicate Cancelled(s: RunnerState) {
    s.done && s.pos == 0
  }

  /** Everything k required at first has completed and is gone from the graph. */
  ghost predicate Settled(g0: Nodes, g: Nodes, st: Snapshot, k: Key) {
    forall r :: Requires(g0, k, r) ==> r in st && Completed(st[r]) && r !in g
  }

  ghost predicate DependentsCancelled(g0: Nodes, st: Snapshot, k: Key) {
    forall d :: Requires(g0, d, k) ==> d in st && Cancelled(st[d])
  }

  ghost predicate Unsettled(g0: Nodes, st: Snapshot, k: Key) {
    exists r :: Requires(g0, k, r) && r in st && (Failed(st[r]) || Cancelled(st[r]))
  }

  ghost predicate PendingInv(g0: Nodes, g: Nodes, st: Snapshot, k: Key)
    requires k in g0 && k in st
  {
    && k in g
    && g[k].satisfy == g0[k].satisfy
    && (forall r :: Requires(g, k, r) <==> Requires(g0, k, r) && r in g)
    && (forall r :: Requires(g0, k, r) ==> r in st && !Failed(st[r]) && !Cancelled(st[r]))
    && (st[k].pos > 0 ==> g[k].require == {})
  }

  ghost predicate KeyInv(g0: Nodes, g: Nodes, st: Snapshot, k: Key)
    requires k in g0 && k in st
  {
    var s := st[k];
    && (Pending(s) || Completed(s) || Failed(s) || Cancelled(s))
    && (Pending(s) ==> PendingInv(g0, g, st, k))
    && (Completed(s) ==> Settled(g0, g, st, k) && (k in g ==> g[k] == Node({}, g0[k].satisfy)))
    && (Failed(s) ==> Settled(g0, g, st, k) && k !in g && DependentsCancelled(g0, st, k))
    && (Cancelled(s) ==>
          // a key that is back in the graph is an empty node, and its runner is done
          (k in g ==> g[k] == EMPTY_NODE) && DependentsCancelled(g0, st, k) && Unsettled(g0, st, k))
  }

  /** What every round of a task group keeps. */
  ghost predicate Inv(g0: Nodes, g: Nodes, st: Snapshot) {
    && st.Keys == g0.Keys
    && g.Keys <= g0.Keys
    && forall k {:trigger KeyInv(g0, g, st, k)} :: k in g0 ==> KeyInv(g0, g, st, k)
  }

  ghost predicate AllFresh(st: Snapshot) {
    forall k :: k in st ==> Pending(st[k]) && st[k].pos == 0
  }

  lemma InvAtStart(g0: Nodes, st: Snapshot)
    requires Mirrored(g0) && st.Keys == g0.Keys && AllFresh(st)
    ensures Inv(g0, g0, st)
  {
  }

  /** A subtask that is ready may run: everything it required has completed. */
  lemma ReadyIsSettled(g0: Nodes, g: Nodes, st: Snapshot, k: Key)
    requires Mirrored(g0) && Inv(g0, g, st)
    requires k in g && g[k].require == {} && Pending(st[k])
    ensures Settled(g0, g, st, k)
  {
    assert KeyInv(g0, g, st, k);
    forall r | Requires(g0, k, r) ensures Completed(st[r]) && r !in g {
      assert Satisfies(g0, r, k);
      assert KeyInv(g0, g, st, r);
      assert !Requires(g, k, r);
    }
  }

  lemma InvAdvance(g0: Nodes, g: Nodes, st: Snapshot, k: Key, s: RunnerState)
    requires Mirrored(g0) && Inv(g0, g, st)
    requires k in g && g[k].require == {} && Pending(st[k])
    requires s.task == st[k].task && s.pos == st[k].pos + 1 && (Pending(s) || Completed(s))
    ensures Inv(g0, g, st[k := s])
  {
    ReadyIsSettled(g0, g, st, k);
    forall j | j in g0 ensures KeyInv(g0, g, st[k := s], j) {
      AdvanceKeyInv(g0, g, st, k, s, j);
    }
  }

  lemma AdvanceKeyInv(g0: Nodes, g: Nodes, st: Snapshot, k: Key, s: RunnerState, j: Key)
    requires Mirrored(g0) && st.Keys == g0.Keys && j in g0 && KeyInv(g0, g, st, j)
    requires k in g && k in g0 && g[k].require == {} && Pending(st[k])
    requires KeyInv(g0, g, st, k) && Settled(g0, g, st, k)
    requires s.task == st[k].task && s.pos == st[k].pos + 1 && (Pending(s) || Completed(s))
    ensures KeyInv(g0, g, st[k := s], j)
  {
  }

  /** Starting the co-routine of a cancelled subtask, for which an empty node came back, changes nothing else. */
  lemma InvGhostStart(g0: Nodes, g: Nodes, st: Snapshot, k: Key, s: RunnerState)
    requires Inv(g0, g, st) && k in g0 && Cancelled(st[k])
    requires s == st[k].(runner := s.runner)
    ensures Inv(g0, g, st[k := s])
  {
    var st' := st[k := s];
    forall j | j in g0 ensures KeyInv(g0, g, st', j) {
      assert KeyInv(g0, g, st, j);
      if Cancelled(st[j]) {
        var r :| Requires(g0, j, r) && r in st && (Failed(st[r]) || Cancelled(st[r]));
        assert Failed(st'[r]) || Cancelled(st'[r]);
      }
    }
  }

  /** Deleting the key of a subtask that is done, which may bring back empty nodes of cancelled ones. */
  lemma InvDelete(g0: Nodes, g: Nodes, st: Snapshot, k: Key)
    requires Mirrored(g0) && Inv(g0, g, st) && k in g && st[k].done
    ensures Inv(g0, Deleted(g, k), st)
    ensures forall j :: j in st && j != k && !Cancelled(st[j]) ==> (j in Deleted(g, k) <==> j in g)
  {
    var h := Deleted(g, k);
    assert KeyInv(g0, g, st, k);
    forall j | j in g[k].satisfy
      ensures j in g0 && Requires(g0, j, k) && ((Pending(st[j]) && j in g) || Cancelled(st[j]))
    {
      assert Satisfies(g0, k, j);
      assert KeyInv(g0, g, st, j);
    }
    forall j | j in g0 ensures KeyInv(g0, h, st, j) {
      assert KeyInv(g0, g, st, j);
      if Pending(st[j]) {
        forall r ensures Requires(h, j, r) <==> Requires(g0, j, r) && r in h {
          assert Requires(g, j, r) <==> Requires(g0, j, r) && r in g;
          if Requires(g0, j, r) {
            assert Satisfies(g0, r, j);
            assert KeyInv(g0, g, st, r);
          }
        }
      }
    }
  }

  // ---------------------------------------------------------------- cancelling

  /** Everything that transitively requires x is done. */
  ghost predicate AllDone(g0: Nodes, st: Snapshot, x: Key) {
    forall y :: y in g0 && Reaches(g0, y, x) ==> y in st && st[y].done
  }

  /** x either still has its edges to what requires it, or all of that is done and its node is empty. */
  ghost predicate Cancellable(g0: Nodes, g: Nodes, st: Snapshot, x: Key)
    requires x in g0 && x in st
  {
    if !st[x].done then x in g && g[x].satisfy == g0[x].satisfy
    else (x in g ==> g[x] == EMPTY_NODE) && AllDone(g0, st, x)
  }

  ghost predicate CancelPre(g0: Nodes, g: Nodes, st: Snapshot, key: Key) {
    && st.Keys == g0.Keys && g.Keys <= g0.Keys && key in g0
    && forall x {:trigger Cancellable(g0, g, st, x)} :: x in g0 && Reaches(g0, x, key) ==> Cancellable(g0, g, st, x)
  }

  /** st with everything that transitively requires key, and key itself, marked as done. */
  ghost function CancelledStates(g0: Nodes, st: Snapshot, key: Key): Snapshot {
    map x | x in st :: if Reaches(g0, x, key) then st[x].(done := true) else st[x]
  }

  /** The requirements of x that wait for key, or are key, include one that has not been done. */
  ghost predicate LookedUp(g0: Nodes, st: Snapshot, key: Key, x: Key) {
    exists r :: Requires(g0, x, r) && Reaches(g0, r, key) && r in st && !st[r].done
  }

  /** Keys that wait for key are gone or empty, the others untouched. */
  ghost predicate Hollowed(g0: Nodes, g: Nodes, g': Nodes, key: Key) {
    && g'.Keys <= g0.Keys && key !in g'
    && (forall x :: x in g' && Reaches(g0, x, key) ==> g'[x] == EMPTY_NODE)
    && (forall x :: x in g0 && !Reaches(g0, x, key) ==> (x in g' <==> x in g) && Get(g', x) == Get(g, x))
  }

  /**
    The graph after cancelling key. What waits for key and had been cancelled
    before is back, as an empty node, if and only if some requirement of it is
    cancelled now: the deletion of that one looks it up again. What is
    cancelled now always comes back.
  */
  ghost predicate CancelPost(g0: Nodes, g: Nodes, st: Snapshot, g': Nodes, key: Key) {
    && Hollowed(g0, g, g', key)
    && forall x :: x in g0 && x != key && Reaches(g0, x, key) ==> (x in g' <==> x in g || LookedUp(g0, st, key, x))
  }

  /** A requirement of x, other than key, was done between st and st'. */
  ghost predicate NewlyDone(g0: Nodes, st: Snapshot, st': Snapshot, key: Key, x: Key) {
    exists r :: Requires(g0, x, r) && r != key && r in st && r in st' && !st[r].done && st'[r].done
  }

  /** x while key is being cancelled: untouched unless it waits for key, and then still cancellable. */
  ghost predicate CancellingAt(g0: Nodes, g: Nodes, st: Snapshot, g': Nodes, st': Snapshot, key: Key, x: Key)
    requires x in g0 && x in st && x in st'
  {
    if !Reaches(g0, x, key) then st'[x] == st[x] && (x in g' <==> x in g) && Get(g', x) == Get(g, x)
    else if x == key then st'[x] == st[x].(done := true) && x in g' && g'[x] == Get(g, x)
    else
      && Cancellable(g0, g', st', x) && (st'[x] == st[x] || st'[x] == st[x].(done := true))
      && (x !in Get(g, key).satisfy ==> (x in g' <==> x in g || NewlyDone(g0, st, st', key, x)))
  }

  /** While key is being cancelled, after the recursive calls for the dependents in visited. */
  ghost predicate Cancelling(g0: Nodes, g: Nodes, st: Snapshot, g': Nodes, st': Snapshot, key: Key, visited: set<Key>) {
    && st.Keys == g0.Keys && st'.Keys == g0.Keys && g'.Keys <= g0.Keys
    && (forall x {:trigger CancellingAt(g0, g, st, g', st', key, x)} :: x in g0 ==>
          CancellingAt(g0, g, st, g', st', key, x))
    && (forall x :: x in visited ==> x in g0 && st'[x].done)
  }

  lemma CancelBegins(g0: Nodes, g: Nodes, st: Snapshot, key: Key)
    requires Mirrored(g0) && CancelPre(g0, g, st, key)
    ensures Cancelling(g0, g, st, Touch(g, key), st[key := st[key].(done := true)], key, {})
    ensures forall d :: d in Get(g, key).satisfy ==> Requires(g0, d, key)
  {
    var st' := st[key := st[key].(done := true)];
    ReachesSelf(g0, key);
    assert Cancellable(g0, g, st, key);
    forall d | d in Get(g, key).satisfy ensures Requires(g0, d, key) {
      assert Satisfies(g0, key, d);
    }
    forall x | x in g0 ensures CancellingAt(g0, g, st, Touch(g, key), st', key, x) {
      if x != key && Reaches(g0, x, key) {
        assert Cancellable(g0, g, st, x);
      }
    }
  }

  lemma EnterDependent(g0: Nodes, g: Nodes, st: Snapshot, g': Nodes, st': Snapshot, key: Key, visited: set<Key>, d: Key)
    requires Mirrored(g0) && !Cyclic(g0) && Cancelling(g0, g, st, g', st', key, visited)
    requires Requires(g0, d, key)
    ensures CancelPre(g0, g', st', d) && !Reaches(g0, key, d)
  {
    NoWayBack(g0, d, key);
    forall x | x in g0 && Reaches(g0, x, d) ensures Cancellable(g0, g', st', x) {
      ReachesAfter(g0, x, d, key);
      assert CancellingAt(g0, g, st, g', st', key, x);
    }
  }

  /** What a recursive call for d adds to what was done since st. */
  lemma NewlyDoneGrows(g0: Nodes, st: Snapshot, st': Snapshot, key: Key, d: Key, x: Key)
    requires st.Keys == g0.Keys == st'.Keys && !Reaches(g0, key, d)
    requires forall r :: r in st ==> st'[r] == st[r] || st'[r] == st[r].(done := true)
    ensures NewlyDone(g0, st, CancelledStates(g0, st', d), key, x)
            <==> NewlyDone(g0, st, st', key, x) || LookedUp(g0, st', d, x)
  {
    var st'' := CancelledStates(g0, st', d);
    if NewlyDone(g0, st, st'', key, x) {
      var r :| Requires(g0, x, r) && r != key && r in st && !st[r].done && st''[r].done;
      assert st'[r].done || Reaches(g0, r, d);
    }
    if LookedUp(g0, st', d, x) {
      var r :| Requires(g0, x, r) && Reaches(g0, r, d) && r in st' && !st'[r].done;
      assert st''[r].done && !st[r].done;
    }
  }

  lemma LeaveDependent(g0: Nodes, g: Nodes, st: Snapshot, g': Nodes, st': Snapshot, g'': Nodes,
                       key: Key, visited: set<Key>, d: Key)
    requires Mirrored(g0) && !Cyclic(g0) && Cancelling(g0, g, st, g', st', key, visited)
    requires Requires(g0, d, key) && d in Get(g, key).satisfy && CancelPost(g0, g', st', g'', d)
    ensures Cancelling(g0, g, st, g'', CancelledStates(g0, st', d), key, visited + {d})
  {
    var st'' := CancelledStates(g0, st', d);
    ReachesSelf(g0, d);
    forall r | r in st ensures st'[r] == st[r] || st'[r] == st[r].(done := true) {
      assert CancellingAt(g0, g, st, g', st', key, r);
    }
    forall x | x in g0 ensures CancellingAt(g0, g, st, g'', st'', key, x) {
      LeaveDependentAt(g0, g, st, g', st', g'', key, d, x);
    }
  }

  lemma LeaveDependentAt(g0: Nodes, g: Nodes, st: Snapshot, g': Nodes, st': Snapshot, g'': Nodes,
                         key: Key, d: Key, x: Key)
    requires Mirrored(g0) && !Cyclic(g0) && st.Keys == g0.Keys == st'.Keys && x in g0
    requires forall r :: r in st ==> st'[r] == st[r] || st'[r] == st[r].(done := true)
    requires CancellingAt(g0, g, st, g', st', key, x)
    requires Requires(g0, d, key) && d in Get(g, key).satisfy && CancelPost(g0, g', st', g'', d)
    ensures CancellingAt(g0, g, st, g'', CancelledStates(g0, st', d), key, x)
  {
    var st'' := CancelledStates(g0, st', d);
    NoWayBack(g0, d, key);
    if Reaches(g0, x, d) {
      ReachesAfter(g0, x, d, key);
    }
    if x != key && Reaches(g0, x, key) {
      assert Cancellable(g0, g', st', x);
      NewlyDoneGrows(g0, st, st', key, d, x);
      if LookedUp(g0, st', d, x) {
        var r :| Requires(g0, x, r) && Reaches(g0, r, d) && r in st' && !st'[r].done;
        ReachesBefore(g0, x, r, d);
      }
      forall y | y in g0 && Reaches(g0, y, x) && st''[x].done ensures st''[y].done {
        if Reaches(g0, x, d) {
          ReachesTransitive(g0, y, x, d);
        }
      }
    }
  }

  lemma CancelEnds(g0: Nodes, g: Nodes, st: Snapshot, g': Nodes, st': Snapshot, key: Key, visited: set<Key>)
    requires Mirrored(g0) && !Cyclic(g0) && CancelPre(g0, g, st, key)
    requires Cancelling(g0, g, st, g', st', key, visited) && visited == Get(g, key).satisfy
    ensures CancelPost(g0, g, st, Deleted(g', key), key)
    ensures st' == CancelledStates(g0, st, key)
  {
    ReachesSelf(g0, key);
    assert Cancellable(g0, g, st, key);
    assert CancellingAt(g0, g, st, g', st', key, key);
    forall x | x in g0
      ensures CancellingAt(g0, g, st, g', st', key, x)
      ensures Reaches(g0, x, key) ==> st'[x] == st[x].(done := true)
    {
      if x != key && Reaches(g0, x, key) && !st[key].done {
        var r := ReachesLast(g0, x, key);
        assert Satisfies(g0, key, r);
        NoWayBack(g0, r, key);
        ReachesBefore(g0, r, key, key);
        assert CancellingAt(g0, g, st, g', st', key, r);
      }
    }
    forall d | d in visited ensures d in g0 && Reaches(g0, d, key) {
      assert Satisfies(g0, key, d);
      ReachesBefore(g0, d, key, key);
    }
    var h := Deleted(g', key);
    forall x | x in h && Reaches(g0, x, key) ensures h[x] == EMPTY_NODE {
      assert x in g0 && x != key;
    }
  }

  /** In a state the invariant allows, whatever waits for k transitively was never started. */
  lemma {:induction false} WaitersNotStarted(g0: Nodes, g: Nodes, st: Snapshot, k: Key, p: seq<Key>)
    requires Mirrored(g0) && Inv(g0, g, st) && k in g0
    requires |p| > 1 && WalkBetween(g0, p, p[0], k)
    requires !Completed(st[k])
    ensures p[0] in g0 && (Cancelled(st[p[0]]) || (Pending(st[p[0]]) && st[p[0]].pos == 0))
    decreases |p|
  {
    assert Requires(g0, p[0], p[1]);
    assert Satisfies(g0, p[1], p[0]);
    assert KeyInv(g0, g, st, p[0]) && KeyInv(g0, g, st, p[1]);
    if |p| > 2 {
      forall i | 0 <= i < |p[1..]| - 1 ensures Requires(g0, p[1..][i], p[1..][i + 1]) {
        assert Requires(g0, p[i + 1], p[i + 2]);
      }
      WaitersNotStarted(g0, g, st, k, p[1..]);
    }
    assert !Completed(st[p[1]]);
    assert Requires(g, p[0], p[1]) <==> p[0] in g && p[1] in g[p[0]].require;
  }

  lemma WaiterNotStarted(g0: Nodes, g: Nodes, st: Snapshot, k: Key, x: Key)
    requires Mirrored(g0) && Inv(g0, g, st) && k in g0 && x != k && Reaches(g0, x, k)
    requires !Completed(st[k])
    ensures x in g0 && (Cancelled(st[x]) || (Pending(st[x]) && st[x].pos == 0))
  {
    var p :| WalkBetween(g0, p, x, k);
    WaitersNotStarted(g0, g, st, k, p);
  }

  /** Whatever waits for a cancelled subtask is cancelled. */
  lemma {:induction false} WaitersCancelled(g0: Nodes, g: Nodes, st: Snapshot, k: Key, p: seq<Key>)
    requires Mirrored(g0) && Inv(g0, g, st) && k in g0
    requires p != [] && WalkBetween(g0, p, p[0], k)
    requires Cancelled(st[k]) || (Failed(st[k]) && |p| > 1)
    ensures p[0] in g0 && Cancelled(st[p[0]])
    decreases |p|
  {
    if |p| > 1 {
      assert Requires(g0, p[0], p[1]);
      assert Satisfies(g0, p[1], p[0]);
      forall i | 0 <= i < |p[1..]| - 1 ensures Requires(g0, p[1..][i], p[1..][i + 1]) {
        assert Requires(g0, p[i + 1], p[i + 2]);
      }
      if |p| > 2 {
        WaitersCancelled(g0, g, st, k, p[1..]);
      }
      assert KeyInv(g0, g, st, p[1]);
    }
  }

  /** A state the invariant allows, but for k, whose body has just raised. */
  lemma CancelPreHolds(g0: Nodes, g: Nodes, st: Snapshot, k: Key, s: RunnerState)
    requires Mirrored(g0) && Inv(g0, g, st) && k in g && Pending(st[k])
    requires !s.done
    ensures CancelPre(g0, g, st[k := s], k)
  {
    var st' := st[k := s];
    forall x | x in g0 && Reaches(g0, x, k) ensures Cancellable(g0, g, st', x) {
      assert KeyInv(g0, g, st, x) && KeyInv(g0, g, st, k);
      if x != k {
        WaiterNotStarted(g0, g, st, k, x);
        if Cancelled(st[x]) {
          forall y | y in g0 && Reaches(g0, y, x) ensures st'[y].done {
            var p :| WalkBetween(g0, p, y, x);
            WaitersCancelled(g0, g, st, x, p);
          }
        }
      }
    }
  }

  /** When the body of k raises and k is cancelled recursively, the invariant holds again. */
  lemma InvFail(g0: Nodes, g: Nodes, st: Snapshot, k: Key, s: RunnerState, g': Nodes)
    requires Mirrored(g0) && !Cyclic(g0) && Inv(g0, g, st)
    requires k in g && g[k].require == {} && Pending(st[k])
    requires s.task == st[k].task && s.pos == Length(s.task) && s.task.failure.Some?
    requires Hollowed(g0, g, g', k)
    ensures Inv(g0, g', CancelledStates(g0, st[k := s], k))
    ensures Failed(CancelledStates(g0, st[k := s], k)[k])
    ensures forall x :: x in g0 && x != k ==> (Failed(CancelledStates(g0, st[k := s], k)[x]) <==> Failed(st[x]))
    ensures forall x :: x in g0 ==> (Completed(CancelledStates(g0, st[k := s], k)[x]) <==> Completed(st[x]))
  {
    var st' := CancelledStates(g0, st[k := s], k);
    ReadyIsSettled(g0, g, st, k);
    FailedStates(g0, g, st, k, s);
    forall j | j in g0 ensures KeyInv(g0, g', st', j) {
      FailedKeyInv(g0, g, st, k, g', st', j);
    }
  }

  lemma FailedStates(g0: Nodes, g: Nodes, st: Snapshot, k: Key, s: RunnerState)
    requires Mirrored(g0) && Inv(g0, g, st) && k in g0 && Pending(st[k])
    requires s.task == st[k].task && s.pos == Length(s.task) && s.task.failure.Some?
    ensures Failed(CancelledStates(g0, st[k := s], k)[k])
    ensures forall x :: x in g0 && x != k ==>
      if Reaches(g0, x, k) then Cancelled(CancelledStates(g0, st[k := s], k)[x]) && !Failed(st[x]) && !Completed(st[x])
      else CancelledStates(g0, st[k := s], k)[x] == st[x]
  {
    ReachesSelf(g0, k);
    forall x | x in g0 && x != k && Reaches(g0, x, k)
      ensures Cancelled(st[x].(done := true)) && !Failed(st[x]) && !Completed(st[x])
    {
      WaiterNotStarted(g0, g, st, k, x);
    }
  }

  lemma FailedKeyInv(g0: Nodes, g: Nodes, st: Snapshot, k: Key, g': Nodes, st': Snapshot, j: Key)
    requires Mirrored(g0) && !Cyclic(g0) && Inv(g0, g, st) && st'.Keys == g0.Keys
    requires k in g && Pending(st[k]) && Settled(g0, g, st, k)
    requires Failed(st'[k])
    requires forall x :: x in g0 && x != k ==> if Reaches(g0, x, k) then Cancelled(st'[x]) else st'[x] == st[x]
    requires Hollowed(g0, g, g', k) && j in g0
    ensures KeyInv(g0, g', st', j)
  {
    assert KeyInv(g0, g, st, j);
    forall d | Requires(g0, d, j) && Reaches(g0, j, k) ensures Cancelled(st'[d]) {
      ReachesBefore(g0, d, j, k);
      if d == k {
        NoWayBack(g0, k, j);
      }
    }
    if j == k {
      ReachesSelf(g0, k);
      SettledStays(g0, g, st, k, g', st', k);
    } else if Reaches(g0, j, k) {
      var r := ReachesFirst(g0, j, k);
      assert Satisfies(g0, r, j);
      assert Unsettled(g0, st', j);
    } else {
      assert st'[j] == st[j] && Get(g', j) == Get(g, j) && (j in g' <==> j in g);
      forall r | Requires(g0, j, r) ensures !Reaches(g0, r, k) && r != k {
        ReachesSelf(g0, k);
        if Reaches(g0, r, k) {
          ReachesBefore(g0, j, r, k);
        }
      }
      if Pending(st[j]) {
        forall r ensures Requires(g', j, r) <==> Requires(g0, j, r) && r in g' {
          assert Requires(g, j, r) <==> Requires(g0, j, r) && r in g;
          assert Requires(g', j, r) <==> Requires(g, j, r);
          if Requires(g0, j, r) {
            assert Satisfies(g0, r, j);
          }
        }
        forall r | Requires(g0, j, r) ensures !Failed(st'[r]) && !Cancelled(st'[r]) {
          assert Satisfies(g0, r, j);
          assert st'[r] == st[r];
        }
      } else if Cancelled(st[j]) {
        var r :| Requires(g0, j, r) && r in st && (Failed(st[r]) || Cancelled(st[r]));
        assert st'[r] == st[r];
        assert Unsettled(g0, st', j);
        CancelledStays(g0, st, k, st', j);
      } else {
        SettledStays(g0, g, st, k, g', st', j);
        CancelledStays(g0, st, k, st', j);
      }
    }
  }

  lemma SettledStays(g0: Nodes, g: Nodes, st: Snapshot, k: Key, g': Nodes, st': Snapshot, j: Key)
    requires Mirrored(g0) && st.Keys == g0.Keys && st'.Keys == g0.Keys && k in g0 && !Cyclic(g0)
    requires Settled(g0, g, st, j) && (j == k || !Reaches(g0, j, k))
    requires forall x :: x in g0 && x != k ==> if Reaches(g0, x, k) then Cancelled(st'[x]) else st'[x] == st[x]
    requires Hollowed(g0, g, g', k)
    ensures Settled(g0, g', st', j)
  {
    forall r | Requires(g0, j, r) ensures r in st' && Completed(st'[r]) && r !in g' {
      assert Satisfies(g0, r, j);
      ReachesSelf(g0, k);
      if Reaches(g0, r, k) {
        if j == k {
          NoWayBack(g0, k, r);
        } else {
          ReachesBefore(g0, j, r, k);
        }
      }
    }
  }

  lemma CancelledStays(g0: Nodes, st: Snapshot, k: Key, st': Snapshot, j: Key)
    requires Mirrored(g0) && st.Keys == g0.Keys && st'.Keys == g0.Keys
    requires forall x :: x in g0 && x != k ==> if Reaches(g0, x, k) then Cancelled(st'[x]) else st'[x] == st[x]
    requires k in g0 && !Cancelled(st[k])
    ensures DependentsCancelled(g0, st, j) ==> DependentsCancelled(g0, st', j)
  {
  }

  /** Why starting the runner of a cancelled subtask is harmless for co-routines, and only for them. */
  lemma GhostStartAdvancesOnlyCallables(s: RunnerState)
    requires Cancelled(s) && s.runner.NotStarted?
    ensures Started(s).0.pos == s.pos <==> s.task.kind.Coroutine?
    ensures s.task.kind.Coroutine? ==> Started(s) == (s.(runner := Generator), None)
  {
  }
}
