/** The distributed stack lock (heat/engine/stack_lock.py and its three queries in heat/db/sqlalchemy/api.py). */
module StackLocks {
  import opened Wrappers

  type Engine = nat
  type Stack = nat
  type RequestId = nat

  // ---- The lock table: each query is one transaction ----

  /** What stack_lock_steal returns: None, True, or the engine that the row names. */
  datatype StealResult = Stolen | WasReleased | OwnedBy(engine: Engine)

  class LockTable {
    var rows: map<Stack, Engine>

    constructor ()
      ensures rows == map[]
    {
      rows := map[];
    }

    /** stack_lock_create: the owner if there is a row already, else None, after adding one. */
    method Create(stack: Stack, engine: Engine) returns (owner: Option<Engine>)
      modifies this
      ensures owner == if stack in old(rows) then Some(old(rows)[stack]) else None
      ensures rows == if stack in old(rows) then old(rows) else old(rows)[stack := engine]
    {
      if stack in rows {
        return Some(rows[stack]);
      }
      rows := rows[stack := engine];
      owner := None;
    }

    /** stack_lock_steal: replaces the owner only if it is the one expected. */
    method Steal(stack: Stack, oldEngine: Engine, newEngine: Engine) returns (result: StealResult)
      modifies this
      ensures result == if stack !in old(rows) then WasReleased
                        else if old(rows)[stack] == oldEngine then Stolen
                        else OwnedBy(old(rows)[stack])
      ensures rows == if result == Stolen then old(rows)[stack := newEngine] else old(rows)
    {
      var lock := if stack in rows then Some(rows[stack]) else None;
      var affected := lock == Some(oldEngine);
      if affected {
        rows := rows[stack := newEngine];
      }
      if !affected {
        return if lock.Some? then OwnedBy(lock.value) else WasReleased;
      }
      result := Stolen;
    }

    /** stack_lock_release; true if there was nothing to release. */
    method Release(stack: Stack, engine: Engine) returns (missing: bool)
      modifies this
      ensures missing <==> !(stack in old(rows) && old(rows)[stack] == engine)
      ensures rows == if missing then old(rows) else old(rows) - {stack}
    {
      missing := !(stack in rows && rows[stack] == engine);
      if !missing {
        rows := rows - {stack};
      }
    }
  }

  // ---- Every interleaving of requests, on any number of engines ----

  /** How far a request for the lock has got; retry says whether a second round is left. */
  datatype Phase =
    | Creating(retry: bool)
    | Trying // try_acquire
    | Checking(retry: bool, owner: Engine)
    | Stealing(retry: bool, owner: Engine)
    | Held
    | Refused
    | Released

  datatype Request = Request(stack: Stack, engine: Engine, phase: Phase)

  datatype System = System(rows: map<Stack, Engine>, requests: map<RequestId, Request>, dead: set<Engine>)

  datatype Action =
    | Arrive(request: RequestId, stack: Stack, engine: Engine, tryOnly: bool)
    | Create(request: RequestId)
    | Check(request: RequestId, alive: bool)
    | Steal(request: RequestId)
    | Release(request: RequestId)
    | Crash(engine: Engine)

  predicate Live(s: System, i: RequestId) {
    i in s.requests && s.requests[i].engine !in s.dead
  }

  /** What may happen next. An engine that crashed does nothing more, and does not answer; a live one does. */
  predicate Enabled(s: System, a: Action) {
    match a
    case Arrive(i, _, e, _) => i !in s.requests && e !in s.dead
    case Create(i) => Live(s, i) && (s.requests[i].phase.Creating? || s.requests[i].phase.Trying?)
    case Check(i, alive) =>
      Live(s, i) && s.requests[i].phase.Checking? && (alive <==> s.requests[i].phase.owner !in s.dead)
    case Steal(i) => Live(s, i) && s.requests[i].phase.Stealing?
    case Release(i) => Live(s, i) && s.requests[i].phase.Held?
    case Crash(_) => true
  }

  function At(s: System, i: RequestId, phase: Phase): System
    requires i in s.requests
  {
    s.(requests := s.requests[i := s.requests[i].(phase := phase)])
  }

  function Next(s: System, a: Action): System
    requires Enabled(s, a)
  {
    match a
    case Arrive(i, st, e, tryOnly) =>
      s.(requests := s.requests[i := Request(st, e, if tryOnly then Trying else Creating(true))])
    case Create(i) =>
      var r := s.requests[i];
      if r.stack !in s.rows then At(s.(rows := s.rows[r.stack := r.engine]), i, Held)
      else if r.phase.Trying? || s.rows[r.stack] == r.engine then At(s, i, Refused)
      else At(s, i, Checking(r.phase.retry, s.rows[r.stack]))
    case Check(i, alive) =>
      var p := s.requests[i].phase;
      At(s, i, if alive then Refused else Stealing(p.retry, p.owner))
    case Steal(i) =>
      var r := s.requests[i];
      if r.stack !in s.rows then At(s, i, if r.phase.retry then Creating(false) else Refused)
      else if s.rows[r.stack] == r.phase.owner then At(s.(rows := s.rows[r.stack := r.engine]), i, Held)
      else At(s, i, Refused)
    case Release(i) =>
      var r := s.requests[i];
      var gone := if r.stack in s.rows && s.rows[r.stack] == r.engine then s.rows - {r.stack} else s.rows;
      At(s.(rows := gone), i, Released)
    case Crash(e) => s.(dead := s.dead + {e})
  }

  ghost predicate Holds(s: System, i: RequestId) {
    Live(s, i) && s.requests[i].phase.Held?
  }

  /** What holds of every request in every reachable state. */
  ghost predicate RequestInv(s: System, i: RequestId) {
    && (Holds(s, i) ==> s.requests[i].stack in s.rows && s.rows[s.requests[i].stack] == s.requests[i].engine)
    && (i in s.requests && s.requests[i].phase.Stealing? ==> s.requests[i].phase.owner in s.dead)
  }

  ghost predicate Exclusive(s: System, i: RequestId, j: RequestId) {
    Holds(s, i) && Holds(s, j) && s.requests[i].stack == s.requests[j].stack ==> i == j
  }

  /** A row that names a live engine was put there by a request that still holds the lock. */
  ghost predicate RowInv(s: System, stack: Stack) {
    stack in s.rows ==> s.rows[stack] in s.dead
                        || exists i :: Holds(s, i) && s.requests[i].stack == stack
                                         && s.requests[i].engine == s.rows[stack]
  }

  ghost predicate Inv(s: System) {
    && (forall i {:trigger RequestInv(s, i)} :: RequestInv(s, i))
    && (forall i, j {:trigger Exclusive(s, i, j)} :: Exclusive(s, i, j))
    && forall stack {:trigger RowInv(s, stack)} :: RowInv(s, stack)
  }

  lemma NextKeepsRequest(s: System, a: Action, i: RequestId)
    requires Inv(s) && Enabled(s, a)
    ensures RequestInv(Next(s, a), i)
  {
    assert RequestInv(s, i);
    if a.Create? || a.Steal? || a.Release? {
      assert RequestInv(s, a.request) && Exclusive(s, i, a.request);
    }
  }

  lemma NextKeepsExclusion(s: System, a: Action, i: RequestId, j: RequestId)
    requires Inv(s) && Enabled(s, a)
    ensures Exclusive(Next(s, a), i, j)
  {
    assert Exclusive(s, i, j) && RequestInv(s, i) && RequestInv(s, j);
    if a.Steal? {
      assert RequestInv(s, a.request);
    }
  }

  lemma NextKeepsRow(s: System, a: Action, stack: Stack)
    requires Inv(s) && Enabled(s, a)
    ensures RowInv(Next(s, a), stack)
  {
    assert RowInv(s, stack);
    var t := Next(s, a);
    if stack in t.rows && t.rows[stack] !in t.dead {
      if (a.Create? || a.Steal?) && t.requests[a.request].stack == stack && t.requests[a.request].phase.Held? {
        assert Holds(t, a.request);
      } else {
        var i :| Holds(s, i) && s.requests[i].stack == stack && s.requests[i].engine == s.rows[stack];
        if a.Release? {
          assert RequestInv(s, a.request) && Exclusive(s, i, a.request);
        }
        assert Holds(t, i);
      }
    }
  }

  lemma NextKeepsInv(s: System, a: Action)
    requires Inv(s) && Enabled(s, a)
    ensures Inv(Next(s, a))
  {
    forall i ensures RequestInv(Next(s, a), i) { NextKeepsRequest(s, a, i); }
    forall i, j ensures Exclusive(Next(s, a), i, j) { NextKeepsExclusion(s, a, i, j); }
    forall stack ensures RowInv(Next(s, a), stack) { NextKeepsRow(s, a, stack); }
  }

  // ---- Whole runs ----

  ghost predicate Possible(s: System, actions: seq<Action>)
    decreases |actions|
  {
    actions == [] || (Enabled(s, actions[0]) && Possible(Next(s, actions[0]), actions[1..]))
  }

  ghost function Run(s: System, actions: seq<Action>): System
    requires Possible(s, actions)
    decreases |actions|
  {
    if actions == [] then s else Run(Next(s, actions[0]), actions[1..])
  }

  /** Nobody has asked yet; rows may be left from engines that are dead. */
  ghost predicate Start(s: System) {
    s.requests == map[] && forall stack :: stack in s.rows ==> s.rows[stack] in s.dead
  }

  lemma {:induction false} RunKeepsInv(s: System, actions: seq<Action>)
    requires Inv(s) && Possible(s, actions)
    ensures Inv(Run(s, actions))
    decreases |actions|
  {
    if actions != [] {
      NextKeepsInv(s, actions[0]);
      RunKeepsInv(Next(s, actions[0]), actions[1..]);
    }
  }

  /** Whatever the interleaving, two live requests never hold the lock of one stack; and a live owner is a holder. */
  lemma MutualExclusion(s: System, actions: seq<Action>, i: RequestId, j: RequestId, stack: Stack)
    requires Start(s) && Possible(s, actions)
    ensures var t := Run(s, actions);
      && (Holds(t, i) && Holds(t, j) && t.requests[i].stack == t.requests[j].stack ==> i == j)
      && (Holds(t, i) ==> t.requests[i].stack in t.rows && t.rows[t.requests[i].stack] == t.requests[i].engine)
      && (stack in t.rows && t.rows[stack] !in t.dead ==> exists k :: Holds(t, k) && t.requests[k].stack == stack)
  {
    assert Inv(s);
    RunKeepsInv(s, actions);
    var t := Run(s, actions);
    assert Exclusive(t, i, j) && RequestInv(t, i) && RowInv(t, stack);
  }

  predicate ActsFor(a: Action, i: RequestId) {
    match a
    case Arrive(_, _, _, _) => false
    case Create(j) => i == j
    case Check(j, _) => i == j
    case Steal(j) => i == j
    case Release(j) => i == j
    case Crash(_) => false
  }

  /** What the others do leaves a request as it is; a crash is not undone. */
  lemma NextForOthers(s: System, a: Action, i: RequestId)
    requires Enabled(s, a) && i in s.requests
    ensures i in Next(s, a).requests && s.dead <= Next(s, a).dead
    ensures !ActsFor(a, i) ==> Next(s, a).requests[i] == s.requests[i]
  {
  }

  /** The steps that a request has left, at most. */
  ghost function StepsLeft(p: Phase): nat {
    match p
    case Creating(retry) => if retry then 7 else 4
    case Checking(retry, _) => if retry then 6 else 3
    case Stealing(retry, _) => if retry then 5 else 2
    case Trying => 2
    case Held => 1
    case Refused => 0
    case Released => 0
  }

  /** The rounds that a request may still begin. */
  ghost function RoundsLeft(p: Phase): nat {
    match p
    case Creating(retry) => if retry then 2 else 1
    case Checking(retry, _) => if retry then 1 else 0
    case Stealing(retry, _) => if retry then 1 else 0
    case Trying => 1
    case _ => 0
  }

  ghost function Steps(actions: seq<Action>, i: RequestId): nat {
    if actions == [] then 0 else (if ActsFor(actions[0], i) then 1 else 0) + Steps(actions[1..], i)
  }

  ghost function Rounds(actions: seq<Action>, i: RequestId): nat {
    if actions == [] then 0 else (if actions[0] == Create(i) then 1 else 0) + Rounds(actions[1..], i)
  }

  /** Each step of a request brings it closer to its end, and uses up the rounds that it begins. */
  lemma StepUsesUp(s: System, a: Action, i: RequestId)
    requires Enabled(s, a) && i in s.requests && ActsFor(a, i)
    ensures StepsLeft(Next(s, a).requests[i].phase) < StepsLeft(s.requests[i].phase)
    ensures RoundsLeft(Next(s, a).requests[i].phase) + (if a == Create(i) then 1 else 0)
            <= RoundsLeft(s.requests[i].phase)
    ensures !s.requests[i].phase.Refused? && !s.requests[i].phase.Released?
    ensures s.requests[i].phase.Held? ==> Next(s, a).requests[i].phase.Released?
  {
  }

  /** A request makes at most two rounds, and seven steps with its release, however the others interfere. */
  lemma {:induction false} AtMostTwoRounds(s: System, actions: seq<Action>, i: RequestId)
    requires Possible(s, actions) && i in s.requests
    ensures i in Run(s, actions).requests
    ensures Rounds(actions, i) + RoundsLeft(Run(s, actions).requests[i].phase) <= RoundsLeft(s.requests[i].phase)
    ensures Steps(actions, i) + StepsLeft(Run(s, actions).requests[i].phase) <= StepsLeft(s.requests[i].phase)
    decreases |actions|
  {
    if actions != [] {
      NextForOthers(s, actions[0], i);
      if ActsFor(actions[0], i) {
        StepUsesUp(s, actions[0], i);
      }
      AtMostTwoRounds(Next(s, actions[0]), actions[1..], i);
    }
  }

  /** A live request that is not finished is never blocked: there is a step that it can make. */
  lemma NeverBlocked(s: System, i: RequestId)
    requires Live(s, i) && !s.requests[i].phase.Refused? && !s.requests[i].phase.Released?
    ensures exists a :: Enabled(s, a) && ActsFor(a, i)
  {
    match s.requests[i].phase
    case Creating(_) => assert Enabled(s, Create(i)) && ActsFor(Create(i), i);
    case Trying => assert Enabled(s, Create(i)) && ActsFor(Create(i), i);
    case Checking(_, owner) => assert Enabled(s, Check(i, owner !in s.dead)) && ActsFor(Check(i, owner !in s.dead), i);
    case Stealing(_, _) => assert Enabled(s, Steal(i)) && ActsFor(Steal(i), i);
    case Held => assert Enabled(s, Release(i)) && ActsFor(Release(i), i);
  }

  /** Rows change only when a request comes to hold the lock, and then to its engine, or when a holder releases it. */
  lemma OnlyHoldersWrite(s: System, a: Action, stack: Stack)
    requires Inv(s) && Enabled(s, a)
    ensures var t := Next(s, a);
      (if stack in s.rows then stack !in t.rows || t.rows[stack] != s.rows[stack] else stack in t.rows) ==>
        && !a.Arrive? && !a.Crash? && s.requests[a.request].stack == stack
        && (Holds(t, a.request) ==> stack in t.rows && t.rows[stack] == t.requests[a.request].engine)
        && (!Holds(t, a.request) ==> Holds(s, a.request) && a.Release? && stack !in t.rows)
  {
  }

  lemma {:induction false} HeldStays(s: System, actions: seq<Action>, i: RequestId)
    requires Possible(s, actions) && i in s.requests
    requires s.requests[i].phase.Held? || s.requests[i].phase.Released?
    ensures i in Run(s, actions).requests
    ensures Run(s, actions).requests[i].phase.Held? || Run(s, actions).requests[i].phase.Released?
    decreases |actions|
  {
    if actions != [] {
      NextForOthers(s, actions[0], i);
      if ActsFor(actions[0], i) {
        StepUsesUp(s, actions[0], i);
      }
      HeldStays(Next(s, actions[0]), actions[1..], i);
    }
  }

  /** A request that ends refused did not hold the lock at any point k of the run: what raises was never installed. */
  lemma {:induction false} RefusedNeverHeld(s: System, actions: seq<Action>, k: nat, i: RequestId)
    requires Possible(s, actions) && k <= |actions|
    requires i in Run(s, actions).requests && Run(s, actions).requests[i].phase.Refused?
    ensures Possible(s, actions[..k])
    ensures i in Run(s, actions[..k]).requests ==> !Run(s, actions[..k]).requests[i].phase.Held?
    decreases k
  {
    if k == 0 {
      if i in s.requests && s.requests[i].phase.Held? {
        HeldStays(s, actions, i);
      }
    } else {
      RefusedNeverHeld(Next(s, actions[0]), actions[1..], k - 1, i);
      assert actions[..k][1..] == actions[1..][..k - 1];
    }
  }

  /**
    Left alone, a request gets the lock if and only if there is no row, or the row
    names another engine, which is dead.
  */
  lemma AloneAcquires(s: System, i: RequestId, alive: bool)
    requires Live(s, i) && s.requests[i].phase == Creating(true)
    requires var stack := s.requests[i].stack; stack in s.rows ==> (alive <==> s.rows[stack] !in s.dead)
    ensures var stack := s.requests[i].stack;
      var free, own := stack !in s.rows, stack in s.rows && s.rows[stack] == s.requests[i].engine;
      var actions := if free || own then [Create(i)]
                     else if alive then [Create(i), Check(i, alive)]
                     else [Create(i), Check(i, alive), Steal(i)];
      && Possible(s, actions)
      && (if free || (!own && s.rows[stack] in s.dead)
          then Run(s, actions) == At(s.(rows := s.rows[stack := s.requests[i].engine]), i, Held)
          else Run(s, actions) == At(s, i, Refused))
  {
    var stack := s.requests[i].stack;
    var one := Next(s, Create(i));
    OneAction(s, Create(i));
    if stack in s.rows && s.rows[stack] != s.requests[i].engine {
      var two := Next(one, Check(i, alive));
      OneAction(one, Check(i, alive));
      assert [Create(i), Check(i, alive)][1..] == [Check(i, alive)];
      if alive {
        assert two.requests == s.requests[i := s.requests[i].(phase := Refused)];
      } else {
        OneAction(two, Steal(i));
        assert [Create(i), Check(i, alive), Steal(i)][1..] == [Check(i, alive), Steal(i)];
        assert [Check(i, alive), Steal(i)][1..] == [Steal(i)];
        assert Next(two, Steal(i)).requests == s.requests[i := s.requests[i].(phase := Held)];
      }
    }
  }

  /** A lock that was released while it was being stolen is asked for once more, and taken if it is still free. */
  lemma ReleasedIsTaken(s: System, i: RequestId, owner: Engine)
    requires Live(s, i) && s.requests[i].phase == Stealing(true, owner) && s.requests[i].stack !in s.rows
    ensures Possible(s, [Steal(i), Create(i)])
    ensures Run(s, [Steal(i), Create(i)])
            == At(s.(rows := s.rows[s.requests[i].stack := s.requests[i].engine]), i, Held)
  {
    var one := Next(s, Steal(i));
    OneAction(one, Create(i));
    assert [Steal(i), Create(i)][1..] == [Create(i)];
    assert Next(one, Create(i)).requests == s.requests[i := s.requests[i].(phase := Held)];
  }

  lemma OneAction(s: System, a: Action)
    requires Enabled(s, a)
    ensures Possible(s, [a]) && Run(s, [a]) == Next(s, a)
  {
  }

  // ---- The lock as the engine uses it, interleaved with everything else ----

  ghost predicate Follows(s: System, t: System) {
    exists a :: Enabled(s, a) && t == Next(s, a)
  }

  /** Every state comes about from the one before by something that may happen. */
  ghost predicate Recorded(history: seq<System>) {
    forall k :: 0 <= k < |history| - 1 ==> Follows(history[k], history[k + 1])
  }

  ghost function RowOf(s: System, stack: Stack): Option<Engine> {
    if stack in s.rows then Some(s.rows[stack]) else None
  }

  /** No row is ever given to an engine that is dead. */
  ghost predicate NoneGiven(s: System, t: System) {
    && s.dead <= t.dead
    && forall stack, e :: e in s.dead && RowOf(t, stack) == Some(e) ==> RowOf(s, stack) == Some(e)
  }

  lemma DeadGetNoRow(s: System, a: Action)
    requires Enabled(s, a)
    ensures NoneGiven(s, Next(s, a))
  {
  }

  /** The database and all requests; rows are those of the table. */
  class Cluster {
    const table: LockTable
    var system: System
    // Every state of the system up to now.
    ghost var history: seq<System>

    ghost predicate Valid()
      reads this, table
    {
      table.rows == system.rows && Traced()
    }

    ghost predicate Traced()
      reads this
    {
      Inv(system) && history != [] && history[|history| - 1] == system && Recorded(history)
    }

    constructor ()
      ensures Valid() && fresh(table) && system == System(map[], map[], {})
    {
      table := new LockTable();
      system := System(map[], map[], {});
      history := [System(map[], map[], {})];
    }

    method Take(a: Action)
      requires Traced() && Enabled(system, a)
      modifies this`system, this`history
      ensures Traced() && system == Next(old(system), a) && history == old(history) + [system]
    {
      NextKeepsInv(system, a);
      assert Follows(system, Next(system, a));
      system := Next(system, a);
      history := history + [system];
    }

    /** Anything may happen between two transactions of a request, except that this request goes on. */
    method Interfere(i: RequestId) returns (crashed: bool)
      requires Valid() && i in system.requests
      modifies this`system, this`history, table
      ensures Valid() && i in system.requests && system.requests[i] == old(system).requests[i]
      ensures NoneGiven(old(system), system) && old(history) <= history
      ensures crashed <==> system.requests[i].engine in system.dead
    {
      var n: int := *;
      var k := 0;
      while k < n
        invariant Traced() && i in system.requests && system.requests[i] == old(system).requests[i]
        invariant NoneGiven(old(system), system) && old(history) <= history
      {
        var a: Action := *;
        if Enabled(system, a) && !ActsFor(a, i) {
          NextForOthers(system, a, i);
          DeadGetNoRow(system, a);
          Take(a);
        }
        k := k + 1;
      }
      table.rows := system.rows;
      crashed := system.requests[i].engine in system.dead;
    }
  }

  datatype Outcome = Acquired | ActionInProgress | EngineCrashed

  class StackLock {
    const cluster: Cluster
    const request: RequestId
    const stack: Stack
    const engine: Engine

    /** A request that has just arrived. */
    constructor (c: Cluster, i: RequestId, stackId: Stack, engineId: Engine, tryOnly: bool)
      requires c.Valid() && i !in c.system.requests && engineId !in c.system.dead
      modifies c`system, c`history
      ensures cluster == c && request == i && c.Valid() && InPhase(if tryOnly then Trying else Creating(true))
    {
      cluster, request, stack, engine := c, i, stackId, engineId;
      new;
      c.Take(Arrive(i, stackId, engineId, tryOnly));
    }

    ghost predicate InPhase(p: Phase)
      reads this, cluster
    {
      Live(cluster.system, request) && cluster.system.requests[request] == Request(stack, engine, p)
    }

    /** _engine_alive: a live engine answers, and from a dead one no answer comes in time. */
    method EngineAlive(owner: Engine) returns (alive: bool)
      ensures alive <==> owner !in cluster.system.dead
    {
      alive := owner !in cluster.system.dead;
    }

    /** try_acquire. */
    method TryAcquire() returns (owner: Option<Engine>)
      requires cluster.Valid() && InPhase(Trying)
      modifies cluster`system, cluster`history, cluster.table
      ensures cluster.Valid() && InPhase(if owner.None? then Held else Refused)
      ensures owner.None? <==> stack !in old(cluster.table.rows)
      ensures owner.Some?
        ==> owner.value == old(cluster.table.rows)[stack] && cluster.table.rows == old(cluster.table.rows)
    {
      owner := cluster.table.Create(stack, engine);
      cluster.Take(Create(request));
    }

    /** There is a row, and it names another engine. */
    ghost predicate Occupied()
      reads this, cluster
    {
      RowOf(cluster.system, stack).Some? && RowOf(cluster.system, stack).value != engine
    }

    /** Another request has changed the row; if a second round is left, it has taken the lock. */
    ghost predicate Lost(s: System, row: Option<Engine>, retry: bool) {
      RowOf(s, stack) != row && (retry ==> RowOf(s, stack).Some?)
    }

    ghost predicate LostSince(start: nat, row: Option<Engine>, retry: bool)
      reads cluster
    {
      exists k :: start <= k < |cluster.history| && Lost(cluster.history[k], row, retry)
    }

    /** Asking the owner whether it is alive, after anything may have happened; None: it is not. */
    method AskOwner(owner: Engine, ghost retry: bool) returns (outcome: Option<Outcome>)
      requires cluster.Valid() && InPhase(Checking(retry, owner))
      modifies cluster`system, cluster`history, cluster.table
      ensures cluster.Valid() && old(cluster.history) <= cluster.history
      ensures NoneGiven(old(cluster.system), cluster.system)
      ensures match outcome
              case None => InPhase(Stealing(retry, owner)) && owner in cluster.system.dead
              case Some(ActionInProgress) => InPhase(Refused) && owner !in cluster.system.dead
              case Some(EngineCrashed) => engine in cluster.system.dead
              case Some(Acquired) => false
    {
      var crashed := cluster.Interfere(request);
      if crashed {
        return Some(EngineCrashed);
      }
      var alive := EngineAlive(owner);
      cluster.Take(Check(request, alive));
      outcome := if alive then Some(ActionInProgress) else None;
    }

    /** Stealing the lock from an owner that is dead; None: it was released, and is to be asked for once more. */
    method StealFrom(owner: Engine, retry: bool) returns (outcome: Option<Outcome>)
      requires cluster.Valid() && InPhase(Stealing(retry, owner)) && owner in cluster.system.dead
      modifies cluster`system, cluster`history, cluster.table
      ensures cluster.Valid() && old(cluster.history) < cluster.history
      ensures old(cluster.system).dead <= cluster.system.dead
      ensures match outcome
              case None => retry && InPhase(Creating(false)) && RowOf(cluster.system, stack) == None
              case Some(Acquired) => InPhase(Held) && RowOf(cluster.system, stack) == Some(engine)
              case Some(ActionInProgress) => InPhase(Refused) && Lost(cluster.system, Some(owner), retry)
              case Some(EngineCrashed) => engine in cluster.system.dead
    {
      var crashed := cluster.Interfere(request);
      if crashed {
        return Some(EngineCrashed);
      }
      var result := cluster.table.Steal(stack, owner, engine);
      cluster.Take(Steal(request));
      match result
      case Stolen => outcome := Some(Acquired);
      case WasReleased => outcome := if retry then None else Some(ActionInProgress);
      case OwnedBy(_) => outcome := Some(ActionInProgress);
    }

    /**
      acquire. On success the lock is held; if it raises ActionInProgress, it
      never was. That it raises has a reason: the owner found is this engine, or
      alive, or another request has changed the row meanwhile.
    */
    method Acquire(retry: bool) returns (outcome: Outcome, ghost rounds: nat)
      requires cluster.Valid() && InPhase(Creating(retry))
      modifies cluster`system, cluster`history, cluster.table
      ensures cluster.Valid() && old(cluster.history) < cluster.history
      ensures old(cluster.system).dead <= cluster.system.dead
      ensures outcome == Acquired
        ==> InPhase(Held) && stack in cluster.table.rows && cluster.table.rows[stack] == engine
      ensures outcome == ActionInProgress ==> InPhase(Refused)
      ensures outcome == EngineCrashed ==> engine in cluster.system.dead
      ensures 1 <= rounds <= if retry then 2 else 1
      ensures stack !in old(cluster.table.rows) ==> outcome == Acquired && rounds == 1
      ensures stack in old(cluster.table.rows) && old(cluster.table.rows)[stack] == engine
        ==> outcome == ActionInProgress
      ensures old(Occupied()) && RowOf(old(cluster.system), stack).value !in cluster.system.dead
        ==> outcome != Acquired && rounds == 1
      ensures old(Occupied()) && RowOf(old(cluster.system), stack).value in old(cluster.system).dead
              && outcome == ActionInProgress
        ==> LostSince(|old(cluster.history)|, RowOf(old(cluster.system), stack), retry)
      decreases retry, 1
    {
      rounds := 1;
      var owner := cluster.table.Create(stack, engine);
      cluster.Take(Create(request));
      if owner.None? {
        return Acquired, rounds;
      }
      if owner.value == engine {
        return ActionInProgress, rounds;
      }
      var asked := AskOwner(owner.value, retry);
      if asked.Some? {
        return asked.value, rounds;
      }
      var stolen := StealFrom(owner.value, retry);
      if stolen.Some? {
        return stolen.value, rounds;
      }
      outcome, rounds := AcquireAgain(owner.value);
    }

    /** The second round, after the lock was released while it was being stolen from owner. */
    method AcquireAgain(owner: Engine) returns (outcome: Outcome, ghost rounds: nat)
      requires cluster.Valid() && InPhase(Creating(false)) && RowOf(cluster.system, stack) == None
      requires owner in cluster.system.dead
      modifies cluster`system, cluster`history, cluster.table
      ensures cluster.Valid() && old(cluster.history) < cluster.history
      ensures old(cluster.system).dead <= cluster.system.dead
      ensures match outcome
              case Acquired => InPhase(Held) && RowOf(cluster.system, stack) == Some(engine)
              case ActionInProgress => InPhase(Refused) && LostSince(|old(cluster.history)| - 1, Some(owner), true)
              case EngineCrashed => engine in cluster.system.dead
      ensures 1 <= rounds <= 2
      decreases true, 0
    {
      rounds := 1;
      var crashed := cluster.Interfere(request);
      if crashed {
        return EngineCrashed, rounds;
      }
      ghost var k := |cluster.history| - 1;
      assert Lost(cluster.history[k], Some(owner), true) || RowOf(cluster.system, stack) == None;
      outcome, rounds := Acquire(false);
      rounds := rounds + 1;
    }

    /** release, by the holder: the row is there, and goes. */
    method Release() returns (missing: bool)
      requires cluster.Valid() && InPhase(Held)
      modifies cluster`system, cluster`history, cluster.table
      ensures cluster.Valid() && InPhase(Released) && !missing
      ensures cluster.table.rows == old(cluster.table.rows) - {stack}
    {
      assert RequestInv(cluster.system, request);
      missing := cluster.table.Release(stack, engine);
      cluster.Take(Action.Release(request));
    }
  }
}
