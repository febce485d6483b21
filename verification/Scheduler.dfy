/** TaskRunner and DependencyTaskGroup of heat/engine/scheduler.py. */
module Scheduler {
  import opened Wrappers
  import opened Graphs
  import opened Dependency
  import opened TaskInvariant
  import opened TaskProgress

  /** Wrapper for a resumable task. An exception raised by the task is returned. */
  class TaskRunner {
    const task: Task
    const arg: Key
    var runner: Runner
    var done: bool
    var pos: nat

    ghost function State(): RunnerState
      reads this
    {
      RunnerState(task, runner, done, pos)
    }

    constructor (t: Task, o: Key)
      ensures State() == RunnerState(t, NotStarted, false, 0) && arg == o
    {
      task, arg := t, o;
      runner := NotStarted;
      done := false;
      pos := 0;
    }

    /** next(self._runner); ended is the StopIteration. */
    method Next() returns (ended: bool, raised: Option<Exn>)
      requires !done
      modifies this
      ensures (State().(done := done || ended), raised) == Resumed(old(State()))
      ensures done == old(done)
    {
      ended, raised := false, None;
      if pos >= Length(task) {
        ended := true;
      } else {
        pos := pos + 1;
        if pos == Length(task) {
          if task.failure.Some? {
            raised := task.failure;
          } else {
            ended := true;
          }
        }
      }
    }

    /** The assertion "Task already started" is the precondition. */
    method Start() returns (raised: Option<Exn>)
      requires runner.NotStarted?
      modifies this
      ensures (State(), raised) == Started(old(State()))
    {
      raised := None;
      match task.kind {
        case Coroutine =>
          runner := Generator;
          var _, r := Step();
          raised := r;
        case Callable =>
          pos := pos + 1;
          if task.failure.Some? {
            return task.failure;
          }
          runner := Plain;
          done := true;
      }
    }

    /** The assertion "Task not started" is the precondition. */
    method Step() returns (complete: bool, raised: Option<Exn>)
      requires !done ==> !runner.NotStarted?
      modifies this
      ensures (State(), raised) == Stepped(old(State()))
      ensures complete == done
    {
      raised := None;
      if !done {
        var ended, r := Next();
        raised := r;
        if ended {
          done := true;
        }
      }
      complete := done;
    }

    /** Closing a generator is taken to succeed. */
    method Cancel()
      modifies this
      ensures State() == old(State()).(done := true)
    {
      if !done {
        done := true;
      }
    }
  }

  /** How a run of the group ends. */
  datatype Outcome =
    | Finished
    | RaisedGroup(exceptions: seq<Exn>)
    | Raised(exception: Exn)
    | Interrupted

  class DependencyTaskGroup {
    const runners: map<Key, TaskRunner>
    const graph: Graph
    const aggregate: bool
    // The graph the group was created with, an order of it, and every state the runners went through.
    ghost const original: Nodes
    ghost const order: seq<Key>
    ghost var history: seq<Snapshot>
    // The subtasks whose exceptions were caught so far.
    ghost var failed: seq<Key>

    ghost function States(): (st: Snapshot)
      reads runners.Values
    {
      map k | k in runners :: runners[k].State()
    }

    ghost predicate Wired() {
      && (forall k :: k in runners ==> runners[k].arg == k)
      && runners.Keys == original.Keys
      && Mirrored(original) && IsTopoOrder(original, order)
    }

    ghost predicate Valid()
      reads this, runners.Values
    {
      Wired() && history != [] && SafeHistory(original, history) && history[|history| - 1] == States()
    }

    /**
      A group that aggregates exceptions has no plain callable that will be
      cancelled: those without a transitive requirement that raises.
    */
    ghost predicate Supported() {
      aggregate ==>
        forall k, r ::
          k in runners && r in runners && r != k && runners[k].task.kind.Callable? && Reaches(original, k, r)
          ==> runners[r].task.failure.None?
    }

    ghost predicate Remembers(before: seq<Snapshot>)
      reads this
    {
      before <= history
    }

    constructor Prepared(tasks: map<Key, Task>, g: Graph, aggregateExceptions: bool, rs: map<Key, TaskRunner>,
                         ghost sorted: seq<Key>)
      requires Mirrored(g.nodes) && IsTopoOrder(g.nodes, sorted)
      requires rs.Keys == g.nodes.Keys && g.nodes.Keys <= tasks.Keys
      requires forall k :: k in rs ==> rs[k].arg == k
      requires forall k :: k in rs ==> rs[k].State() == RunnerState(tasks[k], NotStarted, false, 0)
      ensures Valid() && graph == g && aggregate == aggregateExceptions && runners == rs
      ensures original == g.nodes
      ensures AllFresh(States()) && history == [States()] && failed == []
    {
      runners := rs;
      graph := g;
      aggregate := aggregateExceptions;
      original := g.nodes;
      order := sorted;
      failed := [];
      new;
      history := [States()];
    }

    static method MakeRunners(keys: seq<Key>, tasks: map<Key, Task>) returns (rs: map<Key, TaskRunner>)
      requires forall k :: k in keys ==> k in tasks
      ensures rs.Keys == set k | k in keys
      ensures forall k :: k in rs ==> fresh(rs[k])
      ensures forall k :: k in rs ==> rs[k].arg == k
      ensures forall k :: k in rs ==> rs[k].State() == RunnerState(tasks[k], NotStarted, false, 0)
    {
      rs := map[];
      for i := 0 to |keys|
        invariant rs.Keys == set k | k in keys[..i]
        invariant forall k :: k in rs ==> fresh(rs[k])
        invariant forall k :: k in rs ==> rs[k].arg == k
        invariant forall k :: k in rs ==> rs[k].State() == RunnerState(tasks[k], NotStarted, false, 0)
      {
        var r := new TaskRunner(tasks[keys[i]], keys[i]);
        assert keys[..i + 1] == keys[..i] + [keys[i]];
        rs := rs[keys[i] := r];
      }
      assert keys[..|keys|] == keys;
    }

    /** __init__; None stands for the CircularDependencyException. */
    static method Create(deps: Dependencies, tasks: map<Key, Task>, reverse: bool, aggregateExceptions: bool)
        returns (group: Option<DependencyTaskGroup>)
      requires Mirrored(deps.graph.nodes) && deps.graph.nodes.Keys <= tasks.Keys
      ensures group.None? <==> Cyclic(deps.graph.nodes)
      ensures group.Some? ==>
        && fresh(group.value) && fresh(group.value.graph)
        && (forall k :: k in group.value.runners ==> fresh(group.value.runners[k]))
        && group.value.Valid()
        && group.value.aggregate == aggregateExceptions
        && group.value.original == (if reverse then Reverse(deps.graph.nodes) else deps.graph.nodes)
        && group.value.graph.nodes == group.value.original
        && AllFresh(group.value.States()) && group.value.failed == []
        && (forall k :: k in group.value.runners ==> group.value.runners[k].task == tasks[k])
    {
      var keys, circular := deps.Iterate(false);
      if circular {
        return None;
      }
      var rs := MakeRunners(keys, tasks);
      var g := deps.CopyGraph(reverse);
      ReverseMirrored(deps.graph.nodes);
      ReverseAcyclic(deps.graph.nodes);
      ghost var sorted := AcyclicHasOrder(g.nodes);
      var d := new DependencyTaskGroup.Prepared(tasks, g, aggregateExceptions, rs, sorted);
      return Some(d);
    }

    /** One call into a runner, and the record of it. */
    method StartRunner(k: Key) returns (raised: Option<Exn>)
      requires Valid() && k in runners && runners[k].runner.NotStarted?
      requires SafeStep(original, States(), States()[k := Started(States()[k]).0])
      modifies `history, runners[k]
      ensures Valid() && Remembers(old(history))
      ensures raised == Started(old(States())[k]).1
      ensures States() == old(States())[k := Started(old(States())[k]).0]
    {
      ghost var before := States();
      raised := runners[k].Start();
      assert States() == before[k := runners[k].State()];
      HistoryGrows(original, history, States());
      history := history + [States()];
    }

    method StepRunner(k: Key) returns (complete: bool, raised: Option<Exn>)
      requires Valid() && k in runners && (!runners[k].done ==> !runners[k].runner.NotStarted?)
      requires SafeStep(original, States(), States()[k := Stepped(States()[k]).0])
      modifies `history, runners[k]
      ensures Valid() && Remembers(old(history))
      ensures raised == Stepped(old(States())[k]).1 && complete == runners[k].done
      ensures States() == old(States())[k := Stepped(old(States())[k]).0]
    {
      ghost var before := States();
      complete, raised := runners[k].Step();
      assert States() == before[k := runners[k].State()];
      HistoryGrows(original, history, States());
      history := history + [States()];
    }

    method CancelRunner(k: Key)
      requires Wired() && k in runners
      modifies runners[k]
      ensures States() == old(States())[k := old(States())[k].(done := true)]
    {
      ghost var before := States();
      runners[k].Cancel();
      assert States() == before[k := runners[k].State()];
    }

    /** for r in self._runners.itervalues(): r.cancel() */
    method CancelAll()
      requires Wired()
      modifies runners.Values
      ensures Stopped(old(States()), States(), {})
    {
      var todo := runners.Keys;
      while todo != {}
        invariant todo <= runners.Keys
        invariant Stopped(old(States()), States(), todo)
      {
        var k :| k in todo;
        CancelRunner(k);
        todo := todo - {k};
      }
    }

    /** How many keys may come after key when everything that waits for it is cancelled. */
    ghost function Above(key: Key): int
      requires Distinct(order)
    {
      if key in Positions(order) then |order| - Positions(order)[key] else 0
    }

    method CancelRecursively(key: Key)
      requires Wired() && key in runners
      requires CancelPre(original, graph.nodes, States(), key)
      modifies graph, runners.Values
      ensures CancelPost(original, old(graph.nodes), old(States()), graph.nodes, key)
      ensures States() == CancelledStates(original, old(States()), key)
      decreases Above(key), 2
    {
      ghost var g, st := graph.nodes, States();
      var node := BeginCancel(key);
      CancelDependents(key, node.satisfy, g, st);
      EndCancel(key, g, st);
    }

    /** del self._graph[key] */
    method EndCancel(key: Key, ghost g: Nodes, ghost st: Snapshot)
      requires Wired() && key in runners && CancelPre(original, g, st, key)
      requires Cancelling(original, g, st, graph.nodes, States(), key, Get(g, key).satisfy)
      modifies graph
      ensures CancelPost(original, g, st, graph.nodes, key)
      ensures States() == old(States()) == CancelledStates(original, st, key)
    {
      TopoOrderIsAcyclic(original, order);
      CancelEnds(original, g, st, graph.nodes, States(), key, Get(g, key).satisfy);
      graph.DelItem(key);
    }

    /** runner.cancel(); node = self._graph[key] */
    method BeginCancel(key: Key) returns (node: Node)
      requires Wired() && key in runners
      requires CancelPre(original, graph.nodes, States(), key)
      modifies graph, runners[key]
      ensures Cancelling(original, old(graph.nodes), old(States()), graph.nodes, States(), key, {})
      ensures node == Get(old(graph.nodes), key)
      ensures forall d :: d in node.satisfy ==> Requires(original, d, key)
    {
      ghost var g, st := graph.nodes, States();
      CancelBegins(original, g, st, key);
      CancelRunner(key);
      graph.nodes := Touch(graph.nodes, key);
      assert graph.nodes == Touch(g, key) && States() == st[key := st[key].(done := true)];
      node := graph.nodes[key];
    }

    /** One round of the loop of CancelRecursively. */
    method CancelDependent(key: Key, dependent: Key, ghost g: Nodes, ghost st: Snapshot, ghost visited: set<Key>)
      requires Wired() && key in runners
      requires Cancelling(original, g, st, graph.nodes, States(), key, visited)
      requires Requires(original, dependent, key) && dependent in Get(g, key).satisfy
      modifies graph, runners.Values
      ensures Cancelling(original, g, st, graph.nodes, States(), key, visited + {dependent})
      decreases Above(key), 0
    {
      TopoOrderIsRank(original, order);
      TopoOrderIsAcyclic(original, order);
      ghost var g', st' := graph.nodes, States();
      EnterDependent(original, g, st, g', st', key, visited, dependent);
      CancelRecursively(dependent);
      LeaveDependent(original, g, st, g', st', graph.nodes, key, visited, dependent);
    }

    /** The loop of CancelRecursively. */
    method CancelDependents(key: Key, all: set<Key>, ghost g: Nodes, ghost st: Snapshot)
      requires Wired() && key in runners
      requires Cancelling(original, g, st, graph.nodes, States(), key, {})
      requires all == Get(g, key).satisfy && forall d :: d in all ==> Requires(original, d, key)
      modifies graph, runners.Values
      ensures Cancelling(original, g, st, graph.nodes, States(), key, all)
      decreases Above(key), 1
    {
      var todo := all;
      ghost var visited: set<Key> := {};
      while todo != {}
        invariant todo + visited == all
        invariant Cancelling(original, g, st, graph.nodes, States(), key, visited)
      {
        var dependent :| dependent in todo;
        CancelDependent(key, dependent, g, st, visited);
        todo, visited := todo - {dependent}, visited + {dependent};
      }
      assert visited == all;
    }

    /** The exceptions caught are those of the failed subtasks; the first one ends a group that does not aggregate. */
    ghost predicate Caught(st: Snapshot)
      reads this
    {
      FailedKeys(st) == (set k | k in failed) && (!aggregate ==> failed == [])
    }

    /** The rest of what every round keeps. */
    ghost predicate Running()
      reads this, graph, runners.Values
    {
      Valid() && Inv(original, graph.nodes, States()) && Caught(States())
    }

    ghost function LeftAt(st: Snapshot): nat
      reads graph
    {
      Total(original.Keys, graph.nodes, st)
    }

    ghost function Left(): nat
      reads graph, runners.Values
    {
      LeftAt(States())
    }

    /** The body of k raised e; before are the states up to then. */
    ghost predicate Broken(k: Key, e: Exn, before: Snapshot)
      reads this, graph, runners.Values
    {
      Valid() && JustRaised(original, graph.nodes, before, States(), k, e) && Caught(before)
    }

    /** Plain callables are never started after they were cancelled. */
    lemma StartIsAllowed(k: Key)
      requires Running() && Supported() && k in runners
      ensures runners[k].task.kind.Callable? ==> !Cancelled(States()[k])
    {
      if !aggregate {
        assert forall j :: j in States() && Failed(States()[j]) ==> j in FailedKeys(States());
        NoFailureNoCancellation(original, order, graph.nodes, States());
      } else if Cancelled(States()[k]) {
        CancelledHasCause(original, order, graph.nodes, States(), k);
      }
    }

    /** Start k, which requires nothing that is still in the graph, and was not started. */
    method StartLeaf(k: Key) returns (failure: Option<(Key, Exn)>)
      requires Running() && Supported() && k in runners && k in graph.nodes
      requires graph.nodes[k].require == {} && runners[k].runner.NotStarted?
      modifies `history, runners.Values
      ensures Remembers(old(history))
      ensures States() == StartTurned(graph.nodes, old(States()), k)
      ensures match failure
              case None => Running() && StartsWell(graph.nodes, old(States()), k)
              case Some((j, e)) => Broken(j, e, old(States()))
    {
      failure := None;
      StartIsAllowed(k);
      StartKeeps(original, graph.nodes, States(), k);
      var raised := StartRunner(k);
      if raised.Some? {
        failure := Some((k, raised.value));
      }
    }

    /** if r.step(): del self._graph[k] */
    method StepAndDelete(k: Key) returns (raised: Option<Exn>)
      requires Valid() && k in runners && (!runners[k].done ==> !runners[k].runner.NotStarted?)
      requires SafeStep(original, States(), States()[k := Stepped(States()[k]).0])
      modifies `history, graph, runners[k]
      ensures Valid() && Remembers(old(history))
      ensures raised == Stepped(old(States())[k]).1
      ensures States() == old(States())[k := Stepped(old(States())[k]).0]
      ensures graph.nodes
              == if raised.Some? then old(graph.nodes) else AfterStep(old(graph.nodes), Stepped(old(States())[k]).0, k)
    {
      var complete, r := StepRunner(k);
      if r.None? && complete {
        graph.DelItem(k);
      }
      raised := r;
    }

    /** Step k, which is running, and delete it once it is done. */
    method StepRunning(k: Key) returns (failure: Option<(Key, Exn)>)
      requires Running() && k in runners && k in graph.nodes && !runners[k].runner.NotStarted?
      modifies `history, graph, runners.Values
      ensures Remembers(old(history))
      ensures match failure
              case None =>
                && Running() && StepsWell(old(graph.nodes), old(States()), k)
                && graph.nodes == Turned(old(graph.nodes), old(States()), k).0
                && States() == Turned(old(graph.nodes), old(States()), k).1
              case Some((j, e)) => Broken(j, e, old(States())) && graph.nodes == old(graph.nodes)
    {
      failure := None;
      StepKeeps(original, graph.nodes, States(), k);
      var raised := StepAndDelete(k);
      if raised.Some? {
        failure := Some((k, raised.value));
      }
    }

    /** An exception has left the body of a subtask; before are the states up to then, when no more was left to do. */
    ghost predicate BrokenOff(failure: Option<(Key, Exn)>, before: Snapshot, left: nat)
      reads this, graph, runners.Values
    {
      failure.Some? && Broken(failure.value.0, failure.value.1, before) && LeftAt(before) <= left
    }

    /** One turn of the first loop of a round. */
    method StartAndMove(k: Key, ghost p: Plan, ghost todo: set<Key>)
        returns (failure: Option<(Key, Exn)>, ghost before: Snapshot)
      requires Running() && Supported() && k in graph.nodes && k in runners
      requires StartTurn(p, original, graph.nodes, States(), todo) && k in todo
      modifies `history, runners.Values
      ensures Remembers(old(history))
      ensures if failure.None? then Running() && StartTurn(p, original, graph.nodes, States(), todo - {k})
              else BrokenOff(failure, before, p.left) && OnlyStarts(p.st0, States())
    {
      before := States();
      OneStarts(p, original, graph.nodes, before, todo, k);
      failure := None;
      if graph.nodes[k].require == {} && runners[k].runner.NotStarted? {
        failure := StartLeaf(k);
      }
      if failure.None? {
        StartTurnKept(p, original, graph.nodes, before, todo, k);
      }
    }

    /** for k, r in self._ready(): r.start() */
    method StartReady(ghost p: Plan) returns (failure: Option<(Key, Exn)>, ghost before: Snapshot)
      requires Running() && Supported() && StartTurn(p, original, graph.nodes, States(), graph.nodes.Keys)
      modifies `history, runners.Values
      ensures Remembers(old(history))
      ensures if failure.None? then
                && Running() && StepTurn(p, original, graph.nodes, States(), runners.Keys)
                && States() == AfterStarts(p.nodes, p.st0)
              else BrokenOff(failure, before, p.left) && OnlyStarts(p.st0, States())
    {
      failure, before := None, States();
      var todo := graph.nodes.Keys;
      while todo != {}
        invariant failure.None? && todo <= graph.nodes.Keys
        invariant Running() && Remembers(old(history)) && StartTurn(p, original, graph.nodes, States(), todo)
      {
        var k :| k in todo;
        failure, before := StartAndMove(k, p, todo);
        if failure.Some? {
          return;
        }
        todo := todo - {k};
      }
      StartTurnEnds(p, original, graph.nodes, States(), runners.Keys);
    }

    /** One turn of the second loop of a round. */
    method StepAndMove(k: Key, ghost p: Plan, ghost todo: set<Key>)
        returns (failure: Option<(Key, Exn)>, ghost before: Snapshot)
      requires Running() && k in runners && k in todo && StepTurn(p, original, graph.nodes, States(), todo)
      modifies `history, graph, runners.Values
      ensures Remembers(old(history))
      ensures if failure.None? then Running() && StepTurn(p, original, graph.nodes, States(), todo - {k})
              else BrokenOff(failure, before, p.left)
    {
      before := States();
      ghost var g := graph.nodes;
      failure := None;
      if k in graph.nodes && !runners[k].runner.NotStarted? {
        failure := StepRunning(k);
      }
      if failure.None? {
        StepTurnKept(p, original, g, before, todo, k);
      }
    }

    /** for k, r in self._running(): if r.step(): del self._graph[k] */
    method StepAllRunning(ghost p: Plan) returns (failure: Option<(Key, Exn)>, ghost before: Snapshot)
      requires Running() && StepTurn(p, original, graph.nodes, States(), runners.Keys)
      modifies `history, graph, runners.Values
      ensures Remembers(old(history))
      ensures if failure.None? then Running() && StepTurn(p, original, graph.nodes, States(), {})
              else BrokenOff(failure, before, p.left)
    {
      failure, before := None, States();
      var todo := runners.Keys;
      while todo != {}
        invariant failure.None? && todo <= runners.Keys
        invariant Running() && Remembers(old(history)) && StepTurn(p, original, graph.nodes, States(), todo)
      {
        var k :| k in todo;
        failure, before := StepAndMove(k, p, todo);
        if failure.Some? {
          return;
        }
        todo := todo - {k};
      }
    }

    method Record()
      requires Wired() && history != [] && SafeHistory(original, history)
      requires SafeStep(original, history[|history| - 1], States())
      modifies `history
      ensures Valid() && Remembers(old(history)) && States() == old(States())
    {
      HistoryGrows(original, history, States());
      history := history + [States()];
    }

    /** The call of _cancel_recursively in the exception handler. */
    method HandleFailure(k: Key, e: Exn, ghost before: Snapshot)
      requires Broken(k, e, before) && k in runners
      modifies `history, graph, runners.Values
      ensures Valid() && Remembers(old(history)) && Inv(original, graph.nodes, States())
      ensures FailedKeys(States()) == FailedKeys(before) + {k} && k !in FailedKeys(before)
      ensures Left() < old(LeftAt(before)) && SamePos(old(States()), States())
    {
      CancelFailed(k, e, before);
      Record();
    }

    method CancelFailed(k: Key, e: Exn, ghost before: Snapshot)
      requires Broken(k, e, before) && k in runners
      modifies graph, runners.Values
      ensures Inv(original, graph.nodes, States()) && history == old(history)
      ensures Wired() && SafeHistory(original, history) && SafeStep(original, history[|history| - 1], States())
      ensures FailedKeys(States()) == FailedKeys(before) + {k} && k !in FailedKeys(before)
      ensures Left() < old(LeftAt(before)) && SamePos(old(States()), States())
    {
      ghost var g, now := graph.nodes, States();
      CancelPreHolds(original, g, before, k, now[k]);
      CancelRecursively(k);
      FailKeeps(original, order, g, before, now, k, e, graph.nodes);
    }

    /** for r in self._runners.itervalues(): r.cancel(), before the exception goes on to the caller. */
    method StopAll()
      requires Valid()
      modifies `history, runners.Values
      ensures Valid() && Remembers(old(history)) && NoneLeft(States())
      ensures FailedKeys(old(States())) <= FailedKeys(States()) && SamePos(old(States()), States())
    {
      ghost var st := States();
      CancelAll();
      StoppedKeeps(original, st, States());
      Record();
    }

    /** Some runner still has work to do. */
    ghost predicate SomeLeft()
      reads runners.Values
    {
      exists k :: k in runners && !runners[k].done
    }

    /** Why a run stops before everything is done. */
    ghost predicate StopsRightly(outcome: Outcome, interrupted: bool)
      reads runners.Values
    {
      match outcome
      case Interrupted => interrupted
      case Raised(e) =>
        !aggregate && exists k :: k in FailedKeys(States()) && k in runners && runners[k].task.failure == Some(e)
      case _ => false
    }

    /**
      The try block in the loop of __call__. If nothing is raised, the round
      takes every subtask exactly as far as AfterRound says, and advances the
      bodies of those that were ready when it began. The caller may throw
      something other than an Exception at the yield; that goes through unless a
      subtask has raised before, and in either case nothing is stepped.
    */
    method TryRound(interrupted: bool) returns (aborted: bool, failure: Option<(Key, Exn)>, ghost before: Snapshot)
      requires Running() && Supported() && SomeLeft()
      modifies `history, graph, runners.Values
      ensures Remembers(old(history))
      ensures aborted ==> Valid() && States() == AfterStarts(old(graph.nodes), old(States()))
      ensures if interrupted then (aborted || failure.Some?) && OnlyStarts(old(States()), States()) else !aborted
      ensures !aborted ==>
        match failure
        case None => Running() && Left() < old(Left()) && LeftOver(graph.nodes, States(), {})
                     && States() == AfterRound(old(graph.nodes), old(States()))
                     && Advances(old(graph.nodes), old(States()), States())
                     && (SamePos(old(States()), States()) <==> old(NoneReady(graph.nodes, States())))
        case Some((j, e)) => Broken(j, e, before) && LeftAt(before) <= old(Left())
    {
      aborted := false;
      assert !NoneLeft(States());
      ghost var p := BeginRound(original, order, graph.nodes, States());
      failure, before := StartReady(p);
      if failure.None? {
        if interrupted {
          TurnOnlyStarts(p.nodes, p.st0);
          aborted := true;
        } else {
          failure, before := StepAllRunning(p);
          if failure.None? {
            RoundTells(p, original, graph.nodes, States());
          }
        }
      }
    }

    /** The exception handler in the loop of __call__. */
    method CatchFailure(k: Key, e: Exn, ghost before: Snapshot, raised: seq<Exn>) returns (raised': seq<Exn>)
      requires Broken(k, e, before) && k in runners && Matches(raised)
      modifies `history, `failed, graph, runners.Values
      ensures Valid() && Remembers(old(history))
      ensures raised' == raised + [e]
      ensures SamePos(old(States()), States())
      ensures if aggregate then Running() && Matches(raised') && Left() < old(LeftAt(before))
              else NoneLeft(States()) && StopsRightly(Raised(e), false)
    {
      HandleFailure(k, e, before);
      raised' := raised + [e];
      if aggregate {
        Remember(k, e, raised);
      } else {
        StopAll();
        assert k in FailedKeys(States()) && runners[k].task.failure == Some(e);
      }
    }

    /** raised_exceptions.append(e) */
    ghost method Remember(k: Key, e: Exn, raised: seq<Exn>)
      requires Valid() && Inv(original, graph.nodes, States()) && Matches(raised) && aggregate
      requires FailedKeys(States()) == (set j | j in failed) + {k} && k !in failed
      requires k in runners && runners[k].task.failure == Some(e)
      modifies `failed
      ensures Running() && Matches(raised + [e]) && history == old(history)
      ensures Left() == old(Left()) && States() == old(States())
    {
      ghost var before := failed;
      failed := failed + [k];
      assert (set j | j in failed) == (set j | j in before) + {k};
    }

    ghost function Now(raised: seq<Exn>): Mark
      reads graph, runners.Values
    {
      Mark(graph.nodes, States(), |raised|)
    }

    /** The body of the loop in __call__. */
    method Round(interrupted: bool, raised: seq<Exn>) returns (stop: Option<Outcome>, raised': seq<Exn>)
      requires Running() && Supported() && SomeLeft() && Matches(raised)
      modifies `history, `failed, graph, runners.Values
      ensures Valid() && Remembers(old(history))
      ensures interrupted ==> OnlyStarts(old(States()), States())
      ensures match stop
              case None =>
                && Running() && Matches(raised') && Left() < old(Left())
                && RoundEnds(old(Now(raised)), Now(raised'), interrupted)
              case Some(outcome) => NoneLeft(States()) && StopsRightly(outcome, interrupted)
    {
      ghost var st0 := States();
      var aborted, failure, before := TryRound(interrupted);
      ghost var st := States();
      stop, raised' := Handle(aborted, failure, before, raised);
      OnlyStartsStill(st0, st, States());
    }

    /** The exception handlers in __call__. */
    method Handle(aborted: bool, failure: Option<(Key, Exn)>, ghost before: Snapshot, raised: seq<Exn>)
        returns (stop: Option<Outcome>, raised': seq<Exn>)
      requires Matches(raised)
      requires if aborted then Valid() else if failure.None? then Running()
               else Broken(failure.value.0, failure.value.1, before) && failure.value.0 in runners
      modifies `history, `failed, graph, runners.Values
      ensures Valid() && Remembers(old(history)) && SamePos(old(States()), States())
      ensures stop.None? ==> Running() && Matches(raised') && !aborted
      ensures stop.None? ==>
        if failure.None? then Now(raised') == old(Now(raised))
        else |raised'| == |raised| + 1 && Left() < old(LeftAt(before))
      ensures stop.Some? ==> NoneLeft(States()) && StopsRightly(stop.value, aborted)
    {
      stop, raised' := None, raised;
      if aborted {
        StopAll();
        stop := Some(Interrupted);
      } else if failure.Some? {
        var (j, e) := failure.value;
        raised' := CatchFailure(j, e, before, raised);
        if !aggregate {
          stop := Some(Raised(e));
        }
      }
    }

    /**
      __call__. The caller may throw an exception that is not an Exception at
      the yield of round number interrupt: that round is the last one, unless its
      first loop raised, and steps nothing. The rounds that ran to their end lie
      between the marks.
    */
    method Run(interrupt: Option<nat>) returns (outcome: Outcome, ghost marks: seq<Mark>)
      requires Valid() && Supported() && AllFresh(States()) && graph.nodes == original && failed == []
      modifies `history, `failed, graph, runners.Values
      ensures Valid() && Remembers(old(history)) && NoneLeft(States())
      ensures match outcome
              case Finished => forall k :: k in runners ==> Completed(States()[k])
              case RaisedGroup(raised) => aggregate && raised != [] && Partition(original, States()) && OneEach(raised)
              case _ => StopsRightly(outcome, interrupt.Some?)
      ensures Marked(marks, old(Now([])), old(Left()), interrupt)
      ensures match outcome
              case Finished => marks[|marks| - 1] == Now([])
              case RaisedGroup(raised) => marks[|marks| - 1] == Now(raised)
              case _ => EndsIn(marks, interrupt, outcome)
    {
      Begins(interrupt);
      var stop, raised, ms := RunRounds(interrupt, Now([]), Left());
      marks := ms;
      if stop.Some? {
        outcome := stop.value;
      } else if raised != [] {
        InvGivesPartition(original, order, graph.nodes, States());
        outcome := RaisedGroup(raised);
      } else {
        AllCompleted(original, order, graph.nodes, States());
        outcome := Finished;
      }
    }

    /** The run stopped in the round after the last mark. */
    ghost predicate EndsIn(marks: seq<Mark>, interrupt: Option<nat>, outcome: Outcome)
      requires marks != []
      reads runners.Values
    {
      && (outcome.Interrupted? ==> interrupt == Some(|marks| - 1))
      && (interrupt == Some(|marks| - 1) ==> OnlyStarts(marks[|marks| - 1].states, States()))
    }

    /** The end of a run that stopped before everything was done. */
    ghost predicate CutShort(outcome: Outcome, marks: seq<Mark>, m0: Mark, left: nat, interrupt: Option<nat>)
      reads this, runners.Values
    {
      && Valid() && NoneLeft(States()) && Marked(marks, m0, left, interrupt)
      && StopsRightly(outcome, interrupt.Some?) && EndsIn(marks, interrupt, outcome)
    }

    /** Between two rounds of a run that began at m0 with so much left to do. */
    ghost predicate Midway(raised: seq<Exn>, marks: seq<Mark>, m0: Mark, left: nat, interrupt: Option<nat>)
      reads this, graph, runners.Values
    {
      && Running() && Matches(raised)
      && IdlePaid(marks, Now(raised)) && Marked(marks, m0, left, interrupt)
      && |marks| + Left() <= left + 1
    }

    /** A round, and the mark after it. */
    method MarkedRound(interrupted: bool, raised: seq<Exn>, ghost marks: seq<Mark>, ghost m0: Mark, ghost left: nat,
                       ghost interrupt: Option<nat>)
        returns (stop: Option<Outcome>, raised': seq<Exn>, ghost marks': seq<Mark>)
      requires Supported() && SomeLeft() && Midway(raised, marks, m0, left, interrupt)
      requires interrupted <==> interrupt == Some(|marks| - 1)
      modifies `history, `failed, graph, runners.Values
      ensures Remembers(old(history))
      ensures match stop
              case None =>
                Midway(raised', marks', m0, left, interrupt) && Left() < old(Left()) && |marks'| == |marks| + 1
              case Some(outcome) => CutShort(outcome, marks', m0, left, interrupt)
    {
      ghost var m := Now(raised);
      assert Inv(original, m.nodes, m.states) && !NoneLeft(m.states);
      stop, raised' := Round(interrupted, raised);
      marks' := marks;
      if stop.None? {
        RoundPays(original, order, marks, m, Now(raised'), m0, left, interrupt);
        marks' := marks + [Now(raised')];
      }
    }

    /**
      The loop of __call__: at most one round for each piece of work there was,
      and one idle round for each exception.
    */
    method RunRounds(interrupt: Option<nat>, ghost m0: Mark, ghost left: nat)
        returns (stop: Option<Outcome>, raised: seq<Exn>, ghost marks: seq<Mark>)
      requires Supported() && Midway([], [m0], m0, left, interrupt)
      modifies `history, `failed, graph, runners.Values
      ensures Remembers(old(history))
      ensures match stop
              case None => Midway(raised, marks, m0, left, interrupt) && NoneLeft(States())
              case Some(outcome) => CutShort(outcome, marks, m0, left, interrupt)
    {
      stop, raised, marks := None, [], [m0];
      var round := 0;
      while stop.None? && exists k :: k in runners && !runners[k].done
        invariant Remembers(old(history))
        invariant match stop
                  case None => Midway(raised, marks, m0, left, interrupt) && round == |marks| - 1
                  case Some(outcome) => CutShort(outcome, marks, m0, left, interrupt)
        decreases stop.None?, Left()
      {
        stop, raised, marks := MarkedRound(interrupt == Some(round), raised, marks, m0, left, interrupt);
        round := round + 1;
      }
    }

    lemma Begins(interrupt: Option<nat>)
      requires Valid() && AllFresh(States()) && graph.nodes == original && failed == []
      ensures Midway([], [Now([])], Now([]), Left(), interrupt)
    {
    }

    /** raised are the exceptions of the subtasks in failed, in the order they were caught. */
    ghost predicate Matches(raised: seq<Exn>)
      reads this
    {
      && Distinct(failed) && |raised| == |failed|
      && forall i :: 0 <= i < |failed| ==> failed[i] in runners && runners[failed[i]].task.failure == Some(raised[i])
    }

    /** Each failed subtask contributed exactly one exception. */
    ghost predicate OneEach(raised: seq<Exn>)
      reads this, runners.Values
    {
      Matches(raised) && FailedKeys(States()) == (set k | k in failed)
    }
  }
}
