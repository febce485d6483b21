/** Restarting a resource and everything that requires it (Stack.restart_resource in heat/engine/parser.py). */
module Restarts {
  import opened Wrappers
  import opened Graphs
  import opened Dependency
  import opened Resources

  /** What was tried on a resource: destroying it, creating it again, or neither because something had failed. */
  datatype Attempt = Destroy(key: Key, failed: bool) | Create(key: Key) | Abort(key: Key)

  function Destroys(keys: seq<Key>, failures: seq<bool>): seq<Attempt>
    requires |failures| == |keys|
  {
    seq(|keys|, i requires 0 <= i < |keys| => Destroy(keys[i], failures[i]))
  }

  /** The resources of order are created up to and including the first that fails; the others are given up. */
  function Creations(order: seq<Key>, tried: nat): seq<Attempt> {
    seq(|order|, i requires 0 <= i < |order| => if i < tried then Create(order[i]) else Abort(order[i]))
  }

  lemma CreationsGrow(order: seq<Key>, i: nat, tried: nat)
    requires i < |order|
    ensures order[..i + 1] == order[..i] + [order[i]]
    ensures Creations(order[..i + 1], tried)
            == Creations(order[..i], tried) + [if i < tried then Create(order[i]) else Abort(order[i])]
    ensures tried >= i ==> Creations(order[..i], tried) == Creations(order[..i], i)
  {
  }

  lemma DestroysGrow(order: seq<Key>, i: nat, failures: seq<bool>, failed: bool)
    requires i < |order| && |failures| == i
    ensures order[..i + 1] == order[..i] + [order[i]]
    ensures Destroys(order[..i + 1], failures + [failed])
      == Destroys(order[..i], failures) + [Destroy(order[i], failed)]
  {
  }

  /** States after the creations: the first done resources are complete, the others have failed. */
  ghost predicate Recreated(st: map<Key, State>, order: seq<Key>, done: nat) {
    forall i :: 0 <= i < |order|
      ==> order[i] in st && st[order[i]] == State(CREATE, if i < done then COMPLETE else FAILED)
  }

  /** There is nothing to destroy. */
  predicate NeverCreated(s: State) {
    s == State(DELETE, COMPLETE) || s.action == INIT
  }

  /** The states once those of keys have been destroyed, or could not be. */
  ghost function DestroyedStates(st: map<Key, State>, keys: seq<Key>, fails: Key -> bool): map<Key, State> {
    map k | k in st ::
      if k in keys && !NeverCreated(st[k]) then State(DELETE, if fails(k) then FAILED else COMPLETE) else st[k]
  }

  /** After destroying the first i of order, from states st0. */
  ghost predicate Destroyed(st0: map<Key, State>, st: map<Key, State>, order: seq<Key>, i: nat, fails: Key -> bool,
                            failures: seq<bool>, attempts: seq<Attempt>)
    requires forall k :: k in order ==> k in st0
  {
    && i <= |order| && |failures| == i && st == DestroyedStates(st0, order[..i], fails)
    && attempts == Destroys(order[..i], failures)
    && forall j :: 0 <= j < i ==> (failures[j] <==> fails(order[j]) && !NeverCreated(st0[order[j]]))
  }

  lemma OneMoreDestroyed(st0: map<Key, State>, st: map<Key, State>, order: seq<Key>, i: nat, fails: Key -> bool,
                         failures: seq<bool>, attempts: seq<Attempt>)
    requires forall k :: k in order ==> k in st0
    requires i < |order| && Destroyed(st0, st, order, i, fails, failures, attempts)
    ensures order[i] in st
    ensures var k := order[i];
      var f := fails(k) && !NeverCreated(st[k]);
      var st' := if NeverCreated(st[k]) then st else st[k := State(DELETE, if fails(k) then FAILED else COMPLETE)];
      Destroyed(st0, st', order, i + 1, fails, failures + [f], attempts + [Destroy(k, f)])
  {
    DestroysGrow(order, i, failures, fails(order[i]) && !NeverCreated(st[order[i]]));
  }

  /** The resources left (DELETE, FAILED) are those whose destruction failed. */
  lemma FailedExists(st: map<Key, State>, order: seq<Key>, fails: Key -> bool, failures: seq<bool>)
    requires |failures| == |order| && forall k :: k in order ==> k in st
    requires forall i :: 0 <= i < |order| ==> (failures[i] <==> fails(order[i]) && !NeverCreated(st[order[i]]))
    ensures var st' := DestroyedStates(st, order, fails);
      && (true in failures <==> exists k :: k in order && st'[k] == State(DELETE, FAILED))
      && (true in failures <==> exists k :: k in order && fails(k) && !NeverCreated(st[k]))
      && forall i :: 0 <= i < |order| ==> (failures[i] <==> st'[order[i]] == State(DELETE, FAILED))
  {
    var st' := DestroyedStates(st, order, fails);
    if true in failures {
      var i :| 0 <= i < |order| && failures[i];
      assert order[i] in order;
    }
    forall k | k in order && fails(k) && !NeverCreated(st[k]) ensures true in failures {
      var i :| 0 <= i < |order| && order[i] == k;
      assert failures[i];
    }
  }

  class StackRestart {
    const dependencies: Dependencies
    var states: map<Key, State>
    var log: seq<Attempt>

    constructor (deps: Dependencies, st: map<Key, State>)
      ensures dependencies == deps && states == st && log == []
    {
      dependencies, states, log := deps, st, [];
    }

    /** destroy() run to its end; fails says how the plugin takes it. */
    method DestroyOne(k: Key, fails: bool) returns (failed: bool)
      requires k in states
      modifies this
      ensures log == old(log) + [Destroy(k, failed)]
      ensures states == if NeverCreated(old(states)[k]) then old(states)
                        else old(states)[k := State(DELETE, if fails then FAILED else COMPLETE)]
      ensures failed <==> fails && !NeverCreated(old(states)[k])
    {
      failed := false;
      if states[k] != State(DELETE, COMPLETE) && states[k].action != INIT {
        failed := fails;
        states := states[k := State(DELETE, if failed then FAILED else COMPLETE)];
      }
      log := log + [Destroy(k, failed)];
    }

    /**
      for res in reversed(deps): destroy it; a failure is remembered, and does not
      stop the loop. fails says which resources the plugin fails to destroy.
    */
    method DestroyAll(order: seq<Key>, fails: Key -> bool) returns (failed: bool, ghost failures: seq<bool>)
      requires forall k :: k in order ==> k in states
      modifies this
      ensures |failures| == |order| && log == old(log) + Destroys(order, failures)
      ensures failed <==> true in failures
      ensures states.Keys == old(states.Keys)
      ensures forall k :: k in states && k !in order ==> states[k] == old(states)[k]
      ensures failed <==> exists k :: k in order && states[k] == State(DELETE, FAILED)
      ensures failed <==> exists k :: k in order && fails(k) && !NeverCreated(old(states)[k])
      ensures forall k :: k in order ==>
        if NeverCreated(old(states)[k]) then states[k] == old(states)[k]
        else if fails(k) then states[k] == State(DELETE, FAILED) else !Live(states[k])
      ensures forall i :: 0 <= i < |order| ==> (failures[i] <==> states[order[i]] == State(DELETE, FAILED))
    {
      ghost var st0, attempts := states, [];
      failed, failures := false, [];
      for i := 0 to |order|
        invariant failed <==> true in failures
        invariant log == old(log) + attempts
        invariant Destroyed(st0, states, order, i, fails, failures, attempts)
      {
        OneMoreDestroyed(st0, states, order, i, fails, failures, attempts);
        var f := DestroyOne(order[i], fails(order[i]));
        failed, failures, attempts := failed || f, failures + [f], attempts + [Destroy(order[i], f)];
      }
      assert order[..|order|] == order;
      FailedExists(st0, order, fails, failures);
    }

    /**
      for res in deps: create it again, unless something has failed before. breaks
      says which resources the plugin fails to create.
    */
    method CreateAll(order: seq<Key>, aborted: bool, breaks: Key -> bool) returns (ghost tried: nat, ghost done: nat)
      requires Distinct(order) && forall k :: k in order ==> k in states
      modifies this
      ensures log == old(log) + Creations(order, tried)
      ensures Recreated(states, order, done)
      ensures states.Keys == old(states.Keys)
      ensures forall k :: k in states && k !in order ==> states[k] == old(states)[k]
      ensures if aborted then tried == done == 0 else done <= tried <= done + 1 <= |order| + 1
      ensures !aborted && done < |order| ==> tried == done + 1 && breaks(order[done])
      ensures forall i :: 0 <= i < done <= |order| ==> !breaks(order[i])
    {
      var failed := aborted;
      tried, done := 0, 0;
      for i := 0 to |order|
        invariant log == old(log) + Creations(order[..i], tried)
        invariant Recreated(states, order[..i], done)
        invariant states.Keys == old(states.Keys)
        invariant forall k :: k in states && k !in order ==> states[k] == old(states)[k]
        invariant if aborted then failed && tried == done == 0
                  else if failed then done < i && tried == done + 1 && breaks(order[done])
                  else tried == done == i
        invariant forall j :: 0 <= j < done ==> !breaks(order[j])
      {
        var k := order[i];
        CreationsGrow(order, i, tried);
        CreationsGrow(order, i, i + 1);
        if !failed {
          states := states[k := State(INIT, COMPLETE)];
          log := log + [Create(k)];
          failed := breaks(k);
          states := states[k := State(CREATE, if failed then FAILED else COMPLETE)];
          tried := i + 1;
          done := if failed then i else i + 1;
        } else {
          states := states[k := State(CREATE, FAILED)];
          log := log + [Abort(k)];
        }
      }
      assert order[..|order|] == order;
    }

    /**
      restart_resource; false stands for the KeyError. down and up are the
      orders in which resources are destroyed and created again.
    */
    method RestartResource(x: Key, fails: Key -> bool, breaks: Key -> bool)
      returns (found: bool, ghost down: seq<Key>, ghost failures: seq<bool>, ghost up: seq<Key>, ghost tried: nat,
               ghost done: nat)
      requires Mirrored(dependencies.graph.nodes) && !Cyclic(dependencies.graph.nodes)
      requires dependencies.graph.nodes.Keys <= states.Keys
      modifies this
      ensures found <==> x in dependencies.graph.nodes
      ensures !found ==> unchanged(this)
      ensures found ==>
        var part := Induced(dependencies.graph.nodes, Requirers(dependencies.graph.nodes, x));
        // every dependent is destroyed before x, and x is created before any of them
        && IsTopoOrder(Reverse(part), down) && down != [] && down[|down| - 1] == x
        && IsTopoOrder(part, up) && up != [] && up[0] == x
        // creating is tried if and only if every destroy succeeded
        && |failures| == |down| && log == old(log) + Destroys(down, failures) + Creations(up, tried)
        && (tried == 0 <==> true in failures)
        && (tried == 0 <==> exists k :: k in part && fails(k) && !NeverCreated(old(states)[k]))
        && (tried > 0 && done < |up| ==> breaks(up[done]))
        && (forall i :: 0 <= i < done <= |up| ==> !breaks(up[i]))
        && Recreated(states, up, done) && (tried == done == 0 || tried == done == |up| || tried == done + 1)
        && states.Keys == old(states.Keys) && forall k :: k in states && k !in part ==> states[k] == old(states)[k]
    {
      down, failures, up, tried, done := [], [], [], 0, 0;
      var deps := dependencies.GetItem(x);
      if deps.None? {
        return false, [], [], [], 0, 0;
      }
      ghost var g := dependencies.graph.nodes;
      InducedMirrored(g, Requirers(g, x));
      InducedAcyclic(g, Requirers(g, x));
      var reversed, _ := deps.value.Iterate(true);
      LastInReverse(g, x, reversed);
      var failed;
      failed, failures := DestroyAll(reversed, fails);
      var forward, _ := deps.value.Iterate(false);
      FirstInOrder(g, x, forward);
      tried, done := CreateAll(forward, failed, breaks);
      found, down, up := true, reversed, forward;
    }
  }
}
