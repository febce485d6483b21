/**
  The order of the operations of a stack update (StackUpdate.dependencies):
  create the new resources, then clean up the old ones that they replace.
*/
module UpdateOrder {
  import opened Wrappers
  import opened Graphs
  import opened Dependency

  type Name = string

  /** The existing stack and the new one: their resources by name, and their dependency graphs. */
  datatype Update = Update(existing: map<Name, Key>, oldDeps: Nodes, created: map<Name, Key>, newDeps: Nodes)

  /** Existing resource o and new resource n have the same name. */
  ghost predicate Replaces(u: Update, o: Key, n: Key) {
    exists name :: name in u.existing && name in u.created && u.existing[name] == o && u.created[name] == n
  }

  /** Each graph is over the resources of its stack, and no resource belongs to both. */
  ghost predicate WellFormed(u: Update) {
    && Mirrored(u.oldDeps) && Mirrored(u.newDeps) && u.oldDeps.Keys !! u.newDeps.Keys
    && u.existing.Values == u.oldDeps.Keys && u.created.Values == u.newDeps.Keys
  }

  /** The operation for a waits for the operation for b. */
  ghost predicate WaitsFor(u: Update, a: Key, b: Key) {
    Requires(u.newDeps, a, b) || Requires(u.oldDeps, b, a) || Replaces(u, a, b)
  }

  /** g is the combined graph of the update. */
  ghost predicate IsCombined(g: Nodes, u: Update) {
    && g.Keys == u.oldDeps.Keys + u.newDeps.Keys
    && Mirrored(g)
    && forall a: Key, b: Key :: Requires(g, a, b) <==> WaitsFor(u, a, b)
  }

  /** A rank of the combined graph: new resources first, then the old ones in the opposite of their own order. */
  ghost function CombinedRank(oldOrder: seq<Key>, newOrder: seq<Key>): (rank: map<Key, nat>)
    requires Distinct(oldOrder) && Distinct(newOrder)
  {
    map k | k in (set x | x in oldOrder) + (set x | x in newOrder) ::
      if k in newOrder then Positions(newOrder)[k]
      else |newOrder| + |oldOrder| - Positions(oldOrder)[k]
  }

  /** The combined graph has a cycle exactly when one of the two stacks has. */
  lemma CombinedAcyclic(g: Nodes, u: Update)
    requires WellFormed(u) && IsCombined(g, u)
    ensures Cyclic(g) <==> Cyclic(u.oldDeps) || Cyclic(u.newDeps)
  {
    if p :| IsCycle(u.newDeps, p) {
      forall i | 0 <= i < |p| - 1 ensures Requires(g, p[i], p[i + 1]) {
        assert Requires(u.newDeps, p[i], p[i + 1]);
      }
      assert IsCycle(g, p);
    }
    ReverseMirrored(u.oldDeps);
    ReverseAcyclic(u.oldDeps);
    if p :| IsCycle(Reverse(u.oldDeps), p) {
      forall i | 0 <= i < |p| - 1 ensures Requires(g, p[i], p[i + 1]) {
        assert Requires(Reverse(u.oldDeps), p[i], p[i + 1]);
      }
      assert IsCycle(g, p);
    }
    if !Cyclic(u.oldDeps) && !Cyclic(u.newDeps) {
      var oldOrder := AcyclicHasOrder(u.oldDeps);
      var newOrder := AcyclicHasOrder(u.newDeps);
      var rank := CombinedRank(oldOrder, newOrder);
      forall a: Key, b: Key | Requires(g, a, b) ensures a in rank && b in rank && rank[b] < rank[a] {
        CombinedRankDecreases(u, oldOrder, newOrder, a, b);
      }
      RankedIsAcyclic(g, rank);
    }
  }

  lemma CombinedRankDecreases(u: Update, oldOrder: seq<Key>, newOrder: seq<Key>, a: Key, b: Key)
    requires WellFormed(u) && WaitsFor(u, a, b)
    requires IsTopoOrder(u.oldDeps, oldOrder) && IsTopoOrder(u.newDeps, newOrder)
    ensures var rank := CombinedRank(oldOrder, newOrder); a in rank && b in rank && rank[b] < rank[a]
  {
  }

  /** x comes before y. */
  ghost predicate Before(order: seq<Key>, x: Key, y: Key) {
    forall i, j :: 0 <= i < |order| && 0 <= j < |order| && order[i] == x && order[j] == y ==> i < j
  }

  /**
    In any order the combined graph admits, a new resource follows what it
    requires, an old one follows the old ones that require it, and an old one
    follows its replacement.
  */
  lemma UpdateRespectsOrder(g: Nodes, u: Update, order: seq<Key>)
    requires WellFormed(u) && IsCombined(g, u) && IsTopoOrder(g, order)
    ensures forall a, b :: Requires(u.newDeps, a, b) ==> Before(order, b, a)
    ensures forall a, b :: Requires(u.oldDeps, a, b) ==> Before(order, a, b)
    ensures forall o, n :: Replaces(u, o, n) ==> Before(order, n, o)
  {
    forall a: Key, b: Key | WaitsFor(u, a, b) ensures Before(order, b, a) {
      assert Requires(g, a, b);
      forall i, j | 0 <= i < |order| && 0 <= j < |order| && order[i] == b && order[j] == a ensures i < j {
        assert b in order[..j];
        var x :| 0 <= x < j && order[x] == b;
      }
    }
    forall a: Key, b: Key | Requires(u.newDeps, a, b) ensures Before(order, b, a) {
      assert WaitsFor(u, a, b);
    }
    forall a: Key, b: Key | Requires(u.oldDeps, a, b) ensures Before(order, a, b) {
      assert WaitsFor(u, b, a);
    }
    forall o: Key, n: Key | Replaces(u, o, n) ensures Before(order, n, o) {
      assert WaitsFor(u, o, n);
    }
  }

  /** The edges that dependencies() yields. */
  ghost predicate UpdateEdge(e: Edge, u: Update) {
    || IsEdge(u.newDeps, e)
    || IsEdge(Reverse(u.oldDeps), e)
    || (e.required.Some? && Replaces(u, e.requirer, e.required.value))
  }

  /** The graph rebuilt from the edge lists is the combined graph. */
  lemma RebuiltIsCombined(es: seq<Edge>, u: Update)
    requires WellFormed(u)
    requires forall e :: e in es <==> UpdateEdge(e, u)
    ensures IsCombined(WithEdges(map[], es), u)
  {
    var g := WithEdges(map[], es);
    ReverseMirrored(u.oldDeps);
    WithEdgesContents(map[], es);
    WithEdgesMirrored(es);
    forall a: Key, b: Key ensures Requires(g, a, b) <==> WaitsFor(u, a, b) {
      var e := Edge(a, Some(b));
      assert e in es <==> UpdateEdge(e, u);
      assert IsEdge(Reverse(u.oldDeps), e) <==> Requires(u.oldDeps, b, a);
    }
    forall k: Key ensures k in g <==> k in u.oldDeps || k in u.newDeps {
      if k in u.newDeps {
        EveryKeyHasAnEdge(u.newDeps, k);
        var e :| IsEdge(u.newDeps, e) && Mentions(e, k);
        assert UpdateEdge(e, u) && e in es;
      } else if k in u.oldDeps {
        EveryKeyHasAnEdge(Reverse(u.oldDeps), k);
        var e :| IsEdge(Reverse(u.oldDeps), e) && Mentions(e, k);
        assert UpdateEdge(e, u) && e in es;
      } else if k in g {
        var e :| e in es && Mentions(e, k);
        UpdateEdgeKeys(e, k, u);
      }
    }
  }

  lemma UpdateEdgeKeys(e: Edge, k: Key, u: Update)
    requires WellFormed(u) && UpdateEdge(e, u) && Mentions(e, k)
    ensures k in u.oldDeps || k in u.newDeps
  {
    if e.required.Some? {
      var a, b := e.requirer, e.required.value;
      if Requires(u.newDeps, a, b) {
        assert Satisfies(u.newDeps, b, a);
      } else if Requires(Reverse(u.oldDeps), a, b) {
        assert Satisfies(u.oldDeps, a, b);
        assert Requires(u.oldDeps, b, a);
      } else {
        var name :| name in u.existing && name in u.created && u.existing[name] == a && u.created[name] == b;
        assert a in u.existing.Values && b in u.created.Values;
      }
    }
  }

  /** The cross edges of the names that are not in todo. */
  ghost predicate CrossEdge(e: Edge, existing: map<Name, Key>, created: map<Name, Key>, todo: set<Name>) {
    exists n :: n in existing && n !in todo && n in created && e == Edge(existing[n], Some(created[n]))
  }

  lemma CrossEdgesReplace(e: Edge, u: Update)
    ensures CrossEdge(e, u.existing, u.created, {}) <==> e.required.Some? && Replaces(u, e.requirer, e.required.value)
  {
  }

  /** StackUpdate.dependencies */
  method UpdateDependencies(existing: map<Name, Key>, existingDeps: Dependencies,
                            created: map<Name, Key>, newDeps: Dependencies) returns (deps: Dependencies)
    requires WellFormed(Update(existing, existingDeps.graph.nodes, created, newDeps.graph.nodes))
    ensures fresh(deps) && fresh(deps.graph)
    ensures IsCombined(deps.graph.nodes, Update(existing, existingDeps.graph.nodes, created, newDeps.graph.nodes))
  {
    ghost var u := Update(existing, existingDeps.graph.nodes, created, newDeps.graph.nodes);
    // Create/update the new stack's resources in create order
    var forward := newDeps.CopyGraph(false);
    var edges := forward.Edges();
    // Destroy/cleanup the old stack's resources in delete order
    var backward := existingDeps.CopyGraph(true);
    var reversed := backward.Edges();
    edges := edges + reversed;
    // Don't cleanup old resources until after they have been replaced
    ghost var before := edges;
    var todo := existing.Keys;
    while todo != {}
      invariant todo <= existing.Keys
      invariant forall e :: e in edges <==> e in before || CrossEdge(e, existing, created, todo)
    {
      var name :| name in todo;
      if name in created {
        edges := edges + [Edge(existing[name], Some(created[name]))];
      }
      todo := todo - {name};
    }
    forall e ensures e in edges <==> UpdateEdge(e, u) {
      CrossEdgesReplace(e, u);
    }
    RebuiltIsCombined(edges, u);
    deps := new Dependencies(edges);
  }
}
