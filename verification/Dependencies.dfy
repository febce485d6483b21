/**
  The mutable graph of heat/engine/dependencies.py: deletion, destructive
  topological sort, edge lists and partial graphs.
*/
module Dependency {
  import opened Wrappers
  import opened Graphs

  // ---------------------------------------------------------------- sorting by deleting leaves

  /** What is left of g0 after the keys of order were deleted as leaves, in that order. */
  ghost predicate SortedSoFar(g0: Nodes, g: Nodes, order: seq<Key>) {
    && Distinct(order)
    && (forall k :: k in g0 <==> k in g || k in order)
    && (forall k :: k in g ==> k !in order)
    && (forall k :: k in g ==> g[k] == Node(g0[k].require - (set x | x in order), g0[k].satisfy))
    && (forall i, b :: 0 <= i < |order| && Requires(g0, order[i], b) ==> b in order[..i])
  }

  lemma SortLeaf(g0: Nodes, g: Nodes, order: seq<Key>, leaf: Key)
    requires Mirrored(g0) && SortedSoFar(g0, g, order)
    requires leaf in g && g[leaf].require == {}
    ensures SortedSoFar(g0, Deleted(g, leaf), order + [leaf])
    ensures Deleted(g, leaf).Keys == g.Keys - {leaf}
  {
    var h, longer := Deleted(g, leaf), order + [leaf];
    forall a | a in g[leaf].satisfy ensures a in g {
      assert Satisfies(g0, leaf, a);
      assert Requires(g0, a, leaf);
    }
    assert forall x: Key :: x in longer <==> x in order || x == leaf;
    forall k | k in h ensures h[k] == Node(g0[k].require - (set x | x in longer), g0[k].satisfy) {
      assert (set x | x in longer) == (set x | x in order) + {leaf};
      if k !in g[leaf].satisfy {
        assert !Satisfies(g0, leaf, k);
        assert !Requires(g0, k, leaf);
      }
    }
    forall i, b: Key | 0 <= i < |longer| && Requires(g0, longer[i], b) ensures b in longer[..i] {
      if i < |order| {
        assert b in order[..i];
        assert longer[..i] == order[..i];
      } else {
        assert longer[..i] == order;
        assert b !in g[leaf].require;
      }
    }
  }

  /** When keys remain but none is a leaf, the original graph has a cycle. */
  lemma StuckIsCyclic(g0: Nodes, g: Nodes, order: seq<Key>)
    requires Mirrored(g0) && SortedSoFar(g0, g, order)
    requires g != map[] && forall k :: k in g ==> g[k].require != {}
    ensures Cyclic(g0)
  {
    forall a: Key, b: Key ensures Requires(g, a, b) <==> Satisfies(g, b, a) {
      assert Requires(g0, a, b) <==> Satisfies(g0, b, a);
    }
    NoLeafIsCyclic(g);
    var p :| IsCycle(g, p);
    forall i | 0 <= i < |p| - 1 ensures Requires(g0, p[i], p[i + 1]) {
      assert Requires(g, p[i], p[i + 1]);
    }
    assert IsCycle(g0, p);
  }

  /** Every acyclic graph has a topological order. */
  lemma AcyclicHasOrder(g0: Nodes) returns (order: seq<Key>)
    requires Mirrored(g0) && !Cyclic(g0)
    ensures IsTopoOrder(g0, order)
  {
    var g := g0;
    order := [];
    while g != map[]
      invariant SortedSoFar(g0, g, order)
      decreases |g.Keys|
    {
      if forall k :: k in g ==> g[k].require != {} {
        StuckIsCyclic(g0, g, order);
      }
      var leaf :| leaf in g && g[leaf].require == {};
      SortLeaf(g0, g, order, leaf);
      g, order := Deleted(g, leaf), order + [leaf];
    }
  }

  // ---------------------------------------------------------------- what keeps the mirror

  lemma AddEdgeKeepsMirror(g: Nodes, e: Edge)
    requires Mirrored(g)
    ensures Mirrored(WithEdge(g, e))
  {
    forall a: Key, b: Key ensures Requires(WithEdge(g, e), a, b) <==> Satisfies(WithEdge(g, e), b, a) {
      WithEdgeContents(g, e, a, b);
    }
  }

  /** Deleting a key keeps the mirror exactly when the key requires nothing else. */
  lemma DeleteKeepsMirror(g: Nodes, key: Key)
    requires Mirrored(g) && key in g
    ensures Mirrored(Deleted(g, key)) <==> g[key].require <= {key}
  {
    var h := Deleted(g, key);
    forall a | a in g[key].satisfy ensures a in g {
      assert Satisfies(g, key, a);
    }
    if g[key].require <= {key} {
      forall a: Key, b: Key ensures Requires(h, a, b) <==> Satisfies(h, b, a) {
        assert Requires(g, a, b) <==> Satisfies(g, b, a);
        assert Requires(g, a, key) <==> Satisfies(g, key, a);
      }
    } else {
      var b :| b in g[key].require && b != key;
      assert Requires(g, key, b);
      assert Satisfies(h, b, key);
      assert !Requires(h, key, b);
    }
  }

  // ---------------------------------------------------------------- partial graphs

  /** x and everything that requires it transitively. */
  ghost function Requirers(g: Nodes, x: Key): set<Key> {
    set a | a in g && Reaches(g, a, x)
  }

  function Induced(g: Nodes, keys: set<Key>): Nodes {
    map k | k in g && k in keys :: Node(g[k].require * keys, g[k].satisfy * keys)
  }

  lemma InducedMirrored(g: Nodes, keys: set<Key>)
    requires Mirrored(g)
    ensures Mirrored(Induced(g, keys))
    ensures forall a: Key, b: Key :: Requires(Induced(g, keys), a, b) <==> Requires(g, a, b) && a in keys && b in keys
  {
    var h := Induced(g, keys);
    forall a: Key, b: Key
      ensures Requires(h, a, b) <==> Satisfies(h, b, a)
      ensures Requires(h, a, b) <==> Requires(g, a, b) && a in keys && b in keys
    {
      assert Requires(g, a, b) <==> Satisfies(g, b, a);
    }
  }

  lemma InducedAcyclic(g: Nodes, keys: set<Key>)
    requires Mirrored(g) && !Cyclic(g)
    ensures !Cyclic(Induced(g, keys))
  {
    InducedMirrored(g, keys);
    forall p | IsCycle(Induced(g, keys), p) ensures false {
      forall i | 0 <= i < |p| - 1 ensures Requires(g, p[i], p[i + 1]) {
        assert Requires(Induced(g, keys), p[i], p[i + 1]);
      }
      assert IsCycle(g, p);
    }
  }

  /** In the partial graph of x, x is the one leaf: everything else still waits for something. */
  lemma OnlyLeaf(g: Nodes, x: Key, k: Key)
    requires Mirrored(g) && !Cyclic(g) && x in g && k in Requirers(g, x)
    ensures Induced(g, Requirers(g, x))[k].require == {} <==> k == x
  {
    var keys := Requirers(g, x);
    if k == x {
      forall b | b in g[x].require ensures b !in keys {
        assert Requires(g, x, b);
        NoWayBack(g, x, b);
      }
    } else {
      var b := ReachesFirst(g, k, x);
      assert Satisfies(g, b, k);
      assert b in Induced(g, keys)[k].require;
    }
  }

  /** x is first in every order of its partial graph. */
  lemma FirstInOrder(g: Nodes, x: Key, order: seq<Key>)
    requires Mirrored(g) && !Cyclic(g) && x in g
    requires IsTopoOrder(Induced(g, Requirers(g, x)), order)
    ensures order != [] && order[0] == x
  {
    var h := Induced(g, Requirers(g, x));
    ReachesSelf(g, x);
    assert x in order && order[0] in order;
    OnlyLeaf(g, x, order[0]);
    if b :| b in h[order[0]].require {
      assert Requires(h, order[0], b);
    }
  }

  /** x is last in every order of its reversed partial graph. */
  lemma LastInReverse(g: Nodes, x: Key, order: seq<Key>)
    requires Mirrored(g) && !Cyclic(g) && x in g
    requires IsTopoOrder(Reverse(Induced(g, Requirers(g, x))), order)
    ensures order != [] && order[|order| - 1] == x
  {
    var h := Induced(g, Requirers(g, x));
    InducedMirrored(g, Requirers(g, x));
    ReverseMirrored(h);
    ReachesSelf(g, x);
    assert x in order;
    var last := |order| - 1;
    assert order[last] in order;
    OnlyLeaf(g, x, order[last]);
    if b :| b in h[order[last]].require {
      assert Requires(h, order[last], b);
    }
  }

  /** The edges found by following required_by from key. */
  ghost predicate IsRequirerEdge(g: Nodes, e: Edge, key: Key) {
    e.required.Some? && Requires(g, e.requirer, e.required.value) && Reaches(g, e.required.value, key)
  }

  /** The edges found below the requirers in done, with the edge to key itself. */
  ghost predicate IsPartialEdge(g: Nodes, e: Edge, key: Key, done: set<Key>) {
    exists r :: r in done && (e == Edge(r, Some(key)) || IsRequirerEdge(g, e, r))
  }

  lemma RequirerEdgesSplit(g: Nodes, e: Edge, key: Key)
    requires Mirrored(g) && key in g
    ensures IsRequirerEdge(g, e, key) <==> IsPartialEdge(g, e, key, g[key].satisfy)
  {
    if IsRequirerEdge(g, e, key) {
      var b := e.required.value;
      if b == key {
        assert Satisfies(g, key, e.requirer);
        assert e == Edge(e.requirer, Some(key));
      } else {
        var r := ReachesLast(g, b, key);
        assert Satisfies(g, key, r);
        assert IsRequirerEdge(g, e, r);
      }
    }
    if IsPartialEdge(g, e, key, g[key].satisfy) {
      var r :| r in g[key].satisfy && (e == Edge(r, Some(key)) || IsRequirerEdge(g, e, r));
      assert Satisfies(g, key, r);
      assert Requires(g, r, key);
      if IsRequirerEdge(g, e, r) {
        ReachesAfter(g, e.required.value, r, key);
      } else {
        ReachesSelf(g, key);
      }
    }
  }

  /** The edge list that __getitem__ collects is that of the induced graph. */
  lemma PartialGraphEdges(g: Nodes, x: Key, es: seq<Edge>)
    requires Mirrored(g) && !Cyclic(g) && x in g
    requires if g[x].satisfy == {} then es == [Edge(x, None)] else forall e :: e in es <==> IsRequirerEdge(g, e, x)
    ensures ListsEdges(Induced(g, Requirers(g, x)), es)
  {
    var keys := Requirers(g, x);
    var h := Induced(g, keys);
    InducedMirrored(g, keys);
    ReachesSelf(g, x);
    forall e ensures e in es <==> IsEdge(h, e) {
      if e.required.None? {
        if e.requirer in h {
          OnlyLeaf(g, x, e.requirer);
        }
        if g[x].satisfy != {} && e.requirer == x {
          var a :| a in g[x].satisfy;
          assert Satisfies(g, x, a);
          ReachesBefore(g, a, x, x);
          assert a in h[x].satisfy;
        }
      } else {
        var a, b := e.requirer, e.required.value;
        if Requires(g, a, b) && Reaches(g, b, x) {
          assert Satisfies(g, b, a);
          ReachesBefore(g, a, b, x);
          if b != x {
            var r := ReachesLast(g, b, x);
            assert Satisfies(g, x, r);
          }
        }
      }
    }
  }

  // ---------------------------------------------------------------- the classes

  /** The graph as it stands while the sources in done have been visited by a deletion of key. */
  function Visited(g: Nodes, key: Key, done: set<Key>): Nodes {
    map k | k in g.Keys + done + {key} ::
      if k in done then Node(Get(g, k).require - {key}, Get(g, k).satisfy) else Get(g, k)
  }

  lemma VisitOne(g: Nodes, key: Key, done: set<Key>, src: Key)
    requires src !in done
    ensures Visited(g, key, done + {src})
            == Visited(g, key, done)[src := Node(Get(g, src).require - {key}, Get(g, src).satisfy)]
    ensures Get(Visited(g, key, done), src) == Get(g, src)
    ensures key !in Get(g, src).require ==> Get(g, src).require - {key} == Get(g, src).require
  {
  }

  class Graph {
    var nodes: Nodes

    constructor (initial: Nodes)
      ensures nodes == initial
    {
      nodes := initial;
    }

    method Copy() returns (g: Graph)
      ensures fresh(g) && g.nodes == nodes
    {
      g := new Graph(nodes);
    }

    method ReverseCopy() returns (g: Graph)
      ensures fresh(g) && g.nodes == Reverse(nodes)
    {
      g := new Graph(Reverse(nodes));
    }

    /** Graph.__delitem__ */
    method DelItem(key: Key)
      modifies this
      ensures nodes == Deleted(old(nodes), key)
    {
      nodes := Touch(nodes, key);
      var todo := nodes[key].satisfy;
      ghost var all := todo;
      while todo != {}
        invariant todo <= all
        invariant nodes == Visited(old(nodes), key, all - todo)
      {
        var src :| src in todo;
        assert all - (todo - {src}) == all - todo + {src};
        VisitOne(old(nodes), key, all - todo, src);
        nodes := Touch(nodes, src);
        if key in nodes[src].require {
          nodes := nodes[src := nodes[src].(require := nodes[src].require - {key})];
        }
        todo := todo - {src};
      }
      nodes := nodes - {key};
    }

    /**
      Graph.toposort: the keys yielded, and whether the run ended in a
      CircularDependencyException. The leaf deleted in each round is the first
      one met in dictionary order, that is, any.
    */
    method TopoSort() returns (order: seq<Key>, circular: bool)
      requires Mirrored(nodes)
      modifies this
      ensures circular <==> Cyclic(old(nodes))
      ensures !circular ==> IsTopoOrder(old(nodes), order) && nodes == map[]
    {
      ghost var g0 := nodes;
      order := [];
      var count := |nodes|;
      for iteration := 0 to count
        invariant SortedSoFar(g0, nodes, order)
        invariant |nodes.Keys| == count - iteration
      {
        if leaf :| leaf in nodes && nodes[leaf].require == {} {
          SortLeaf(g0, nodes, order, leaf);
          order := order + [leaf];
          DelItem(leaf);
        } else {
          StuckIsCyclic(g0, nodes, order);
          return order, true;
        }
      }
      TopoOrderIsAcyclic(g0, order);
      circular := false;
    }

    /** Graph.edges */
    method Edges() returns (es: seq<Edge>)
      ensures ListsEdges(nodes, es)
    {
      es := [];
      var todo := nodes.Keys;
      while todo != {}
        invariant todo <= nodes.Keys
        invariant forall e :: e in es <==> IsEdge(nodes, e) && e.requirer !in todo
      {
        var rqr :| rqr in todo;
        var node := nodes[rqr];
        if node == EMPTY_NODE {
          es := es + [Edge(rqr, None)];
        } else {
          ghost var before := es;
          var rest := node.require;
          while rest != {}
            invariant rest <= node.require
            invariant forall e :: e in es <==>
              e in before || (e.requirer == rqr && e.required.Some? && e.required.value in node.require - rest)
          {
            var rqd :| rqd in rest;
            es := es + [Edge(rqr, Some(rqd))];
            rest := rest - {rqd};
          }
        }
        todo := todo - {rqr};
      }
    }
  }

  class Dependencies {
    const graph: Graph

    constructor (edges: seq<Edge>)
      ensures fresh(graph) && graph.nodes == WithEdges(map[], edges)
    {
      graph := new Graph(map[]);
      new;
      for i := 0 to |edges|
        invariant graph.nodes == WithEdges(map[], edges[..i])
      {
        assert edges[..i + 1][..i] == edges[..i];
        AddEdge(edges[i]);
      }
      assert edges[..|edges|] == edges;
    }

    /** __iadd__ */
    method AddEdge(e: Edge)
      modifies graph
      ensures graph.nodes == WithEdge(old(graph.nodes), e)
    {
      match e.required {
        case None =>
          graph.nodes := Touch(graph.nodes, e.requirer);
        case Some(required) =>
          graph.nodes := Touch(graph.nodes, required);
          var n := graph.nodes[required];
          graph.nodes := graph.nodes[required := n.(satisfy := n.satisfy + {e.requirer})];
          graph.nodes := Touch(graph.nodes, e.requirer);
          var m := graph.nodes[e.requirer];
          graph.nodes := graph.nodes[e.requirer := m.(require := m.require + {required})];
      }
    }

    /** graph(reverse) */
    method CopyGraph(reverse: bool) returns (g: Graph)
      ensures fresh(g) && g.nodes == if reverse then Reverse(graph.nodes) else graph.nodes
    {
      if reverse {
        g := graph.ReverseCopy();
      } else {
        g := graph.Copy();
      }
    }

    /** __iter__ and __reversed__ */
    method Iterate(reverse: bool) returns (order: seq<Key>, circular: bool)
      requires Mirrored(graph.nodes)
      ensures circular <==> Cyclic(graph.nodes)
      ensures !circular ==> IsTopoOrder(if reverse then Reverse(graph.nodes) else graph.nodes, order)
    {
      ReverseMirrored(graph.nodes);
      ReverseAcyclic(graph.nodes);
      var copy := CopyGraph(reverse);
      order, circular := copy.TopoSort();
    }

    /** get_edges in __getitem__. The order shows that the recursion ends. */
    method GetEdges(key: Key, ghost order: seq<Key>) returns (es: seq<Edge>)
      requires Mirrored(graph.nodes) && IsTopoOrder(graph.nodes, order)
      requires key in graph.nodes
      ensures forall e :: e in es <==> IsRequirerEdge(graph.nodes, e, key)
      decreases |order| - Positions(order)[key]
    {
      ghost var g := graph.nodes;
      es := [];
      var todo := graph.nodes[key].satisfy;
      TopoOrderIsRank(g, order);
      while todo != {}
        invariant todo <= g[key].satisfy
        invariant forall e :: e in es <==> IsPartialEdge(g, e, key, g[key].satisfy - todo)
      {
        var rqr :| rqr in todo;
        assert Satisfies(g, key, rqr);
        assert Requires(g, rqr, key);
        var below := GetEdges(rqr, order);
        es := es + [Edge(rqr, Some(key))] + below;
        ghost var done := g[key].satisfy - todo;
        todo := todo - {rqr};
        assert g[key].satisfy - todo == done + {rqr};
      }
      forall e ensures e in es <==> IsRequirerEdge(g, e, key) {
        assert g[key].satisfy - todo == g[key].satisfy;
        RequirerEdgesSplit(g, e, key);
      }
    }

    /** __getitem__; None stands for the KeyError. */
    method GetItem(last: Key) returns (deps: Option<Dependencies>)
      requires Mirrored(graph.nodes) && !Cyclic(graph.nodes)
      ensures deps.Some? <==> last in graph.nodes
      ensures deps.Some? ==> fresh(deps.value) && fresh(deps.value.graph)
      ensures deps.Some? ==> deps.value.graph.nodes == Induced(graph.nodes, Requirers(graph.nodes, last))
    {
      if last !in graph.nodes {
        return None;
      }
      ghost var order := AcyclicHasOrder(graph.nodes);
      var edges := [Edge(last, None)];
      if graph.nodes[last].satisfy != {} {
        edges := GetEdges(last, order);
      }
      PartialGraphEdges(graph.nodes, last, edges);
      InducedMirrored(graph.nodes, Requirers(graph.nodes, last));
      EdgesRoundTrip(Induced(graph.nodes, Requirers(graph.nodes, last)), edges);
      var d := new Dependencies(edges);
      return Some(d);
    }
  }
}
