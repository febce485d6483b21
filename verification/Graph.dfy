/**
  The theory of dependency graphs: nodes, walks, cycles, ranks and orders.
  A key stands for a Python object, compared by identity.
*/
module Graphs {
  import opened Wrappers

  type Key = nat

  /** A node: the keys it requires and the keys it is required by. */
  datatype Node = Node(require: set<Key>, satisfy: set<Key>)

  const EMPTY_NODE := Node({}, {})

  type Nodes = map<Key, Node>

  /** Lookup in the defaultdict, without its side effect. */
  function Get(g: Nodes, k: Key): Node {
    if k in g then g[k] else EMPTY_NODE
  }

  /** Lookup in the defaultdict, with its side effect: a missing key is created. */
  function Touch(g: Nodes, k: Key): Nodes {
    g[k := Get(g, k)]
  }

  /** a requires b in g. */
  predicate Requires(g: Nodes, a: Key, b: Key) {
    a in g && b in g[a].require
  }

  /** a is recorded in g as requiring b at the other end of the edge, in b's node. */
  predicate Satisfies(g: Nodes, b: Key, a: Key) {
    b in g && a in g[b].satisfy
  }

  /** The two directions of the graph tell the same story, and every key mentioned is present. */
  ghost predicate Mirrored(g: Nodes) {
    forall a: Key, b: Key :: Requires(g, a, b) <==> Satisfies(g, b, a)
  }

  function Reverse(g: Nodes): Nodes {
    map k | k in g :: Node(g[k].satisfy, g[k].require)
  }

  // ---------------------------------------------------------------- walks

  /** Each element of p requires the next one. */
  ghost predicate IsWalk(g: Nodes, p: seq<Key>) {
    p != [] && forall i :: 0 <= i < |p| - 1 ==> Requires(g, p[i], p[i + 1])
  }

  ghost predicate IsCycle(g: Nodes, p: seq<Key>) {
    IsWalk(g, p) && |p| >= 2 && p[0] == p[|p| - 1]
  }

  ghost predicate Cyclic(g: Nodes) {
    exists p :: IsCycle(g, p)
  }

  ghost predicate WalkBetween(g: Nodes, p: seq<Key>, a: Key, b: Key) {
    IsWalk(g, p) && p[0] == a && p[|p| - 1] == b
  }

  /** a is b or requires it transitively. */
  ghost predicate Reaches(g: Nodes, a: Key, b: Key) {
    exists p :: WalkBetween(g, p, a, b)
  }

  lemma ReachesSelf(g: Nodes, a: Key)
    ensures Reaches(g, a, a)
  {
    assert WalkBetween(g, [a], a, a);
  }

  lemma ReachesBefore(g: Nodes, a: Key, b: Key, c: Key)
    requires Requires(g, a, b) && Reaches(g, b, c)
    ensures Reaches(g, a, c)
  {
    var p :| WalkBetween(g, p, b, c);
    assert WalkBetween(g, [a] + p, a, c);
  }

  lemma ReachesAfter(g: Nodes, a: Key, b: Key, c: Key)
    requires Reaches(g, a, b) && Requires(g, b, c)
    ensures Reaches(g, a, c)
  {
    var p :| WalkBetween(g, p, a, b);
    assert WalkBetween(g, p + [c], a, c);
  }

  lemma ReachesTransitive(g: Nodes, a: Key, b: Key, c: Key)
    requires Reaches(g, a, b) && Reaches(g, b, c)
    ensures Reaches(g, a, c)
  {
    var p :| WalkBetween(g, p, a, b);
    var q :| WalkBetween(g, q, b, c);
    var n := |p| - 1;
    var w := p[..n] + q;
    forall i | 0 <= i < |w| - 1 ensures Requires(g, w[i], w[i + 1]) {
      if i < n {
        assert Requires(g, p[i], p[i + 1]);
      } else {
        assert Requires(g, q[i - n], q[i - n + 1]);
      }
    }
    assert WalkBetween(g, w, a, c);
  }

  /** The first step of a non-trivial walk. */
  lemma ReachesFirst(g: Nodes, a: Key, c: Key) returns (b: Key)
    requires Reaches(g, a, c) && a != c
    ensures Requires(g, a, b) && Reaches(g, b, c)
  {
    var p :| WalkBetween(g, p, a, c);
    b := p[1];
    assert WalkBetween(g, p[1..], b, c) by {
      forall i | 0 <= i < |p[1..]| - 1 ensures Requires(g, p[1..][i], p[1..][i + 1]) {
        assert Requires(g, p[i + 1], p[i + 2]);
      }
    }
  }

  /** The last step of a non-trivial walk. */
  lemma ReachesLast(g: Nodes, a: Key, c: Key) returns (b: Key)
    requires Reaches(g, a, c) && a != c
    ensures Reaches(g, a, b) && Requires(g, b, c)
  {
    var p :| WalkBetween(g, p, a, c);
    var n := |p| - 1;
    b := p[n - 1];
    assert WalkBetween(g, p[..n], a, b);
    assert Requires(g, p[n - 1], p[n]);
  }

  // ---------------------------------------------------------------- ranks and cycles

  /** rank witnesses that g is acyclic: requirements have smaller ranks. */
  ghost predicate IsRank(g: Nodes, rank: map<Key, nat>) {
    forall a: Key, b: Key :: Requires(g, a, b) ==> a in rank && b in rank && rank[b] < rank[a]
  }

  lemma RankAlongWalk(g: Nodes, rank: map<Key, nat>, p: seq<Key>)
    requires IsRank(g, rank) && IsWalk(g, p) && |p| >= 2
    ensures p[0] in rank && p[|p| - 1] in rank && rank[p[|p| - 1]] < rank[p[0]]
  {
    assert Requires(g, p[0], p[1]);
    if |p| > 2 {
      forall i | 0 <= i < |p[1..]| - 1 ensures Requires(g, p[1..][i], p[1..][i + 1]) {
        assert Requires(g, p[i + 1], p[i + 2]);
      }
      RankAlongWalk(g, rank, p[1..]);
    }
  }

  lemma RankedIsAcyclic(g: Nodes, rank: map<Key, nat>)
    requires IsRank(g, rank)
    ensures !Cyclic(g)
  {
    forall p | IsCycle(g, p) ensures false {
      RankAlongWalk(g, rank, p);
    }
  }

  lemma WayBackIsCycle(g: Nodes, a: Key, b: Key, p: seq<Key>)
    requires Requires(g, a, b) && WalkBetween(g, p, b, a)
    ensures IsCycle(g, [a] + p)
  {
  }

  /** In an acyclic graph a requirement never reaches back to what requires it. */
  lemma NoWayBack(g: Nodes, a: Key, b: Key)
    requires !Cyclic(g) && Requires(g, a, b)
    ensures !Reaches(g, b, a)
  {
    if Reaches(g, b, a) {
      var p :| WalkBetween(g, p, b, a);
      WayBackIsCycle(g, a, b, p);
    }
  }

  /** A sequence longer than the set it draws from repeats an element. */
  lemma {:induction false} Pigeonhole(s: seq<Key>, keys: set<Key>) returns (i: nat, j: nat)
    requires forall x :: x in s ==> x in keys
    requires |s| > |keys|
    ensures i < j < |s| && s[i] == s[j]
  {
    var last := |s| - 1;
    if s[last] in s[..last] {
      j := last;
      i :| i < last && s[i] == s[last];
    } else {
      assert s[last] in keys;
      i, j := Pigeonhole(s[..last], keys - {s[last]});
    }
  }

  /** With no leaf there is a walk of any length. */
  lemma {:induction false} LongWalk(g: Nodes, k: Key, n: nat) returns (p: seq<Key>)
    requires Mirrored(g) && k in g
    requires forall a :: a in g ==> g[a].require != {}
    ensures IsWalk(g, p) && |p| == n + 1 && p[0] == k
    ensures forall x :: x in p ==> x in g
    decreases n
  {
    if n == 0 {
      p := [k];
    } else {
      var b :| b in g[k].require;
      assert Requires(g, k, b);
      var q := LongWalk(g, b, n - 1);
      p := [k] + q;
    }
  }

  /** A finite, non-empty graph without leaves contains a cycle. */
  lemma NoLeafIsCyclic(g: Nodes)
    requires Mirrored(g) && g != map[]
    requires forall a :: a in g ==> g[a].require != {}
    ensures Cyclic(g)
  {
    var k :| k in g;
    var p := LongWalk(g, k, |g.Keys|);
    var i, j := Pigeonhole(p, g.Keys);
    var c := p[i..j + 1];
    forall x | 0 <= x < |c| - 1 ensures Requires(g, c[x], c[x + 1]) {
      assert Requires(g, p[i + x], p[i + x + 1]);
    }
    assert IsCycle(g, c);
  }

  // ---------------------------------------------------------------- topological orders

  ghost predicate Distinct(s: seq<Key>) {
    forall i, j :: 0 <= i < j < |s| ==> s[i] != s[j]
  }

  /** order lists every key of g once, each after everything it requires. */
  ghost predicate IsTopoOrder(g: Nodes, order: seq<Key>) {
    && Distinct(order)
    && (forall k :: k in order <==> k in g)
    && (forall i, b :: 0 <= i < |order| && Requires(g, order[i], b) ==> b in order[..i])
  }

  /** The position of each key in an order. */
  ghost function Positions(order: seq<Key>): (rank: map<Key, nat>)
    requires Distinct(order)
    ensures forall k :: k in rank <==> k in order
    ensures forall i :: 0 <= i < |order| ==> rank[order[i]] == i
    ensures forall k :: k in rank ==> rank[k] < |order| && order[rank[k]] == k
  {
    map k | k in order :: PositionOf(order, k)
  }

  ghost function PositionOf(order: seq<Key>, k: Key): (i: nat)
    requires k in order
    ensures i < |order| && order[i] == k
  {
    var i :| 0 <= i < |order| && order[i] == k;
    i
  }

  lemma TopoOrderIsRank(g: Nodes, order: seq<Key>)
    requires IsTopoOrder(g, order)
    ensures IsRank(g, Positions(order))
  {
  }

  /** A graph with a topological order has no cycle. */
  lemma TopoOrderIsAcyclic(g: Nodes, order: seq<Key>)
    requires IsTopoOrder(g, order)
    ensures !Cyclic(g)
  {
    TopoOrderIsRank(g, order);
    RankedIsAcyclic(g, Positions(order));
  }

  // ---------------------------------------------------------------- deleting keys

  /**
    Deleting a key. Every key it satisfies is looked up, so one that was removed
    before comes back as an empty node.
  */
  function Deleted(g: Nodes, key: Key): Nodes {
    var src := Get(g, key).satisfy;
    map k | k in g.Keys + src && k != key ::
      if k in src then Node(Get(g, k).require - {key}, Get(g, k).satisfy) else Get(g, k)
  }

  /** Adding an edge (requirer, required), or only making sure of the requirer. */
  function WithEdge(g: Nodes, e: Edge): Nodes {
    match e.required
    case None => Touch(g, e.requirer)
    case Some(b) =>
      var g1 := g[b := Node(Get(g, b).require, Get(g, b).satisfy + {e.requirer})];
      g1[e.requirer := Node(Get(g1, e.requirer).require + {b}, Get(g1, e.requirer).satisfy)]
  }

  datatype Edge = Edge(requirer: Key, required: Option<Key>)

  ghost predicate IsEdge(g: Nodes, e: Edge) {
    match e.required
    case None => e.requirer in g && g[e.requirer] == EMPTY_NODE
    case Some(b) => Requires(g, e.requirer, b)
  }

  /** The edges listed are exactly those of g. */
  ghost predicate ListsEdges(g: Nodes, es: seq<Edge>) {
    forall e :: e in es <==> IsEdge(g, e)
  }

  function WithEdges(g: Nodes, es: seq<Edge>): Nodes {
    if es == [] then g else WithEdge(WithEdges(g, es[..|es| - 1]), es[|es| - 1])
  }

  predicate Mentions(e: Edge, k: Key) {
    e.requirer == k || e.required == Some(k)
  }

  lemma WithEdgeContents(g: Nodes, e: Edge, a: Key, b: Key)
    ensures a in WithEdge(g, e) <==> a in g || Mentions(e, a)
    ensures Requires(WithEdge(g, e), a, b) <==> Requires(g, a, b) || e == Edge(a, Some(b))
    ensures Satisfies(WithEdge(g, e), b, a) <==> Satisfies(g, b, a) || e == Edge(a, Some(b))
  {
  }

  /** What a graph built from edges contains, whatever their order and repetitions. */
  lemma {:induction false} WithEdgesContents(g: Nodes, es: seq<Edge>)
    ensures forall k :: k in WithEdges(g, es) <==> k in g || exists e :: e in es && Mentions(e, k)
    ensures forall a: Key, b: Key :: Requires(WithEdges(g, es), a, b) <==> Requires(g, a, b) || Edge(a, Some(b)) in es
    ensures forall a: Key, b: Key :: Satisfies(WithEdges(g, es), b, a) <==> Satisfies(g, b, a) || Edge(a, Some(b)) in es
  {
    if es != [] {
      var n := |es| - 1;
      var h, r := WithEdges(g, es[..n]), WithEdges(g, es);
      WithEdgesContents(g, es[..n]);
      assert es == es[..n] + [es[n]];
      assert forall e :: e in es <==> e in es[..n] || e == es[n];
      forall a: Key, b: Key
        ensures Requires(r, a, b) <==> Requires(g, a, b) || Edge(a, Some(b)) in es
        ensures Satisfies(r, b, a) <==> Satisfies(g, b, a) || Edge(a, Some(b)) in es
      {
        WithEdgeContents(h, es[n], a, b);
      }
      forall k: Key ensures k in r <==> k in g || exists e :: e in es && Mentions(e, k) {
        WithEdgeContents(h, es[n], k, k);
      }
    }
  }

  /** Rebuilding a graph from its own edge list gives the graph back. */
  lemma EdgesRoundTrip(g: Nodes, es: seq<Edge>)
    requires Mirrored(g) && ListsEdges(g, es)
    ensures WithEdges(map[], es) == g
  {
    var r := WithEdges(map[], es);
    assert r.Keys == g.Keys by {
      forall k: Key ensures k in r <==> k in g {
        RebuiltKey(g, es, k);
      }
    }
    forall k | k in g ensures r[k] == g[k] {
      RebuiltNode(g, es, k);
    }
  }

  lemma RebuiltKey(g: Nodes, es: seq<Edge>, k: Key)
    requires Mirrored(g) && ListsEdges(g, es)
    ensures k in WithEdges(map[], es) <==> k in g
  {
    WithEdgesContents(map[], es);
    if k in WithEdges(map[], es) {
      var e :| e in es && Mentions(e, k);
      assert IsEdge(g, e);
      match e.required {
        case None =>
        case Some(b) => assert Requires(g, e.requirer, b);
      }
    }
    if k in g {
      EveryKeyHasAnEdge(g, k);
      var e :| IsEdge(g, e) && Mentions(e, k);
      assert e in es;
    }
  }

  lemma RebuiltNode(g: Nodes, es: seq<Edge>, k: Key)
    requires Mirrored(g) && ListsEdges(g, es)
    ensures Get(WithEdges(map[], es), k) == Get(g, k)
  {
    var r := WithEdges(map[], es);
    var n, m := Get(r, k), Get(g, k);
    WithEdgesContents(map[], es);
    forall b: Key ensures b in n.require <==> b in m.require {
      assert Requires(r, k, b) <==> Edge(k, Some(b)) in es;
      assert Edge(k, Some(b)) in es <==> IsEdge(g, Edge(k, Some(b)));
    }
    forall a: Key ensures a in n.satisfy <==> a in m.satisfy {
      assert Satisfies(r, k, a) <==> Edge(a, Some(k)) in es;
      assert Edge(a, Some(k)) in es <==> IsEdge(g, Edge(a, Some(k)));
      assert Requires(g, a, k) <==> Satisfies(g, k, a);
    }
    assert n.require == m.require && n.satisfy == m.satisfy;
  }

  lemma EveryKeyHasAnEdge(g: Nodes, k: Key)
    requires Mirrored(g) && k in g
    ensures exists e :: IsEdge(g, e) && Mentions(e, k)
  {
    if b :| b in g[k].require {
      assert IsEdge(g, Edge(k, Some(b))) && Mentions(Edge(k, Some(b)), k);
    } else if a :| a in g[k].satisfy {
      assert Requires(g, a, k);
      assert IsEdge(g, Edge(a, Some(k))) && Mentions(Edge(a, Some(k)), k);
    } else {
      assert IsEdge(g, Edge(k, None)) && Mentions(Edge(k, None), k);
    }
  }

  /** A graph built from edges alone is mirrored. */
  lemma WithEdgesMirrored(es: seq<Edge>)
    ensures Mirrored(WithEdges(map[], es))
  {
    WithEdgesContents(map[], es);
  }

  /** Reversing keeps the mirror, and turns requirements round. */
  lemma ReverseMirrored(g: Nodes)
    requires Mirrored(g)
    ensures Mirrored(Reverse(g)) && Reverse(Reverse(g)) == g
    ensures forall a: Key, b: Key :: Requires(Reverse(g), a, b) <==> Requires(g, b, a)
  {
    var r := Reverse(g);
    forall a: Key, b: Key
      ensures Requires(r, a, b) <==> Requires(g, b, a)
      ensures Satisfies(r, b, a) <==> Requires(g, b, a)
    {
      assert Requires(r, a, b) <==> Satisfies(g, a, b);
    }
  }

  /** A walk read backwards is a walk of the reversed graph. */
  lemma {:induction false} ReverseWalk(g: Nodes, p: seq<Key>) returns (q: seq<Key>)
    requires Mirrored(g) && IsWalk(g, p)
    ensures IsWalk(Reverse(g), q) && |q| == |p|
    ensures q[0] == p[|p| - 1] && q[|q| - 1] == p[0]
  {
    q := seq(|p|, i requires 0 <= i < |p| => p[|p| - 1 - i]);
    forall i | 0 <= i < |q| - 1 ensures Requires(Reverse(g), q[i], q[i + 1]) {
      assert Requires(g, p[|p| - 2 - i], p[|p| - 2 - i + 1]);
    }
  }

  lemma ReverseAcyclic(g: Nodes)
    requires Mirrored(g)
    ensures Cyclic(Reverse(g)) <==> Cyclic(g)
  {
    ReverseMirrored(g);
    if p :| IsCycle(g, p) {
      var q := ReverseWalk(g, p);
      assert IsCycle(Reverse(g), q);
    }
    if p :| IsCycle(Reverse(g), p) {
      var q := ReverseWalk(Reverse(g), p);
      assert IsCycle(g, q);
    }
  }
}
