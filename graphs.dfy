/** Directed graphs given by a node set and an edge set, the shape of a networkx
    `DiGraph`, and the question the deadlock detector asks of one: does it have a
    simple cycle? */
module Graphs {
  import opened Matrices

  datatype Graph<N> = Graph(nodes: set<N>, edges: set<(N, N)>)

  /** Every edge joins two nodes of the graph. */
  predicate Closed<N>(g: Graph<N>) {
    forall e :: e in g.edges ==> e.0 in g.nodes && e.1 in g.nodes
  }

  /** `c` is a simple cycle: a closed walk along edges that visits no node twice
      (a self-loop is a cycle of one node). */
  predicate IsSimpleCycle<N>(g: Graph<N>, c: seq<N>) {
    |c| > 0 && Distinct(c) &&
    (forall i :: 0 <= i < |c| - 1 ==> (c[i], c[i + 1]) in g.edges) &&
    (c[|c| - 1], c[0]) in g.edges
  }

  ghost predicate HasCycle<N(!new)>(g: Graph<N>) {
    exists c :: IsSimpleCycle(g, c)
  }

  /** `v` has an edge to some node of `live`. */
  predicate HasSuccessorIn<N>(g: Graph<N>, live: set<N>, v: N) {
    exists w :: w in live && (v, w) in g.edges
  }

  /** The nodes of `live` that keep a successor inside `live`. */
  function Prune<N>(g: Graph<N>, live: set<N>): (next: set<N>)
    ensures next <= live
  {
    set v | v in live && HasSuccessorIn(g, live, v)
  }

  /** Every node of `c` lies in `live`. */
  predicate Within<N>(c: seq<N>, live: set<N>) {
    forall i :: 0 <= i < |c| ==> c[i] in live
  }

  /** A cycle inside `live` survives pruning: each of its nodes has its successor
      on the cycle. */
  lemma CycleSurvivesPrune<N>(g: Graph<N>, live: set<N>, c: seq<N>)
    requires IsSimpleCycle(g, c) && Within(c, live)
    ensures Within(c, Prune(g, live))
  {
    forall i | 0 <= i < |c| ensures c[i] in Prune(g, live) {
      var j := if i < |c| - 1 then i + 1 else 0;
      assert (c[i], c[j]) in g.edges && c[j] in live;
    }
  }

  /** A proper subset has fewer elements. */
  lemma ProperSubsetSmaller<N>(a: set<N>, b: set<N>, x: N)
    requires a <= b && x in b && x !in a
    ensures |a| < |b|
  {
    assert b == a + (b - a);
    assert x in b - a;
  }

  /** In a closed graph every cycle runs through nodes of the graph. */
  lemma CycleWithinNodes<N>(g: Graph<N>, c: seq<N>)
    requires Closed(g) && IsSimpleCycle(g, c)
    ensures Within(c, g.nodes)
  {
    forall i | 0 <= i < |c| ensures c[i] in g.nodes {
      var j := if i < |c| - 1 then i + 1 else 0;
      assert (c[i], c[j]) in g.edges;
    }
  }

  /** Prunes nodes without a successor among the remaining ones until none is left
      to prune. What remains holds every simple cycle, and each node remaining has a
      successor among the remaining nodes. */
  method PruneAll<N(!new)>(g: Graph<N>) returns (live: set<N>)
    requires Closed(g)
    ensures live <= g.nodes
    ensures forall c :: IsSimpleCycle(g, c) ==> Within(c, live)
    ensures forall v :: v in live ==> HasSuccessorIn(g, live, v)
  {
    live := g.nodes;
    forall c | IsSimpleCycle(g, c) ensures Within(c, live) {
      CycleWithinNodes(g, c);
    }
    while exists v :: v in live && !HasSuccessorIn(g, live, v)
      invariant live <= g.nodes
      invariant forall c :: IsSimpleCycle(g, c) ==> Within(c, live)
      decreases |live|
    {
      var v :| v in live && !HasSuccessorIn(g, live, v);
      var next := Prune(g, live);
      ProperSubsetSmaller(next, live, v);
      forall c | IsSimpleCycle(g, c) ensures Within(c, next) {
        CycleSurvivesPrune(g, live, c);
      }
      live := next;
    }
  }

  /** `path` is a walk along edges that visits no node twice. */
  predicate IsSimplePath<N>(g: Graph<N>, path: seq<N>) {
    |path| > 0 && Distinct(path) &&
    forall i :: 0 <= i < |path| - 1 ==> (path[i], path[i + 1]) in g.edges
  }

  /** A simple path whose last node has an edge back to its `i`-th node closes a
      simple cycle from there. */
  lemma ClosePath<N>(g: Graph<N>, path: seq<N>, i: nat)
    requires IsSimplePath(g, path) && i < |path|
    requires (path[|path| - 1], path[i]) in g.edges
    ensures IsSimpleCycle(g, path[i..])
  {
    var c := path[i..];
    forall j | 0 <= j < |c| - 1 ensures (c[j], c[j + 1]) in g.edges {
      assert c[j] == path[i + j] && c[j + 1] == path[i + j + 1];
    }
  }

  /** What the walk in `WalkToCycle` keeps: a simple path inside `live`, and `rest`
      the nodes of `live` it has not visited. */
  predicate Walking<N>(g: Graph<N>, live: set<N>, path: seq<N>, rest: set<N>) {
    IsSimplePath(g, path) && Within(path, live) &&
    rest <= live && forall x :: x in live ==> (x in rest <==> x !in path)
  }

  /** Extending the walk by an edge to an unvisited node of `live` keeps it going and
      shrinks what is left to visit. */
  lemma ExtendWalk<N>(g: Graph<N>, live: set<N>, path: seq<N>, rest: set<N>, w: N)
    requires Walking(g, live, path, rest)
    requires w in live && w !in path && (path[|path| - 1], w) in g.edges
    ensures Walking(g, live, path + [w], rest - {w})
    ensures |rest - {w}| < |rest|
  {
    ProperSubsetSmaller(rest - {w}, rest, w);
    var path' := path + [w];
    forall i | 0 <= i < |path'| - 1 ensures (path'[i], path'[i + 1]) in g.edges {
      if i < |path| - 1 {
        assert path'[i] == path[i] && path'[i + 1] == path[i + 1];
      }
    }
  }

  /** Follows successors inside `live` from one of its nodes until a node repeats;
      the walk from that node's first visit is a simple cycle. */
  method WalkToCycle<N>(g: Graph<N>, live: set<N>) returns (cycle: seq<N>)
    requires live != {}
    requires forall v :: v in live ==> HasSuccessorIn(g, live, v)
    ensures IsSimpleCycle(g, cycle)
  {
    var v :| v in live;
    var path := [v];
    ghost var rest := live - {v};
    while true
      invariant Walking(g, live, path, rest)
      decreases |rest|
    {
      var last := path[|path| - 1];
      assert last in live;
      var w :| w in live && (last, w) in g.edges;
      if w in path {
        var i :| 0 <= i < |path| && path[i] == w;
        ClosePath(g, path, i);
        return path[i..];
      }
      ExtendWalk(g, live, path, rest, w);
      path := path + [w];
      rest := rest - {w};
    }
  }

  /** Decides whether `g` has a simple cycle and, when it has, returns one. Nodes
      that have no successor among the remaining nodes cannot lie on a cycle and are
      pruned; if nodes remain, a walk among them closes a cycle. */
  method FindCycle<N(!new)>(g: Graph<N>) returns (found: bool, cycle: seq<N>)
    requires Closed(g)
    ensures found <==> HasCycle(g)
    ensures found ==> IsSimpleCycle(g, cycle)
    ensures !found ==> cycle == []
  {
    var live := PruneAll(g);
    if live == {} {
      assert !HasCycle(g);
      return false, [];
    }
    cycle := WalkToCycle(g, live);
    found := true;
  }
}
