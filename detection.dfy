/** The resource-allocation graph of a toolkit state and what deadlock detection
    asks of it. Process `p` and resource type `r` are nodes; resource `r` points at
    process `p` when `p` holds some of it, and `p` points at `r` when `p` requests
    some of it. The state is deadlocked when this graph has a simple cycle. */
module Detection {
  import opened Matrices
  import opened Graphs

  /** A node of the resource-allocation graph (`P{p}` and `R{r}` in the source). */
  datatype Node = Proc(p: nat) | Res(r: nat)

  type Edge = (Node, Node)

  /** `n` is one of the first `P` process nodes or the first `R` resource nodes. */
  predicate InNodes(n: Node, P: nat, R: nat) {
    match n
    case Proc(p) => p < P
    case Res(r) => r < R
  }

  function Nodes(P: nat, R: nat): (v: set<Node>)
    ensures forall n :: n in v <==> InNodes(n, P, R)
  {
    var v := (set p | 0 <= p < P :: Proc(p)) + (set r | 0 <= r < R :: Res(r));
    assert forall n :: InNodes(n, P, R) ==> n in v by {
      forall n | InNodes(n, P, R) ensures n in v {
        if n.Proc? { assert n == Proc(n.p); } else { assert n == Res(n.r); }
      }
    }
    v
  }

  /** The edge rule: `R_r -> P_p` iff `allocation[p][r] > 0`, and `P_p -> R_r` iff
      `request[p][r] > 0`; no other edge exists. */
  predicate IsEdge(P: nat, R: nat, allocation: Matrix, request: Matrix, e: Edge)
    requires IsMatrix(allocation, P, R) && IsMatrix(request, P, R)
    ensures IsEdge(P, R, allocation, request, e) ==>
              InNodes(e.0, P, R) && InNodes(e.1, P, R) && e.0.Proc? != e.1.Proc?
  {
    match e
    case (Res(r), Proc(p)) => p < P && r < R && allocation[p][r] > 0
    case (Proc(p), Res(r)) => p < P && r < R && request[p][r] > 0
    case _ => false
  }

  /** `e` is an edge between process `q` and resource `s` with the pair `(q, s)`
      before `(p, r)` in row-major order: the edges a scan has reached. */
  predicate Scanned(e: Edge, p: nat, r: nat) {
    match e
    case (Res(s), Proc(q)) => q < p || (q == p && s < r)
    case (Proc(q), Res(s)) => q < p || (q == p && s < r)
    case _ => false
  }

  /** The resource-allocation graph of a `P` x `R` state. */
  function Rag(P: nat, R: nat, allocation: Matrix, request: Matrix): (g: Graph<Node>)
    requires IsMatrix(allocation, P, R) && IsMatrix(request, P, R)
    ensures g.nodes == Nodes(P, R)
    ensures forall e :: e in g.edges <==> IsEdge(P, R, allocation, request, e)
  {
    var v := Nodes(P, R);
    var edges := set a, b | a in v && b in v && IsEdge(P, R, allocation, request, (a, b)) :: (a, b);
    assert forall e :: IsEdge(P, R, allocation, request, e) ==> e in edges by {
      forall e | IsEdge(P, R, allocation, request, e) ensures e in edges {
        assert e.0 in v && e.1 in v;
        assert e == (e.0, e.1);
      }
    }
    Graph(v, edges)
  }

  /** The state has a deadlock: its resource-allocation graph has a simple cycle. */
  ghost predicate Deadlocked(P: nat, R: nat, allocation: Matrix, request: Matrix)
    requires IsMatrix(allocation, P, R) && IsMatrix(request, P, R)
  {
    HasCycle(Rag(P, R, allocation, request))
  }

  /** Edges join the graph's own nodes, and each joins a process to a resource or a
      resource to a process. */
  lemma RagShape(P: nat, R: nat, allocation: Matrix, request: Matrix)
    requires IsMatrix(allocation, P, R) && IsMatrix(request, P, R)
    ensures Closed(Rag(P, R, allocation, request))
    ensures forall e :: e in Rag(P, R, allocation, request).edges ==> e.0.Proc? != e.1.Proc?
  {
  }

  /** Along a cycle of the graph, process and resource nodes alternate: the node at
      position `i` is a process exactly when `i` has the parity of the first process. */
  lemma AlternatesUpTo(g: Graph<Node>, c: seq<Node>, i: nat)
    requires forall e :: e in g.edges ==> e.0.Proc? != e.1.Proc?
    requires IsSimpleCycle(g, c) && i < |c|
    ensures c[i].Proc? == (c[0].Proc? == (i % 2 == 0))
    decreases i
  {
    if i > 0 {
      AlternatesUpTo(g, c, i - 1);
      assert (c[i - 1], c[i]) in g.edges;
    }
  }

  /** Every cycle of the resource-allocation graph has even length at least two and
      alternates between processes and resources. */
  lemma CyclesAlternate(P: nat, R: nat, allocation: Matrix, request: Matrix, c: seq<Node>)
    requires IsMatrix(allocation, P, R) && IsMatrix(request, P, R)
    requires IsSimpleCycle(Rag(P, R, allocation, request), c)
    ensures |c| >= 2 && |c| % 2 == 0
    ensures forall i :: 0 <= i < |c| - 1 ==> c[i].Proc? != c[i + 1].Proc?
  {
    var g := Rag(P, R, allocation, request);
    RagShape(P, R, allocation, request);
    assert (c[|c| - 1], c[0]) in g.edges;
    AlternatesUpTo(g, c, |c| - 1);
    forall i | 0 <= i < |c| - 1 ensures c[i].Proc? != c[i + 1].Proc? {
      assert (c[i], c[i + 1]) in g.edges;
    }
  }

  /** A cycle goes through some process that requests the resource after it. */
  lemma CycleHasRequest(P: nat, R: nat, allocation: Matrix, request: Matrix, c: seq<Node>)
    returns (p: nat, r: nat)
    requires IsMatrix(allocation, P, R) && IsMatrix(request, P, R)
    requires IsSimpleCycle(Rag(P, R, allocation, request), c)
    ensures p < P && r < R && request[p][r] > 0
    ensures Proc(p) in c && Res(r) in c
  {
    var g := Rag(P, R, allocation, request);
    CyclesAlternate(P, R, allocation, request, c);
    if c[0].Proc? {
      assert (c[0], c[1]) in g.edges;
      p, r := c[0].p, c[1].r;
    } else {
      assert (c[|c| - 1], c[0]) in g.edges;
      p, r := c[|c| - 1].p, c[0].r;
    }
  }

  /** Deadlock needs a request: with `request` all zero (as `set_initial_state`
      leaves it) no cycle exists. */
  lemma NoRequestNoDeadlock(P: nat, R: nat, allocation: Matrix)
    requires IsMatrix(allocation, P, R)
    ensures !Deadlocked(P, R, allocation, ZeroMatrix(P, R))
  {
    var g := Rag(P, R, allocation, ZeroMatrix(P, R));
    if c :| IsSimpleCycle(g, c) {
      var p, r := CycleHasRequest(P, R, allocation, ZeroMatrix(P, R), c);
      assert false;
    }
  }

  /** A deadlock involves some process and some resource, so neither count is 0. */
  lemma DeadlockNeedsProcesses(P: nat, R: nat, allocation: Matrix, request: Matrix)
    requires IsMatrix(allocation, P, R) && IsMatrix(request, P, R)
    requires Deadlocked(P, R, allocation, request)
    ensures P > 0 && R > 0
  {
    var c :| IsSimpleCycle(Rag(P, R, allocation, request), c);
    var p, r := CycleHasRequest(P, R, allocation, request, c);
  }

  /** Two processes each holding one resource and requesting the other's: the
      textbook deadlock. */
  lemma CrossRequestDeadlocks(allocation: Matrix, request: Matrix)
    requires allocation == [[1, 0], [0, 1]] && request == [[0, 1], [1, 0]]
    ensures IsSimpleCycle(Rag(2, 2, allocation, request), [Proc(0), Res(1), Proc(1), Res(0)])
    ensures Deadlocked(2, 2, allocation, request)
  {
    var g := Rag(2, 2, allocation, request);
    var c := [Proc(0), Res(1), Proc(1), Res(0)];
    assert IsEdge(2, 2, allocation, request, (Proc(0), Res(1)));
    assert IsEdge(2, 2, allocation, request, (Res(1), Proc(1)));
    assert IsEdge(2, 2, allocation, request, (Proc(1), Res(0)));
    assert IsEdge(2, 2, allocation, request, (Res(0), Proc(0)));
    assert IsSimpleCycle(g, c);
  }
}
