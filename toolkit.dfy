/** The toolkit object: the allocation state of `numProcesses` processes over
    `numResources` resource types, and the three analyses run on it (the Banker's
    safety check, deadlock detection on the resource-allocation graph, and recovery
    by terminating one process). */
module Toolkit {
  import opened Matrices
  import opened Safety
  import opened Graphs
  import opened Detection
  import opened Recovery

  /** The victim is chosen over all processes, not over those on a cycle: here
      processes 0 and 1 are deadlocked, process 2 holds nothing and is chosen, and
      terminating it changes nothing, so the deadlock stays. */
  lemma RecoveryCanMissTheCycle(allocation: Matrix, request: Matrix)
    requires allocation == [[1, 0], [0, 1], [0, 0]] && request == [[0, 1], [1, 0], [0, 0]]
    ensures Deadlocked(3, 2, allocation, request)
    ensures ArgMin(RowSums(allocation)) == 2
    ensures allocation[2 := Zeros(2)] == allocation
  {
    BystanderDeadlock(allocation, request);
    BystanderChosen(allocation);
  }

  /** Processes 0 and 1 wait for each other while process 2 looks on. */
  lemma BystanderDeadlock(allocation: Matrix, request: Matrix)
    requires allocation == [[1, 0], [0, 1], [0, 0]] && request == [[0, 1], [1, 0], [0, 0]]
    ensures Deadlocked(3, 2, allocation, request)
  {
    var g := Rag(3, 2, allocation, request);
    assert IsEdge(3, 2, allocation, request, (Proc(0), Res(1)));
    assert IsEdge(3, 2, allocation, request, (Res(1), Proc(1)));
    assert IsEdge(3, 2, allocation, request, (Proc(1), Res(0)));
    assert IsEdge(3, 2, allocation, request, (Res(0), Proc(0)));
    assert IsSimpleCycle(g, [Proc(0), Res(1), Proc(1), Res(0)]);
  }

  /** Process 2 has the smallest row sum, and its row is already zero. */
  lemma BystanderChosen(allocation: Matrix)
    requires allocation == [[1, 0], [0, 1], [0, 0]]
    ensures ArgMin(RowSums(allocation)) == 2
    ensures allocation[2 := Zeros(2)] == allocation
  {
    var sums := RowSums(allocation);
    RowSumPair(allocation[0]);
    RowSumPair(allocation[1]);
    RowSumPair(allocation[2]);
    FirstMinimumUnique(sums, 2);
    assert Zeros(2) == allocation[2];
  }

  class DeadlockToolkit {
    const numProcesses: nat
    const numResources: nat
    var allocation: Matrix
    var request: Matrix
    var available: Vector
    var maxDemand: Matrix

    /** Every matrix is `numProcesses` x `numResources` and `available` has one entry
        per resource type. */
    ghost predicate Valid()
      reads this
    {
      IsMatrix(allocation, numProcesses, numResources) &&
      IsMatrix(request, numProcesses, numResources) &&
      IsMatrix(maxDemand, numProcesses, numResources) &&
      |available| == numResources
    }

    /** A toolkit for `numProcesses` processes and `numResources` resource types,
        with every matrix and vector zero. Both counts must be positive. */
    constructor (numProcesses: nat, numResources: nat)
      requires numProcesses > 0 && numResources > 0
      ensures Valid()
      ensures this.numProcesses == numProcesses && this.numResources == numResources
      ensures allocation == ZeroMatrix(numProcesses, numResources)
      ensures request == ZeroMatrix(numProcesses, numResources)
      ensures maxDemand == ZeroMatrix(numProcesses, numResources)
      ensures available == Zeros(numResources)
    {
      this.numProcesses := numProcesses;
      this.numResources := numResources;
      allocation := ZeroMatrix(numProcesses, numResources);
      request := ZeroMatrix(numProcesses, numResources);
      available := Zeros(numResources);
      maxDemand := ZeroMatrix(numProcesses, numResources);
    }

    /** Replaces the allocation, the maximum demands and the free resources, and
        clears every request, so that no deadlock is left. */
    method SetInitialState(allocation: Matrix, maxDemand: Matrix, available: Vector)
      requires IsMatrix(allocation, numProcesses, numResources)
      requires IsMatrix(maxDemand, numProcesses, numResources)
      requires |available| == numResources
      modifies this
      ensures Valid()
      ensures this.allocation == allocation && this.maxDemand == maxDemand
      ensures this.available == available
      ensures request == ZeroMatrix(numProcesses, numResources)
      ensures !Deadlocked(numProcesses, numResources, this.allocation, request)
    {
      this.allocation := allocation;
      this.maxDemand := maxDemand;
      this.available := available;
      request := ZeroMatrix(numProcesses, numResources);
      NoRequestNoDeadlock(numProcesses, numResources, allocation);
    }

    /** The Banker's safety check on local copies of the state: passes over the
        process ids in ascending order, each finishing every unfinished process whose
        need fits `work`, until all are finished (safe) or a pass finishes nobody
        (unsafe). */
    method BankersSafetyCheck() returns (verdict: Verdict)
      requires Valid()
      ensures verdict == SafetyCheck(allocation, maxDemand, available)
      ensures verdict.Safe? ==>
                IsSafeSequence(Need(maxDemand, allocation), allocation, available, verdict.sequence)
      ensures verdict == Unsafe && NonNegative(allocation) ==>
                forall pi :: !IsSafeSequence(Need(maxDemand, allocation), allocation, available, pi)
    {
      var tempAllocation := allocation;
      var tempNeed := Need(maxDemand, tempAllocation);
      var work := available;
      var finished := seq(numProcesses, _ => false);
      var safeSequence: seq<nat> := [];
      StartConsistent(allocation, maxDemand, available);
      while false in finished
        invariant Consistent(tempNeed, tempAllocation, available, Scan(work, finished, safeSequence))
        invariant Run(tempNeed, tempAllocation, Scan(work, finished, safeSequence)) ==
                  SafetyCheck(allocation, maxDemand, available)
        decreases Unfinished(finished)
      {
        ghost var s0 := Scan(work, finished, safeSequence);
        var found := false;
        for p := 0 to numProcesses
          invariant Shaped(tempNeed, tempAllocation, Scan(work, finished, safeSequence))
          invariant Pass(tempNeed, tempAllocation, p, Scan(work, finished, safeSequence)) ==
                    Pass(tempNeed, tempAllocation, 0, s0)
          invariant |safeSequence| >= |s0.order|
          invariant found ==> |safeSequence| > |s0.order|
          invariant !found ==> safeSequence == s0.order
        {
          if !finished[p] && Leq(tempNeed[p], work) {
            work := Add(work, tempAllocation[p]);
            finished := finished[p := true];
            safeSequence := safeSequence + [p];
            found := true;
          }
        }
        RunStep(tempNeed, tempAllocation, available, s0);
        if !found {
          VerdictMeaning(allocation, maxDemand, available);
          return Unsafe;
        }
      }
      VerdictMeaning(allocation, maxDemand, available);
      return Safe(safeSequence);
    }

    /** Builds the resource-allocation graph node by node and edge by edge, and
        reports whether it has a simple cycle, with one such cycle when it has. */
    method DetectDeadlock() returns (hasDeadlock: bool, cycle: seq<Node>)
      requires Valid()
      ensures hasDeadlock <==> Deadlocked(numProcesses, numResources, allocation, request)
      ensures hasDeadlock ==> IsSimpleCycle(Rag(numProcesses, numResources, allocation, request), cycle)
      ensures !hasDeadlock ==> cycle == []
    {
      var nodes: set<Node> := {};
      for p := 0 to numProcesses
        invariant forall n :: n in nodes <==> InNodes(n, p, 0)
      {
        nodes := nodes + {Proc(p)};
      }
      for r := 0 to numResources
        invariant forall n :: n in nodes <==> InNodes(n, numProcesses, r)
      {
        nodes := nodes + {Res(r)};
      }
      var edges: set<Edge> := {};
      for p := 0 to numProcesses
        invariant forall e :: e in edges <==>
                    IsEdge(numProcesses, numResources, allocation, request, e) && Scanned(e, p, 0)
      {
        for r := 0 to numResources
          invariant forall e :: e in edges <==>
                      IsEdge(numProcesses, numResources, allocation, request, e) && Scanned(e, p, r)
        {
          if allocation[p][r] > 0 {
            edges := edges + {(Res(r), Proc(p))};
          }
          if request[p][r] > 0 {
            edges := edges + {(Proc(p), Res(r))};
          }
        }
      }
      var g := Graph(nodes, edges);
      assert g == Rag(numProcesses, numResources, allocation, request);
      RagShape(numProcesses, numResources, allocation, request);
      hasDeadlock, cycle := FindCycle(g);
    }

    /** When a deadlock is detected, terminates the process holding the fewest
        resource units in total (the lowest such id): its allocation is returned to
        `available` and its row is zeroed. Without a deadlock nothing changes. */
    method RecoverDeadlock() returns (victim: Option<nat>)
      requires Valid()
      modifies this
      ensures Valid()
      ensures victim.None? <==> !old(Deadlocked(numProcesses, numResources, allocation, request))
      ensures victim.None? ==> allocation == old(allocation) && available == old(available)
      ensures victim.Some? ==>
                victim.value < numProcesses &&
                (forall q :: 0 <= q < numProcesses ==>
                   RowSum(old(allocation)[victim.value]) <= RowSum(old(allocation)[q])) &&
                (forall q :: 0 <= q < victim.value ==>
                   RowSum(old(allocation)[q]) > RowSum(old(allocation)[victim.value])) &&
                available == Add(old(available), old(allocation)[victim.value]) &&
                allocation == old(allocation)[victim.value := Zeros(numResources)]
      ensures request == old(request) && maxDemand == old(maxDemand)
      ensures forall r :: 0 <= r < numResources ==>
                available[r] + ColumnSum(allocation, r) == old(available[r] + ColumnSum(allocation, r))
    {
      var hasDeadlock, _ := DetectDeadlock();
      if !hasDeadlock {
        return None;
      }
      DeadlockNeedsProcesses(numProcesses, numResources, allocation, request);
      var resourceUsage := RowSums(allocation);
      var processToKill := ArgMin(resourceUsage);
      TerminateConserves(available, allocation, processToKill);
      available := Add(available, allocation[processToKill]);
      allocation := allocation[processToKill := Zeros(numResources)];
      return Some(processToKill);
    }
  }
}
