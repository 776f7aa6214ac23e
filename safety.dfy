/** Dijkstra's Banker's safety check, as the toolkit runs it: repeated passes over
    the process ids in ascending order, each pass finishing every unfinished
    process whose need fits the current work vector, with later ids in the same
    pass seeing the work already increased. */
module Safety {
  import opened Matrices

  /** Outcome of the check: safe with the completion order found, or unsafe. */
  datatype Verdict = Safe(sequence: seq<nat>) | Unsafe

  /** The check's local state: `work`, the `finished` flags and the sequence so far. */
  datatype Scan = Scan(work: Vector, finished: seq<bool>, order: seq<nat>)

  /** The matrices handed to the check have matching shapes. */
  predicate WellShaped(allocation: Matrix, maxDemand: Matrix, available: Vector) {
    IsMatrix(allocation, |allocation|, |available|) &&
    IsMatrix(maxDemand, |allocation|, |available|)
  }

  /** `need` and `allocation` are P x R and the scan state fits them. */
  predicate Shaped(need: Matrix, allocation: Matrix, s: Scan) {
    IsMatrix(need, |allocation|, |s.work|) && IsMatrix(allocation, |allocation|, |s.work|) &&
    |s.finished| == |allocation|
  }

  /** Number of processes not yet finished. */
  function Unfinished(finished: seq<bool>): nat {
    multiset(finished)[false]
  }

  /** Units of resource `r` held by the processes of `s`, counted in order. */
  function Held(allocation: Matrix, s: seq<nat>, r: nat): int
    requires Ids(s, |allocation|)
    requires forall p :: 0 <= p < |allocation| ==> r < |allocation[p]|
  {
    if s == [] then 0 else Held(allocation, s[..|s| - 1], r) + allocation[s[|s| - 1]][r]
  }

  /** `available` plus the allocation rows of the processes of `s`: the work vector
      once they have finished and released what they hold. */
  function WorkAfter(allocation: Matrix, available: Vector, s: seq<nat>): (w: Vector)
    requires Rect(allocation, |available|) && Ids(s, |allocation|)
    ensures |w| == |available|
    ensures forall r :: 0 <= r < |available| ==> w[r] == available[r] + Held(allocation, s, r)
  {
    seq(|available|, r requires 0 <= r < |available| => available[r] + Held(allocation, s, r))
  }

  /** Every process of `s` had its need covered by the work available at its turn. */
  predicate Replays(need: Matrix, allocation: Matrix, available: Vector, s: seq<nat>)
    requires Rect(allocation, |available|) && Ids(s, |allocation|)
    requires IsMatrix(need, |allocation|, |available|)
  {
    forall k :: 0 <= k < |s| ==> Leq(need[s[k]], WorkAfter(allocation, available, s[..k]))
  }

  /** `s` lists each id below `n` exactly once. */
  predicate IsIdPermutation(s: seq<nat>, n: nat) {
    Distinct(s) && Ids(s, n) && forall q :: 0 <= q < n ==> q in s
  }

  /** A safe sequence: an order of all processes in which each one's need fits. */
  predicate IsSafeSequence(need: Matrix, allocation: Matrix, available: Vector, s: seq<nat>)
    requires IsMatrix(allocation, |allocation|, |available|)
    requires IsMatrix(need, |allocation|, |available|)
  {
    IsIdPermutation(s, |allocation|) && Replays(need, allocation, available, s)
  }

  /** One pass of the `for` loop, from process id `p` up to the last one. */
  function Pass(need: Matrix, allocation: Matrix, p: nat, s: Scan): Scan
    requires Shaped(need, allocation, s) && p <= |allocation|
    decreases |allocation| - p
  {
    if p == |allocation| then s
    else if !s.finished[p] && Leq(need[p], s.work) then
      Pass(need, allocation, p + 1, Scan(Add(s.work, allocation[p]), s.finished[p := true], s.order + [p]))
    else
      Pass(need, allocation, p + 1, s)
  }

  /** A pass keeps the shapes, only appends to the sequence, and finishes exactly as many
      processes as it appends. */
  lemma {:induction false} PassProgress(need: Matrix, allocation: Matrix, p: nat, s: Scan)
    requires Shaped(need, allocation, s) && p <= |allocation|
    ensures Shaped(need, allocation, Pass(need, allocation, p, s))
    ensures |Pass(need, allocation, p, s).order| >= |s.order|
    ensures Pass(need, allocation, p, s).order[..|s.order|] == s.order
    ensures Unfinished(Pass(need, allocation, p, s).finished) + |Pass(need, allocation, p, s).order| ==
            Unfinished(s.finished) + |s.order|
    decreases |allocation| - p
  {
    if p < |allocation| {
      if !s.finished[p] && Leq(need[p], s.work) {
        var t := Scan(Add(s.work, allocation[p]), s.finished[p := true], s.order + [p]);
        PassProgress(need, allocation, p + 1, t);
        assert t.order[..|s.order|] == s.order;
      } else {
        PassProgress(need, allocation, p + 1, s);
      }
    }
  }

  /** The `while` loop: passes until every process is finished or a pass finishes nobody. */
  function Run(need: Matrix, allocation: Matrix, s: Scan): Verdict
    requires Shaped(need, allocation, s)
    decreases Unfinished(s.finished)
  {
    if false !in s.finished then Safe(s.order)
    else
      var t := Pass(need, allocation, 0, s);
      PassProgress(need, allocation, 0, s);
      if |t.order| == |s.order| then Unsafe else Run(need, allocation, t)
  }

  /** The state the check starts from: `work` a copy of `available`, nobody finished. */
  function Start(allocation: Matrix, available: Vector): (s: Scan)
    ensures s.work == available && s.order == [] && |s.finished| == |allocation|
    ensures forall q :: 0 <= q < |allocation| ==> !s.finished[q]
  {
    Scan(available, seq(|allocation|, _ => false), [])
  }

  /** The Banker's check of a state. */
  function SafetyCheck(allocation: Matrix, maxDemand: Matrix, available: Vector): Verdict
    requires WellShaped(allocation, maxDemand, available)
  {
    Run(Need(maxDemand, allocation), allocation, Start(allocation, available))
  }

  /** What holds of the scan state at every point of the check. */
  predicate Consistent(need: Matrix, allocation: Matrix, available: Vector, s: Scan) {
    Shaped(need, allocation, s) && |s.work| == |available| &&
    Ids(s.order, |allocation|) && Distinct(s.order) &&
    (forall q :: 0 <= q < |allocation| ==> (s.finished[q] <==> q in s.order)) &&
    s.work == WorkAfter(allocation, available, s.order) &&
    Replays(need, allocation, available, s.order)
  }

  lemma StartConsistent(allocation: Matrix, maxDemand: Matrix, available: Vector)
    requires WellShaped(allocation, maxDemand, available)
    ensures Consistent(Need(maxDemand, allocation), allocation, available, Start(allocation, available))
  {
    var s := Start(allocation, available);
    assert s.work == WorkAfter(allocation, available, []);
  }

  /** Appending `p` adds its allocation row to the work vector. */
  lemma WorkAfterAppend(allocation: Matrix, available: Vector, s: seq<nat>, p: nat)
    requires Rect(allocation, |available|) && Ids(s, |allocation|) && p < |allocation|
    ensures WorkAfter(allocation, available, s + [p]) == Add(WorkAfter(allocation, available, s), allocation[p])
  {
    assert (s + [p])[..|s|] == s;
  }

  /** Finishing one process whose need fits keeps the scan state consistent. */
  lemma FinishKeeps(need: Matrix, allocation: Matrix, available: Vector, s: Scan, p: nat)
    requires Consistent(need, allocation, available, s)
    requires p < |allocation| && !s.finished[p] && Leq(need[p], s.work)
    ensures Consistent(need, allocation, available,
                       Scan(Add(s.work, allocation[p]), s.finished[p := true], s.order + [p]))
  {
    var o := s.order + [p];
    WorkAfterAppend(allocation, available, s.order, p);
    forall k | 0 <= k < |o|
      ensures Leq(need[o[k]], WorkAfter(allocation, available, o[..k]))
    {
      if k < |s.order| {
        assert o[..k] == s.order[..k];
      } else {
        assert o[..k] == s.order;
      }
    }
  }

  /** A pass keeps the scan state consistent. */
  lemma {:induction false} PassKeeps(need: Matrix, allocation: Matrix, available: Vector, p: nat, s: Scan)
    requires Consistent(need, allocation, available, s) && p <= |allocation|
    ensures Consistent(need, allocation, available, Pass(need, allocation, p, s))
    decreases |allocation| - p
  {
    if p < |allocation| {
      if !s.finished[p] && Leq(need[p], s.work) {
        FinishKeeps(need, allocation, available, s, p);
        PassKeeps(need, allocation, available, p + 1,
                  Scan(Add(s.work, allocation[p]), s.finished[p := true], s.order + [p]));
      } else {
        PassKeeps(need, allocation, available, p + 1, s);
      }
    }
  }

  /** A pass that finishes nobody met only processes whose need exceeds `work`. */
  lemma {:induction false} PassStuck(need: Matrix, allocation: Matrix, p: nat, s: Scan)
    requires Shaped(need, allocation, s) && p <= |allocation|
    requires |Pass(need, allocation, p, s).order| == |s.order|
    ensures forall q :: p <= q < |allocation| && !s.finished[q] ==> !Leq(need[q], s.work)
    decreases |allocation| - p
  {
    if p < |allocation| {
      if !s.finished[p] && Leq(need[p], s.work) {
        PassProgress(need, allocation, p + 1, Scan(Add(s.work, allocation[p]), s.finished[p := true], s.order + [p]));
        assert false;
      } else {
        PassStuck(need, allocation, p + 1, s);
      }
    }
  }

  /** Conversely, a pass in which no unfinished process fits leaves the scan as it is. */
  lemma {:induction false} PassIdle(need: Matrix, allocation: Matrix, p: nat, s: Scan)
    requires Shaped(need, allocation, s) && p <= |allocation|
    requires forall q :: p <= q < |allocation| && !s.finished[q] ==> !Leq(need[q], s.work)
    ensures Pass(need, allocation, p, s) == s
    decreases |allocation| - p
  {
    if p < |allocation| {
      PassIdle(need, allocation, p + 1, s);
    }
  }

  /** A safe verdict from a consistent state lists a safe sequence. */
  lemma {:induction false} RunSafe(need: Matrix, allocation: Matrix, available: Vector, s: Scan)
    requires Consistent(need, allocation, available, s)
    requires Run(need, allocation, s).Safe?
    ensures IsSafeSequence(need, allocation, available, Run(need, allocation, s).sequence)
    decreases Unfinished(s.finished)
  {
    if false !in s.finished {
      forall q | 0 <= q < |allocation| ensures q in s.order {
        assert s.finished[q];
      }
    } else {
      var t := Pass(need, allocation, 0, s);
      PassProgress(need, allocation, 0, s);
      PassKeeps(need, allocation, available, 0, s);
      RunSafe(need, allocation, available, t);
    }
  }

  /** `Held` over a sequence equals `Held` without its `i`-th element plus that element's share. */
  lemma {:induction false} HeldRemove(allocation: Matrix, s: seq<nat>, i: nat, r: nat)
    requires Ids(s, |allocation|) && forall p :: 0 <= p < |allocation| ==> r < |allocation[p]|
    requires i < |s|
    ensures Held(allocation, s, r) == Held(allocation, s[..i] + s[i + 1..], r) + allocation[s[i]][r]
    decreases |s|
  {
    var n := |s| - 1;
    if i == n {
      assert s[..i] + s[i + 1..] == s[..n];
    } else {
      var s0 := s[..n];
      var rest := s0[..i] + s0[i + 1..];
      assert s[..i] + s[i + 1..] == rest + [s[n]];
      assert (rest + [s[n]])[..|rest|] == rest;
      HeldRemove(allocation, s0, i, r);
    }
  }

  /** Removing the `i`-th element of a distinct sequence leaves a distinct sequence
      of the other elements. */
  lemma RemoveAt<T>(a: seq<T>, i: nat)
    requires Distinct(a) && i < |a|
    ensures Distinct(a[..i] + a[i + 1..])
    ensures forall x :: x in a[..i] + a[i + 1..] ==> x in a && x != a[i]
  {
    var a0 := a[..i] + a[i + 1..];
    forall j | 0 <= j < |a0|
      ensures a0[j] == a[if j < i then j else j + 1]
    {
    }
  }

  /** With non-negative allocations, the processes of a distinct sequence `a` all
      occurring in a distinct sequence `b` hold no more than `b`'s. */
  lemma {:induction false} HeldSubset(allocation: Matrix, a: seq<nat>, b: seq<nat>, r: nat)
    requires Ids(a, |allocation|) && Ids(b, |allocation|)
    requires forall p :: 0 <= p < |allocation| ==> r < |allocation[p]|
    requires NonNegative(allocation) && Distinct(a) && Distinct(b)
    requires forall x :: x in a ==> x in b
    ensures Held(allocation, a, r) <= Held(allocation, b, r)
    decreases |b|
  {
    if b == [] {
      assert forall i :: 0 <= i < |a| ==> a[i] in b;
    } else {
      var b0 := b[..|b| - 1];
      var y := b[|b| - 1];
      assert b == b0 + [y];
      assert Distinct(b0) && y !in b0;
      if y in a {
        var i :| 0 <= i < |a| && a[i] == y;
        var a0 := a[..i] + a[i + 1..];
        HeldRemove(allocation, a, i, r);
        RemoveAt(a, i);
        forall x | x in a0 ensures x in b0 {
          assert x in b0 + [y];
        }
        assert Ids(a0, |allocation|) by {
          forall j | 0 <= j < |a0| ensures a0[j] < |allocation| {
            assert a0[j] in a;
          }
        }
        HeldSubset(allocation, a0, b0, r);
      } else {
        HeldSubset(allocation, a, b0, r);
        assert allocation[y][r] >= 0;
      }
    }
  }

  /** The processes of a distinct sequence that have all finished never released more
      than the finished ones together, provided allocations are non-negative. */
  lemma FinishedPrefixBound(need: Matrix, allocation: Matrix, available: Vector, s: Scan, before: seq<nat>)
    requires Consistent(need, allocation, available, s) && NonNegative(allocation)
    requires Ids(before, |allocation|) && Distinct(before)
    requires forall j :: 0 <= j < |before| ==> s.finished[before[j]]
    ensures Leq(WorkAfter(allocation, available, before), s.work)
  {
    forall x | x in before ensures x in s.order {
      var j :| 0 <= j < |before| && before[j] == x;
      assert s.finished[before[j]];
    }
    forall r | 0 <= r < |available|
      ensures WorkAfter(allocation, available, before)[r] <= s.work[r]
    {
      HeldSubset(allocation, before, s.order, r);
    }
  }

  /** The first position of `pi` holding an unfinished process, when there is one. */
  lemma FirstUnfinished(finished: seq<bool>, pi: seq<nat>, q0: nat) returns (k: nat)
    requires Ids(pi, |finished|) && q0 < |finished| && !finished[q0] && q0 in pi
    ensures k < |pi| && !finished[pi[k]]
    ensures forall j :: 0 <= j < k ==> finished[pi[j]]
  {
    var i0 :| 0 <= i0 < |pi| && pi[i0] == q0;
    k := 0;
    while finished[pi[k]]
      invariant 0 <= k <= i0
      invariant forall j :: 0 <= j < k ==> finished[pi[j]]
      decreases i0 - k
    {
      k := k + 1;
    }
  }

  /** In a safe sequence, the first process not yet finished by the scan has its need
      covered by the scan's current work, provided allocations are non-negative. */
  lemma FitsAtFirstUnfinished(need: Matrix, allocation: Matrix, available: Vector, s: Scan, pi: seq<nat>, k: nat)
    requires Consistent(need, allocation, available, s) && NonNegative(allocation)
    requires IsSafeSequence(need, allocation, available, pi)
    requires k < |pi| && forall j :: 0 <= j < k ==> s.finished[pi[j]]
    ensures Leq(need[pi[k]], s.work)
  {
    var before := pi[..k];
    FinishedPrefixBound(need, allocation, available, s, before);
    assert Leq(need[pi[k]], WorkAfter(allocation, available, before));
  }

  /** A consistent state where a pass finishes nobody while some process is unfinished
      admits no safe sequence, provided allocations are non-negative. */
  lemma StuckHasNoSafeSequence(need: Matrix, allocation: Matrix, available: Vector, s: Scan, pi: seq<nat>)
    requires Consistent(need, allocation, available, s) && NonNegative(allocation)
    requires false in s.finished
    requires forall q :: 0 <= q < |allocation| && !s.finished[q] ==> !Leq(need[q], s.work)
    ensures !IsSafeSequence(need, allocation, available, pi)
  {
    if IsSafeSequence(need, allocation, available, pi) {
      var q0 :| 0 <= q0 < |s.finished| && !s.finished[q0];
      assert q0 in pi;
      var k := FirstUnfinished(s.finished, pi, q0);
      FitsAtFirstUnfinished(need, allocation, available, s, pi, k);
      assert false;
    }
  }

  /** An unsafe verdict from a consistent state means no safe sequence exists. */
  lemma {:induction false} RunUnsafe(need: Matrix, allocation: Matrix, available: Vector, s: Scan, pi: seq<nat>)
    requires Consistent(need, allocation, available, s) && NonNegative(allocation)
    requires Run(need, allocation, s) == Unsafe
    ensures !IsSafeSequence(need, allocation, available, pi)
    decreases Unfinished(s.finished)
  {
    var t := Pass(need, allocation, 0, s);
    PassProgress(need, allocation, 0, s);
    if |t.order| == |s.order| {
      PassStuck(need, allocation, 0, s);
      StuckHasNoSafeSequence(need, allocation, available, s, pi);
    } else {
      PassKeeps(need, allocation, available, 0, s);
      RunUnsafe(need, allocation, available, t, pi);
    }
  }

  /** A safe verdict carries a safe sequence: every id exactly once, each need covered
      by the work released before it. */
  lemma SafeVerdictIsSafeSequence(allocation: Matrix, maxDemand: Matrix, available: Vector)
    requires WellShaped(allocation, maxDemand, available)
    requires SafetyCheck(allocation, maxDemand, available).Safe?
    ensures IsSafeSequence(Need(maxDemand, allocation), allocation, available,
                           SafetyCheck(allocation, maxDemand, available).sequence)
  {
    StartConsistent(allocation, maxDemand, available);
    RunSafe(Need(maxDemand, allocation), allocation, available, Start(allocation, available));
  }

  /** An unsafe verdict is final: with non-negative allocations no order of the
      processes is a safe sequence. */
  lemma UnsafeVerdictHasNoSafeSequence(allocation: Matrix, maxDemand: Matrix, available: Vector, pi: seq<nat>)
    requires WellShaped(allocation, maxDemand, available) && NonNegative(allocation)
    requires SafetyCheck(allocation, maxDemand, available) == Unsafe
    ensures !IsSafeSequence(Need(maxDemand, allocation), allocation, available, pi)
  {
    StartConsistent(allocation, maxDemand, available);
    RunUnsafe(Need(maxDemand, allocation), allocation, available, Start(allocation, available), pi);
  }

  /** With non-negative allocations the check says safe exactly when a safe sequence exists. */
  lemma SafeIffSafeSequenceExists(allocation: Matrix, maxDemand: Matrix, available: Vector)
    requires WellShaped(allocation, maxDemand, available) && NonNegative(allocation)
    ensures SafetyCheck(allocation, maxDemand, available).Safe? <==>
            exists pi :: IsSafeSequence(Need(maxDemand, allocation), allocation, available, pi)
  {
    var v := SafetyCheck(allocation, maxDemand, available);
    if v.Safe? {
      SafeVerdictIsSafeSequence(allocation, maxDemand, available);
    } else {
      forall pi ensures !IsSafeSequence(Need(maxDemand, allocation), allocation, available, pi) {
        UnsafeVerdictHasNoSafeSequence(allocation, maxDemand, available, pi);
      }
    }
  }

  /** What the Banker's verdict means: a safe verdict carries a safe sequence, and an
      unsafe one (with no negative allocation) means no safe sequence exists. */
  lemma VerdictMeaning(allocation: Matrix, maxDemand: Matrix, available: Vector)
    requires WellShaped(allocation, maxDemand, available)
    ensures SafetyCheck(allocation, maxDemand, available).Safe? ==>
              IsSafeSequence(Need(maxDemand, allocation), allocation, available,
                             SafetyCheck(allocation, maxDemand, available).sequence)
    ensures SafetyCheck(allocation, maxDemand, available) == Unsafe && NonNegative(allocation) ==>
              forall pi :: !IsSafeSequence(Need(maxDemand, allocation), allocation, available, pi)
  {
    if SafetyCheck(allocation, maxDemand, available).Safe? {
      SafeVerdictIsSafeSequence(allocation, maxDemand, available);
    } else if NonNegative(allocation) {
      forall pi ensures !IsSafeSequence(Need(maxDemand, allocation), allocation, available, pi) {
        UnsafeVerdictHasNoSafeSequence(allocation, maxDemand, available, pi);
      }
    }
  }

  /** With no processes the `while` body never runs: safe, with the empty sequence. */
  lemma NoProcessesIsSafe(available: Vector)
    ensures SafetyCheck([], [], available) == Safe([])
  {
  }

  /** The classic textbook state: five processes, three resource types. */
  function ClassicAllocation(): Matrix {
    [[0, 1, 0], [2, 0, 0], [3, 0, 2], [2, 1, 1], [0, 0, 2]]
  }

  function ClassicMaxDemand(): Matrix {
    [[7, 5, 3], [3, 2, 2], [9, 0, 2], [2, 2, 2], [4, 3, 3]]
  }

  /** `max_demand - allocation` for the classic state. */
  function ClassicNeed(): Matrix {
    [[7, 4, 3], [1, 2, 2], [6, 0, 0], [0, 1, 1], [4, 3, 1]]
  }

  lemma ClassicNeedIs()
    ensures Need(ClassicMaxDemand(), ClassicAllocation()) == ClassicNeed()
  {
    var n := Need(ClassicMaxDemand(), ClassicAllocation());
    forall p | 0 <= p < 5 ensures n[p] == [[7, 4, 3], [1, 2, 2], [6, 0, 0], [0, 1, 1], [4, 3, 1]][p] {
    }
  }

  /** A step of a pass that finishes `p`, moving to the state `t`. */
  lemma PassTake(need: Matrix, allocation: Matrix, p: nat, s: Scan, t: Scan)
    requires Shaped(need, allocation, s) && p < |allocation|
    requires !s.finished[p] && Leq(need[p], s.work)
    requires t.work == Add(s.work, allocation[p]) && t.finished == s.finished[p := true] && t.order == s.order + [p]
    ensures Pass(need, allocation, p, s) == Pass(need, allocation, p + 1, t)
  {
  }

  /** A step of a pass that leaves `p` as it is. */
  lemma PassSkip(need: Matrix, allocation: Matrix, p: nat, s: Scan)
    requires Shaped(need, allocation, s) && p < |allocation|
    requires s.finished[p] || !Leq(need[p], s.work)
    ensures Pass(need, allocation, p, s) == Pass(need, allocation, p + 1, s)
  {
  }

  /** The scan states the classic state goes through with `available = [3, 3, 2]`. */
  function ClassicScan(i: nat): Scan
    requires i < 6
  {
    match i
    case 0 => Scan([3, 3, 2], [false, false, false, false, false], [])
    case 1 => Scan([5, 3, 2], [false, true, false, false, false], [1])
    case 2 => Scan([7, 4, 3], [false, true, false, true, false], [1, 3])
    case 3 => Scan([7, 4, 5], [false, true, false, true, true], [1, 3, 4])
    case 4 => Scan([7, 5, 5], [true, true, false, true, true], [1, 3, 4, 0])
    case 5 => Scan([10, 5, 7], [true, true, true, true, true], [1, 3, 4, 0, 2])
  }

  /** First pass, id 0: it does not fit. */
  lemma ClassicPass1Skip0(a: Matrix, need: Matrix, s0: Scan)
    requires a == ClassicAllocation() && need == ClassicNeed() && s0 == ClassicScan(0)
    ensures Pass(need, a, 0, s0) == Pass(need, a, 1, s0)
  {
    assert !Leq(need[0], s0.work) by { assert need[0][0] > s0.work[0]; }
    PassSkip(need, a, 0, s0);
  }

  /** First pass, id 1: it fits and finishes. */
  lemma ClassicPass1Take1(a: Matrix, need: Matrix, s0: Scan, t1: Scan)
    requires a == ClassicAllocation() && need == ClassicNeed() && s0 == ClassicScan(0) && t1 == ClassicScan(1)
    ensures Pass(need, a, 1, s0) == Pass(need, a, 2, t1)
  {
    assert Add(s0.work, a[1]) == t1.work;
    assert s0.finished[1 := true] == t1.finished;
    PassTake(need, a, 1, s0, t1);
  }

  /** First pass, ids 0 and 1: 0 does not fit, 1 does. */
  lemma ClassicPass1a(a: Matrix, need: Matrix, s0: Scan, t1: Scan)
    requires a == ClassicAllocation() && need == ClassicNeed() && s0 == ClassicScan(0) && t1 == ClassicScan(1)
    ensures Pass(need, a, 0, s0) == Pass(need, a, 2, t1)
  {
    ClassicPass1Skip0(a, need, s0);
    ClassicPass1Take1(a, need, s0, t1);
  }

  /** First pass, ids 2 and 3: 2 does not fit, 3 does. */
  lemma ClassicPass1Take3(a: Matrix, need: Matrix, t1: Scan, t3: Scan)
    requires a == ClassicAllocation() && need == ClassicNeed()
    requires t1 == ClassicScan(1) && t3 == ClassicScan(2)
    ensures Pass(need, a, 2, t1) == Pass(need, a, 4, t3)
  {
    assert !Leq(need[2], t1.work) by { assert need[2][0] > t1.work[0]; }
    PassSkip(need, a, 2, t1);
    assert Add(t1.work, a[3]) == t3.work;
    assert t1.finished[3 := true] == t3.finished;
    PassTake(need, a, 3, t1, t3);
  }

  /** First pass, id 4: it fits only because it sees the work that 1 and 3
      released. */
  lemma ClassicPass1Take4(a: Matrix, need: Matrix, t3: Scan, s1: Scan)
    requires a == ClassicAllocation() && need == ClassicNeed()
    requires t3 == ClassicScan(2) && s1 == ClassicScan(3)
    ensures Pass(need, a, 4, t3) == s1
  {
    assert Add(t3.work, a[4]) == s1.work;
    assert t3.finished[4 := true] == s1.finished;
    PassTake(need, a, 4, t3, s1);
  }

  /** The whole first pass. */
  lemma ClassicPass1(a: Matrix, need: Matrix, s0: Scan, s1: Scan)
    requires a == ClassicAllocation() && need == ClassicNeed()
    requires s0 == ClassicScan(0) && s1 == ClassicScan(3)
    ensures Pass(need, a, 0, s0) == s1
  {
    ClassicPass1a(a, need, s0, ClassicScan(1));
    ClassicPass1Take3(a, need, ClassicScan(1), ClassicScan(2));
    ClassicPass1Take4(a, need, ClassicScan(2), s1);
  }

  /** Second pass, ids 0 and 1: 0 now fits, 1 has finished. */
  lemma ClassicPass2Take0(a: Matrix, need: Matrix, s1: Scan, u0: Scan)
    requires a == ClassicAllocation() && need == ClassicNeed()
    requires s1 == ClassicScan(3) && u0 == ClassicScan(4)
    ensures Pass(need, a, 0, s1) == Pass(need, a, 2, u0)
  {
    assert Add(s1.work, a[0]) == u0.work;
    assert s1.finished[0 := true] == u0.finished;
    PassTake(need, a, 0, s1, u0);
    PassSkip(need, a, 1, u0);
  }

  /** Second pass, ids 2 to 4: 2 fits, 3 and 4 have finished. */
  lemma ClassicPass2Take2(a: Matrix, need: Matrix, u0: Scan, s2: Scan)
    requires a == ClassicAllocation() && need == ClassicNeed()
    requires u0 == ClassicScan(4) && s2 == ClassicScan(5)
    ensures Pass(need, a, 2, u0) == s2
  {
    assert Add(u0.work, a[2]) == s2.work;
    assert u0.finished[2 := true] == s2.finished;
    PassTake(need, a, 2, u0, s2);
    PassSkip(need, a, 3, s2);
    PassSkip(need, a, 4, s2);
  }

  /** Second pass: 0 and then 2 fit; every process has finished. */
  lemma ClassicPass2(a: Matrix, need: Matrix, s1: Scan, s2: Scan)
    requires a == ClassicAllocation() && need == ClassicNeed()
    requires s1 == ClassicScan(3) && s2 == ClassicScan(5)
    ensures Pass(need, a, 0, s1) == s2
  {
    ClassicPass2Take0(a, need, s1, ClassicScan(4));
    ClassicPass2Take2(a, need, ClassicScan(4), s2);
  }

  /** The classic state with `available = [3, 3, 2]` is safe with the sequence
      1, 3, 4, 0, 2 (a scan restarting from id 0 after each finish would give 1, 3, 0, ...). */
  lemma ClassicFixtureIsSafe()
    ensures SafetyCheck(ClassicAllocation(), ClassicMaxDemand(), [3, 3, 2]) == Safe([1, 3, 4, 0, 2])
  {
    ClassicNeedIs();
    assert Start(ClassicAllocation(), [3, 3, 2]) == ClassicScan(0);
    ClassicRun1(ClassicAllocation(), ClassicNeed(), ClassicScan(0), ClassicScan(3));
    ClassicRun2(ClassicAllocation(), ClassicNeed(), ClassicScan(3), ClassicScan(5));
  }

  /** A pass that finishes somebody hands over to the next turn of the `while` loop. */
  lemma RunContinues(need: Matrix, allocation: Matrix, s: Scan, t: Scan)
    requires Shaped(need, allocation, s) && false in s.finished
    requires Pass(need, allocation, 0, s) == t && |t.order| != |s.order|
    ensures Shaped(need, allocation, t)
    ensures Run(need, allocation, s) == Run(need, allocation, t)
  {
    PassProgress(need, allocation, 0, s);
  }

  /** The first turn of the `while` loop on the classic state. */
  lemma ClassicRun1(a: Matrix, need: Matrix, s0: Scan, s1: Scan)
    requires a == ClassicAllocation() && need == ClassicNeed()
    requires s0 == ClassicScan(0) && s1 == ClassicScan(3)
    ensures Shaped(need, a, s0) && Shaped(need, a, s1)
    ensures Run(need, a, s0) == Run(need, a, s1)
  {
    ClassicShaped(a, need, 0, s0);
    ClassicPass1(a, need, s0, s1);
    assert !s0.finished[0];
    RunContinues(need, a, s0, s1);
  }

  /** One turn of the `while` loop from a consistent state with someone unfinished:
      the pass keeps the state consistent, and either finishes nobody, making the
      verdict unsafe, or finishes someone and leaves the verdict to the next turn. */
  lemma RunStep(need: Matrix, allocation: Matrix, available: Vector, s: Scan)
    requires Consistent(need, allocation, available, s) && false in s.finished
    ensures Consistent(need, allocation, available, Pass(need, allocation, 0, s))
    ensures |Pass(need, allocation, 0, s).order| == |s.order| ==> Run(need, allocation, s) == Unsafe
    ensures |Pass(need, allocation, 0, s).order| != |s.order| ==>
              Run(need, allocation, s) == Run(need, allocation, Pass(need, allocation, 0, s)) &&
              Unfinished(Pass(need, allocation, 0, s).finished) < Unfinished(s.finished)
  {
    PassProgress(need, allocation, 0, s);
    PassKeeps(need, allocation, available, 0, s);
  }

  /** The classic matrices fit every scan state of the run. */
  lemma ClassicShaped(a: Matrix, need: Matrix, i: nat, s: Scan)
    requires a == ClassicAllocation() && need == ClassicNeed() && i < 6 && s == ClassicScan(i)
    ensures Shaped(need, a, s)
  {
  }

  /** The second turn finishes everybody; the third finds nobody unfinished. */
  lemma ClassicRun2(a: Matrix, need: Matrix, s1: Scan, s2: Scan)
    requires a == ClassicAllocation() && need == ClassicNeed()
    requires s1 == ClassicScan(3) && s2 == ClassicScan(5)
    ensures Shaped(need, a, s1) && Run(need, a, s1) == Safe([1, 3, 4, 0, 2])
  {
    ClassicShaped(a, need, 3, s1);
    ClassicPass2(a, need, s1, s2);
    assert !s1.finished[2];
    RunContinues(need, a, s1, s2);
  }

  /** With nothing available no need fits and the first pass finishes nobody. */
  lemma ClassicFixtureWithoutResourcesIsUnsafe()
    ensures SafetyCheck(ClassicAllocation(), ClassicMaxDemand(), [0, 0, 0]) == Unsafe
  {
    var a, need := ClassicAllocation(), ClassicNeed();
    ClassicNeedIs();
    var s0 := Start(a, [0, 0, 0]);
    ClassicNothingFits(need, s0.work);
    PassIdle(need, a, 0, s0);
    assert !s0.finished[0];
  }

  /** With nothing free, no process of the classic state can start. */
  lemma ClassicNothingFits(need: Matrix, work: Vector)
    requires need == ClassicNeed() && work == [0, 0, 0]
    ensures forall q :: 0 <= q < 5 ==> !Leq(need[q], work)
  {
    assert need[0][0] > work[0] && need[1][0] > work[0] && need[2][0] > work[0];
    assert need[3][1] > work[1] && need[4][0] > work[0];
  }
}
