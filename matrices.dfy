/** Integer vectors and matrices of a fixed shape: the model's stand-in for the
    numpy arrays that the toolkit keeps (one row per process, one column per
    resource type). Integers are unbounded. */
module Matrices {

  type Vector = seq<int>
  type Matrix = seq<seq<int>>

  /** Every row of `m` has exactly `cols` entries. */
  predicate Rect(m: Matrix, cols: nat) {
    forall p :: 0 <= p < |m| ==> |m[p]| == cols
  }

  /** `m` has shape `rows` x `cols`. */
  predicate IsMatrix(m: Matrix, rows: nat, cols: nat) {
    |m| == rows && Rect(m, cols)
  }

  predicate NonNegative(m: Matrix) {
    forall p, r :: 0 <= p < |m| && 0 <= r < |m[p]| ==> m[p][r] >= 0
  }

  /** No element of `s` occurs twice. */
  predicate Distinct<T(==)>(s: seq<T>) {
    forall i, j :: 0 <= i < j < |s| ==> s[i] != s[j]
  }

  /** Every element of `s` is an id below `n`. */
  predicate Ids(s: seq<nat>, n: nat) {
    forall i :: 0 <= i < |s| ==> s[i] < n
  }

  function Zeros(n: nat): (z: Vector)
    ensures |z| == n && forall r :: 0 <= r < n ==> z[r] == 0
  {
    seq(n, _ => 0)
  }

  function ZeroMatrix(rows: nat, cols: nat): (z: Matrix)
    ensures IsMatrix(z, rows, cols)
    ensures forall p :: 0 <= p < rows ==> z[p] == Zeros(cols)
  {
    seq(rows, _ => Zeros(cols))
  }

  /** Componentwise sum (numpy's `a + b` on two vectors of one length). */
  function Add(a: Vector, b: Vector): (c: Vector)
    requires |a| == |b|
    ensures |c| == |a| && forall r :: 0 <= r < |a| ==> c[r] == a[r] + b[r]
  {
    seq(|a|, r requires 0 <= r < |a| => a[r] + b[r])
  }

  /** Componentwise `a <= b` for every entry (numpy's `(a <= b).all()`). */
  predicate Leq(a: Vector, b: Vector)
    requires |a| == |b|
  {
    forall r :: 0 <= r < |a| ==> a[r] <= b[r]
  }

  /** `max_demand - allocation`, entry by entry; entries may be negative. */
  function Need(maxDemand: Matrix, allocation: Matrix): (need: Matrix)
    requires |maxDemand| == |allocation|
    requires forall p :: 0 <= p < |allocation| ==> |maxDemand[p]| == |allocation[p]|
    ensures |need| == |allocation|
    ensures forall p :: 0 <= p < |need| ==> |need[p]| == |allocation[p]|
    ensures forall p, r :: 0 <= p < |need| && 0 <= r < |need[p]| ==>
              need[p][r] == maxDemand[p][r] - allocation[p][r]
  {
    seq(|allocation|, p requires 0 <= p < |allocation| =>
      seq(|allocation[p]|, r requires 0 <= r < |allocation[p]| => maxDemand[p][r] - allocation[p][r]))
  }

  /** Sum of one row (numpy's `sum` of a vector). */
  function RowSum(v: Vector): int
  {
    if v == [] then 0 else RowSum(v[..|v| - 1]) + v[|v| - 1]
  }

  /** The row sums of a matrix (numpy's `m.sum(axis=1)`). */
  function RowSums(m: Matrix): (s: seq<int>)
    ensures |s| == |m| && forall p :: 0 <= p < |m| ==> s[p] == RowSum(m[p])
  {
    seq(|m|, p requires 0 <= p < |m| => RowSum(m[p]))
  }

  /** Sum of column `r` over all rows. */
  function ColumnSum(m: Matrix, r: nat): int
    requires forall p :: 0 <= p < |m| ==> r < |m[p]|
  {
    if m == [] then 0 else ColumnSum(m[..|m| - 1], r) + m[|m| - 1][r]
  }
}
