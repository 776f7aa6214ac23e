/** The pieces of deadlock recovery: choosing the victim (numpy's `argmin` over
    the allocation row sums) and the bookkeeping of terminating it. */
module Recovery {
  import opened Matrices

  datatype Option<T> = None | Some(value: T)

  /** The index of the first minimum of `s`, as `np.argmin` returns it: no entry is
      smaller, and every entry before it is strictly larger. */
  function ArgMin(s: seq<int>): (k: nat)
    requires |s| > 0
    ensures k < |s|
    ensures forall q :: 0 <= q < |s| ==> s[k] <= s[q]
    ensures forall q :: 0 <= q < k ==> s[q] > s[k]
  {
    if |s| == 1 then 0
    else
      var k := ArgMin(s[..|s| - 1]);
      if s[|s| - 1] < s[k] then |s| - 1 else k
  }

  /** The two properties of `ArgMin` single out one index. */
  lemma FirstMinimumUnique(s: seq<int>, k: nat)
    requires k < |s|
    requires forall q :: 0 <= q < |s| ==> s[k] <= s[q]
    requires forall q :: 0 <= q < k ==> s[q] > s[k]
    ensures k == ArgMin(s)
  {
  }

  /** Replacing row `v` by `row` changes the sum of column `r` by exactly the
      difference of the two entries. */
  lemma {:induction false} ColumnSumUpdate(m: Matrix, v: nat, row: Vector, r: nat)
    requires v < |m| && r < |row|
    requires forall p :: 0 <= p < |m| ==> r < |m[p]|
    ensures ColumnSum(m[v := row], r) == ColumnSum(m, r) - m[v][r] + row[r]
    decreases |m|
  {
    var n := m[v := row];
    if v == |m| - 1 {
      assert n[..|n| - 1] == m[..|m| - 1];
    } else {
      assert n[..|n| - 1] == m[..|m| - 1][v := row];
      ColumnSumUpdate(m[..|m| - 1], v, row, r);
    }
  }

  /** Terminating process `v`: its row is credited to `available` and then zeroed.
      For every resource type, the free units plus the units held are the same
      before and after. */
  lemma TerminateConserves(available: Vector, allocation: Matrix, v: nat)
    requires v < |allocation| && Rect(allocation, |available|)
    ensures forall r :: 0 <= r < |available| ==>
              Add(available, allocation[v])[r] + ColumnSum(allocation[v := Zeros(|available|)], r)
              == available[r] + ColumnSum(allocation, r)
  {
    forall r | 0 <= r < |available|
      ensures Add(available, allocation[v])[r] + ColumnSum(allocation[v := Zeros(|available|)], r)
              == available[r] + ColumnSum(allocation, r)
    {
      ColumnSumUpdate(allocation, v, Zeros(|available|), r);
    }
  }

  /** The sum of a row of two entries. */
  lemma RowSumPair(v: Vector)
    requires |v| == 2
    ensures RowSum(v) == v[0] + v[1]
  {
    var u := v[..1];
    assert u[..0] == [];
    assert RowSum(u) == v[0];
    assert v[..|v| - 1] == u;
  }

  /** A row of zeros sums to zero. */
  lemma {:induction false} RowSumOfZeros(n: nat)
    ensures RowSum(Zeros(n)) == 0
    decreases n
  {
    if n > 0 {
      assert Zeros(n)[..n - 1] == Zeros(n - 1);
      RowSumOfZeros(n - 1);
    }
  }

  /** A row without negative entries has a non-negative sum, and sums to zero only
      when every entry is zero. */
  lemma {:induction false} RowSumNonNegative(v: Vector)
    requires forall i :: 0 <= i < |v| ==> v[i] >= 0
    ensures RowSum(v) >= 0
    ensures RowSum(v) == 0 ==> v == Zeros(|v|)
    decreases |v|
  {
    if v != [] {
      var u := v[..|v| - 1];
      RowSumNonNegative(u);
      if RowSum(v) == 0 {
        forall i | 0 <= i < |v| ensures v[i] == 0 {
          if i < |u| {
            assert v[i] == u[i];
          }
        }
      }
    }
  }

  /** With no negative allocation, if some process holds nothing then the victim is
      the lowest-id process holding nothing, and terminating it changes no
      allocation. */
  lemma IdleVictim(allocation: Matrix, R: nat, q: nat)
    requires IsMatrix(allocation, |allocation|, R) && NonNegative(allocation)
    requires q < |allocation| && allocation[q] == Zeros(R)
    ensures allocation[ArgMin(RowSums(allocation))] == Zeros(R)
    ensures forall j :: 0 <= j < ArgMin(RowSums(allocation)) ==> allocation[j] != Zeros(R)
    ensures allocation[ArgMin(RowSums(allocation)) := Zeros(R)] == allocation
  {
    var sums := RowSums(allocation);
    var k := ArgMin(sums);
    RowSumOfZeros(R);
    RowSumNonNegative(allocation[k]);
    assert sums[k] <= sums[q];
  }

  /** With a negative entry the argument fails: process 2 holds nothing, but process
      3, whose row sums to -1, is the victim. */
  lemma NegativeRowChosen(allocation: Matrix)
    requires allocation == [[1, 0], [0, 1], [0, 0], [0, -1]]
    ensures allocation[2] == Zeros(2)
    ensures ArgMin(RowSums(allocation)) == 3
  {
    var sums := RowSums(allocation);
    RowSumPair(allocation[0]);
    RowSumPair(allocation[1]);
    RowSumPair(allocation[2]);
    RowSumPair(allocation[3]);
    FirstMinimumUnique(sums, 3);
    assert Zeros(2) == allocation[2];
  }
}
