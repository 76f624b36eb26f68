/** Resource vectors and matrices, compared and combined entry by entry. */
module Vectors {

  type Vector = seq<int>
  type Matrix = seq<Vector>

  predicate IsMatrix(a: Matrix, n: nat, m: nat) {
    |a| == n && forall i :: 0 <= i < n ==> |a[i]| == m
  }

  predicate AtMost(u: Vector, v: Vector)
    requires |u| == |v|
  {
    forall j :: 0 <= j < |u| ==> u[j] <= v[j]
  }

  predicate NonNegative(v: Vector) {
    forall j :: 0 <= j < |v| ==> 0 <= v[j]
  }

  function Zeros(m: nat): (v: Vector)
    ensures |v| == m && forall j :: 0 <= j < m ==> v[j] == 0
  {
    seq(m, _ => 0)
  }

  function ZeroRows(n: nat, m: nat): (a: Matrix)
    ensures IsMatrix(a, n, m)
    ensures forall i :: 0 <= i < n ==> a[i] == Zeros(m)
  {
    seq(n, _ => Zeros(m))
  }

  function Plus(u: Vector, v: Vector): (w: Vector)
    requires |u| == |v|
    ensures |w| == |u| && forall j :: 0 <= j < |u| ==> w[j] == u[j] + v[j]
  {
    seq(|u|, j requires 0 <= j < |u| => u[j] + v[j])
  }

  function Minus(u: Vector, v: Vector): (w: Vector)
    requires |u| == |v|
    ensures |w| == |u| && forall j :: 0 <= j < |u| ==> w[j] == u[j] - v[j]
  {
    seq(|u|, j requires 0 <= j < |u| => u[j] - v[j])
  }

  /** The sum of column `j` over those of the first `n` rows that are in `rows`. */
  ghost function ColumnSum(a: Matrix, rows: set<int>, n: nat, j: nat): int
    requires n <= |a| && forall i :: 0 <= i < n ==> j < |a[i]|
  {
    if n == 0 then 0
    else ColumnSum(a, rows, n - 1, j) + if n - 1 in rows then a[n - 1][j] else 0
  }

  /** More rows with nonnegative entries never sum to less. */
  lemma {:induction false} ColumnSumMonotone(a: Matrix, fewer: set<int>, more: set<int>, n: nat, j: nat)
    requires n <= |a| && forall i :: 0 <= i < n ==> j < |a[i]| && 0 <= a[i][j]
    requires fewer <= more
    ensures 0 <= ColumnSum(a, fewer, n, j) <= ColumnSum(a, more, n, j)
  {
    if n > 0 {
      ColumnSumMonotone(a, fewer, more, n - 1, j);
    }
  }

  /** Rows that hold nothing in column `j` do not matter. */
  lemma {:induction false} ColumnSumIgnoresZeros(a: Matrix, rows: set<int>, rows': set<int>, n: nat, j: nat)
    requires n <= |a| && forall i :: 0 <= i < n ==> j < |a[i]|
    requires forall i :: 0 <= i < n && (i in rows) != (i in rows') ==> a[i][j] == 0
    ensures ColumnSum(a, rows, n, j) == ColumnSum(a, rows', n, j)
  {
    if n > 0 {
      ColumnSumIgnoresZeros(a, rows, rows', n - 1, j);
    }
  }

  /** Taking one more row into account adds exactly that row. */
  lemma {:induction false} ColumnSumAdd(a: Matrix, rows: set<int>, x: int, n: nat, j: nat)
    requires n <= |a| && forall i :: 0 <= i < n ==> j < |a[i]|
    requires x !in rows
    ensures ColumnSum(a, rows + {x}, n, j) ==
            ColumnSum(a, rows, n, j) + if 0 <= x < n then a[x][j] else 0
  {
    if n > 0 {
      ColumnSumAdd(a, rows, x, n - 1, j);
    }
  }

  /** Replacing one row changes the sum by the difference, if that row counts. */
  lemma {:induction false} ColumnSumUpdate(a: Matrix, t: int, row: Vector, rows: set<int>, n: nat, j: nat)
    requires n <= |a| && 0 <= t < |a| && j < |row| && j < |a[t]|
    requires forall i :: 0 <= i < n ==> j < |a[i]|
    ensures ColumnSum(a[t := row], rows, n, j) ==
            ColumnSum(a, rows, n, j) + if t < n && t in rows then row[j] - a[t][j] else 0
  {
    if n > 0 {
      ColumnSumUpdate(a, t, row, rows, n - 1, j);
    }
  }
}
