/** Square matrices of reals: diagonal, off-diagonal squares, action on vectors. */
module Matrices {
  import opened InnerProducts
  import opened RealArith
  import opened Sequences

  type Matrix = seq<seq<real>>

  ghost predicate Square(m: Matrix) {
    forall i | 0 <= i < |m| :: |m[i]| == |m|
  }

  ghost predicate Symmetric(m: Matrix) {
    Square(m) && forall i, j | 0 <= i < |m| && 0 <= j < |m| :: m[i][j] == m[j][i]
  }

  function Diagonal(m: Matrix): (r: seq<real>)
    requires Square(m)
    ensures |r| == |m|
  {
    seq(|m|, i requires 0 <= i < |m| => m[i][i])
  }

  function Trace(m: Matrix): real
    requires Square(m)
  {
    Sum(Diagonal(m))
  }

  function OffTerm(m: Matrix, i: nat, j: nat): real
    requires Square(m) && i < |m| && j < |m|
  {
    if i == j then 0.0 else Times(m[i][j], m[i][j])
  }

  /** The squares of row i, with zero on the diagonal. */
  function OffRow(m: Matrix, i: nat): (r: seq<real>)
    requires Square(m) && i < |m|
    ensures |r| == |m|
  {
    seq(|m|, j requires 0 <= j < |m| => OffTerm(m, i, j))
  }

  function OffRowSums(m: Matrix): (r: seq<real>)
    requires Square(m)
    ensures |r| == |m|
  {
    seq(|m|, i requires 0 <= i < |m| => Sum(OffRow(m, i)))
  }

  /** The sum of the squares off the diagonal. */
  function OffSquares(m: Matrix): real
    requires Square(m)
  {
    Sum(OffRowSums(m))
  }

  /** The sum of all squares. */
  function AllSquares(m: Matrix): real
    requires Square(m)
  {
    Dot(Diagonal(m), Diagonal(m)) + OffSquares(m)
  }

  // ----- Sums that change in two places -----

  lemma SumChangeTwo(s: seq<real>, t: seq<real>, p: nat, q: nat)
    requires |s| == |t| && p < q < |s|
    requires forall k | 0 <= k < |s| && k != p && k != q :: s[k] == t[k]
    ensures Sum(t) == Sum(s) + (t[p] - s[p]) + (t[q] - s[q])
  {
    SumReplaced(s, p, t[p]);
    SumReplaced(s[p := t[p]], q, t[q]);
    assert t == s[p := t[p]][q := t[q]];
  }

  lemma {:induction false} SumAtMost(s: seq<real>, bound: real)
    requires forall k | 0 <= k < |s| :: s[k] <= bound
    ensures Sum(s) <= Manyfold(|s|, bound)
  {
    if s != [] {
      SumAtMost(s[1..], bound);
      OneMore(|s| - 1, bound);
    }
  }

  lemma {:induction false} SumAtLeast(s: seq<real>, k: nat)
    requires k < |s| && forall i | 0 <= i < |s| :: s[i] >= 0.0
    ensures Sum(s) >= s[k]
  {
    SumNonNegative(s[1..]);
    if k > 0 {
      SumAtLeast(s[1..], k - 1);
    }
  }

  lemma {:induction false} SumNonNegative(s: seq<real>)
    requires forall i | 0 <= i < |s| :: s[i] >= 0.0
    ensures Sum(s) >= 0.0
  {
    if s != [] {
      SumNonNegative(s[1..]);
    }
  }

  /** The products an inner product adds up. */
  function Products(a: seq<real>, b: seq<real>): (r: seq<real>)
    requires |a| == |b|
    ensures |r| == |a|
  {
    seq(|a|, i requires 0 <= i < |a| => Times(a[i], b[i]))
  }

  lemma {:induction false} DotIsSum(a: seq<real>, b: seq<real>)
    requires |a| == |b|
    ensures Dot(a, b) == Sum(Products(a, b))
  {
    if a != [] {
      DotIsSum(a[1..], b[1..]);
      forall i | 0 <= i < |a| - 1
        ensures Products(a, b)[1..][i] == Products(a[1..], b[1..])[i]
      {
        assert Products(a, b)[1..][i] == Products(a, b)[i + 1] == Times(a[i + 1], b[i + 1]);
      }
      assert Products(a, b)[1..] == Products(a[1..], b[1..]);
    }
  }

  /** Two inner products whose terms agree except at p and q. */
  lemma DotChangeTwo(a: seq<real>, b: seq<real>, c: seq<real>, d: seq<real>, p: nat, q: nat)
    requires |a| == |b| == |c| == |d| && p < q < |a|
    requires forall k | 0 <= k < |a| && k != p && k != q :: Times(a[k], b[k]) == Times(c[k], d[k])
    ensures Dot(c, d) == Dot(a, b) + (Times(c[p], d[p]) - Times(a[p], b[p])) + (Times(c[q], d[q]) - Times(a[q], b[q]))
  {
    DotIsSum(a, b);
    DotIsSum(c, d);
    SumChangeTwo(Products(a, b), Products(c, d), p, q);
  }

  // ----- Off-diagonal squares -----

  lemma RowSquaresNonNegative(m: Matrix, i: nat)
    requires Square(m) && i < |m|
    ensures forall j | 0 <= j < |m| :: OffRow(m, i)[j] >= 0.0
    ensures Sum(OffRow(m, i)) >= 0.0
  {
    forall j | 0 <= j < |m|
      ensures OffRow(m, i)[j] >= 0.0
    {
      SquareSign(m[i][j]);
    }
    SumNonNegative(OffRow(m, i));
  }

  /** No entry off the diagonal has a square above bb. */
  ghost predicate OffSquaresWithin(m: Matrix, bb: real)
    requires Square(m)
  {
    forall i, j | 0 <= i < |m| && 0 <= j < |m| && i != j :: Times(m[i][j], m[i][j]) <= bb
  }

  /** Then n (n - 1) bb bounds their sum. */
  lemma OffSquaresAtMost(m: Matrix, bb: real)
    requires Square(m) && |m| > 0 && OffSquaresWithin(m, bb)
    ensures OffSquares(m) <= Manyfold(|m|, Manyfold(|m| - 1, bb))
  {
    forall i | 0 <= i < |m|
      ensures OffRowSums(m)[i] <= Manyfold(|m| - 1, bb)
    {
      OffRowAtMost(m, bb, i);
    }
    SumAtMost(OffRowSums(m), Manyfold(|m| - 1, bb));
  }

  lemma OffRowAtMost(m: Matrix, bb: real, i: nat)
    requires Square(m) && i < |m| && OffSquaresWithin(m, bb)
    ensures Sum(OffRow(m, i)) <= Manyfold(|m| - 1, bb)
  {
    var row := OffRow(m, i);
    SumWithout(row, i);
    forall k: nat | k < |m| - 1
      ensures Without(row, i)[k] <= bb
    {
      WithoutFrom(row, i, k);
    }
    SumAtMost(Without(row, i), bb);
  }
}
