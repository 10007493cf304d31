/** One Jacobi rotation and what it keeps (CorrelationMatrixEditor.tsx). */
module Jacobi {
  import opened Matrices
  import opened RealArith
  import opened Sequences

  // ----- Trigonometry -----

  /** The functions of the runtime the algorithm calls. */
  datatype Trig = Trig(pi: real, cos: real -> real, sin: real -> real, atan2: (real, real) -> real)

  predicate Unit(c: real, s: real) {
    c * c + s * s == 1.0
  }

  /** (c, s) points half-way to the direction (x, y). */
  predicate HalfWay(c: real, s: real, y: real, x: real) {
    (c * c - s * s) * y == 2.0 * (c * s) * x
  }

  /** The laws of trigonometry the algorithm relies on. */
  ghost predicate Lawful(trig: Trig) {
    && (forall t :: Unit(trig.cos(t), trig.sin(t)))
    && trig.cos(trig.pi / 4.0) == trig.sin(trig.pi / 4.0)
    && (forall y, x :: HalfWay(trig.cos(0.5 * trig.atan2(y, x)), trig.sin(0.5 * trig.atan2(y, x)), y, x))
  }

  const NEAR: real := 0.000000000000001
  const THRESHOLD: real := 0.000000000001

  function Theta(trig: Trig, app: real, aqq: real, apq: real): real {
    if Abs(app - aqq) < NEAR then trig.pi / 4.0 else 0.5 * trig.atan2(2.0 * apq, app - aqq)
  }

  // ----- The rotation -----

  function NewApp(c: real, s: real, app: real, aqq: real, apq: real): real {
    c * c * app + 2.0 * s * c * apq + s * s * aqq
  }

  function NewAqq(c: real, s: real, app: real, aqq: real, apq: real): real {
    s * s * app - 2.0 * s * c * apq + c * c * aqq
  }

  /** c * x + s * y */
  function Mix(c: real, x: real, s: real, y: real): real {
    c * x + s * y
  }

  predicate Pair(m: Matrix, p: nat, q: nat) {
    p < q < |m|
  }

  /** Entry (i, j) after rotating rows and columns p and q. */
  function RotatedAt(m: Matrix, p: nat, q: nat, c: real, s: real, i: nat, j: nat): real
    requires Square(m) && Pair(m, p, q) && i < |m| && j < |m|
  {
    if i == p && j == p then NewApp(c, s, m[p][p], m[q][q], m[p][q])
    else if i == q && j == q then NewAqq(c, s, m[p][p], m[q][q], m[p][q])
    else if (i == p && j == q) || (i == q && j == p) then 0.0
    else if j == p then Mix(c, m[i][p], s, m[i][q])
    else if j == q then Mix(-s, m[i][p], c, m[i][q])
    else if i == p then Mix(c, m[j][p], s, m[j][q])
    else if i == q then Mix(-s, m[j][p], c, m[j][q])
    else m[i][j]
  }

  function RotatedRow(m: Matrix, p: nat, q: nat, c: real, s: real, i: nat): (r: seq<real>)
    requires Square(m) && Pair(m, p, q) && i < |m|
    ensures |r| == |m|
  {
    seq(|m|, j requires 0 <= j < |m| => RotatedAt(m, p, q, c, s, i, j))
  }

  function Rotated(m: Matrix, p: nat, q: nat, c: real, s: real): (r: Matrix)
    requires Square(m) && Pair(m, p, q)
    ensures Square(r) && |r| == |m|
  {
    seq(|m|, i requires 0 <= i < |m| => RotatedRow(m, p, q, c, s, i))
  }

  lemma RotatedEntry(m: Matrix, p: nat, q: nat, c: real, s: real, i: nat, j: nat)
    requires Square(m) && Pair(m, p, q) && i < |m| && j < |m|
    ensures Rotated(m, p, q, c, s)[i][j] == RotatedAt(m, p, q, c, s, i, j)
  {
    assert Rotated(m, p, q, c, s)[i] == RotatedRow(m, p, q, c, s, i);
  }

  lemma RotatedIsSymmetric(m: Matrix, p: nat, q: nat, c: real, s: real)
    requires Symmetric(m) && Pair(m, p, q)
    ensures Symmetric(Rotated(m, p, q, c, s))
  {
    forall i, j | 0 <= i < |m| && 0 <= j < |m|
      ensures Rotated(m, p, q, c, s)[i][j] == Rotated(m, p, q, c, s)[j][i]
    {
      RotatedEntry(m, p, q, c, s, i, j);
      RotatedEntry(m, p, q, c, s, j, i);
    }
  }

  // ----- What a rotation keeps -----

  /** The entry the exact rotation would leave at (p, q), where the code stores zero. */
  function Leftover(c: real, s: real, app: real, aqq: real, apq: real): real {
    (c * c - s * s) * apq - c * s * (app - aqq)
  }

  lemma DiagonalSum(c: real, s: real, app: real, aqq: real, apq: real)
    requires Unit(c, s)
    ensures NewApp(c, s, app, aqq, apq) + NewAqq(c, s, app, aqq, apq) == app + aqq
  {
    assert NewApp(c, s, app, aqq, apq) + NewAqq(c, s, app, aqq, apq) == (c * c + s * s) * (app + aqq);
  }

  lemma TraceKept(m: Matrix, p: nat, q: nat, c: real, s: real)
    requires Square(m) && Pair(m, p, q) && Unit(c, s)
    ensures Trace(Rotated(m, p, q, c, s)) == Trace(m)
  {
    var r := Rotated(m, p, q, c, s);
    forall k | 0 <= k < |m|
      ensures Diagonal(r)[k] == RotatedAt(m, p, q, c, s, k, k)
    {
      RotatedEntry(m, p, q, c, s, k, k);
    }
    DiagonalSum(c, s, m[p][p], m[q][q], m[p][q]);
    SumChangeTwo(Diagonal(m), Diagonal(r), p, q);
  }

  lemma MixKeepsSquares(c: real, s: real, x: real, y: real)
    requires Unit(c, s)
    ensures Times(Mix(c, x, s, y), Mix(c, x, s, y)) + Times(Mix(-s, x, c, y), Mix(-s, x, c, y)) == Times(x, x) + Times(y, y)
  {
    var u, v := Mix(c, x, s, y), Mix(-s, x, c, y);
    assert u * u == c * c * (x * x) + 2.0 * (c * s) * (x * y) + s * s * (y * y);
    assert v * v == s * s * (x * x) - 2.0 * (c * s) * (x * y) + c * c * (y * y);
    assert u * u + v * v == (c * c + s * s) * (x * x) + (c * c + s * s) * (y * y);
  }

  /** Rows other than p and q keep the sum of their off-diagonal squares. */
  lemma OtherRowKept(m: Matrix, p: nat, q: nat, c: real, s: real, i: nat)
    requires Square(m) && Pair(m, p, q) && Unit(c, s) && i < |m| && i != p && i != q
    ensures Sum(OffRow(Rotated(m, p, q, c, s), i)) == Sum(OffRow(m, i))
  {
    var r := Rotated(m, p, q, c, s);
    forall j | 0 <= j < |m|
      ensures OffRow(r, i)[j] == if i == j then 0.0 else Times(RotatedAt(m, p, q, c, s, i, j), RotatedAt(m, p, q, c, s, i, j))
    {
      RotatedEntry(m, p, q, c, s, i, j);
    }
    MixKeepsSquares(c, s, m[i][p], m[i][q]);
    SumChangeTwo(OffRow(m, i), OffRow(r, i), p, q);
  }

  /** Rows p and q together lose twice the square of the pivot. */
  lemma PivotRowsDrop(m: Matrix, p: nat, q: nat, c: real, s: real)
    requires Symmetric(m) && Pair(m, p, q) && Unit(c, s)
    ensures var r := Rotated(m, p, q, c, s);
            Sum(OffRow(r, p)) + Sum(OffRow(r, q)) == Sum(OffRow(m, p)) + Sum(OffRow(m, q)) - 2.0 * Times(m[p][q], m[p][q])
  {
    var r := Rotated(m, p, q, c, s);
    var was, now := AddSeries(OffRow(m, p), OffRow(m, q)), AddSeries(OffRow(r, p), OffRow(r, q));
    SumAddSeries(OffRow(m, p), OffRow(m, q));
    SumAddSeries(OffRow(r, p), OffRow(r, q));
    forall j | 0 <= j < |m|
      ensures j != p && j != q ==> was[j] == now[j]
      ensures j == p || j == q ==> now[j] == 0.0 && was[j] == Times(m[p][q], m[p][q])
    {
      RotatedEntry(m, p, q, c, s, p, j);
      RotatedEntry(m, p, q, c, s, q, j);
      assert m[p][j] == m[j][p] && m[q][j] == m[j][q];
      if j != p && j != q {
        MixKeepsSquares(c, s, m[j][p], m[j][q]);
      }
    }
    SumChangeTwo(was, now, p, q);
  }

  /** The off-diagonal squares drop by exactly twice the square of the pivot. */
  lemma OffSquaresDrop(m: Matrix, p: nat, q: nat, c: real, s: real)
    requires Symmetric(m) && Pair(m, p, q) && Unit(c, s)
    ensures OffSquares(Rotated(m, p, q, c, s)) == OffSquares(m) - 2.0 * Times(m[p][q], m[p][q])
  {
    var r := Rotated(m, p, q, c, s);
    forall i | 0 <= i < |m| && i != p && i != q
      ensures OffRowSums(m)[i] == OffRowSums(r)[i]
    {
      OtherRowKept(m, p, q, c, s, i);
    }
    PivotRowsDrop(m, p, q, c, s);
    SumChangeTwo(OffRowSums(m), OffRowSums(r), p, q);
  }

  lemma DiagonalSquares(c: real, s: real, app: real, aqq: real, apq: real)
    requires Unit(c, s)
    ensures var u, v, x := NewApp(c, s, app, aqq, apq), NewAqq(c, s, app, aqq, apq), Leftover(c, s, app, aqq, apq);
            Times(u, u) + Times(v, v) == Times(app, app) + Times(aqq, aqq) + 2.0 * Times(apq, apq) - 2.0 * Times(x, x)
  {
    SquaresOfMixed(c * c, s * s, c * s, app, aqq, apq);
  }

  lemma SquaresOfMixed(u: real, v: real, w: real, x: real, y: real, z: real)
    requires u + v == 1.0 && w * w == u * v
    ensures var a, b, d := u * x + 2.0 * w * z + v * y, v * x - 2.0 * w * z + u * y, (u - v) * z - w * (x - y);
            a * a + b * b == x * x + y * y + 2.0 * (z * z) - 2.0 * (d * d)
  {
    var a, b, d := u * x + 2.0 * w * z + v * y, v * x - 2.0 * w * z + u * y, (u - v) * z - w * (x - y);
    assert a + b == x + y by {
      assert a + b == (u + v) * (x + y);
    }
    var g, h := u - v, x - y;
    assert a - b == g * h + 4.0 * w * z;
    assert g * g + 4.0 * (w * w) == 1.0 by {
      assert (u + v) * (u + v) == g * g + 4.0 * (u * v);
    }
    assert (a - b) * (a - b) + 4.0 * (d * d) == h * h + 4.0 * (z * z) by {
      assert (a - b) * (a - b) == g * g * (h * h) + 8.0 * (g * h * w * z) + 16.0 * (w * w * (z * z));
      assert d * d == g * g * (z * z) - 2.0 * (g * h * w * z) + w * w * (h * h);
      assert (a - b) * (a - b) + 4.0 * (d * d) == (g * g + 4.0 * (w * w)) * (h * h) + 4.0 * (z * z) * (g * g + 4.0 * (w * w));
    }
    assert 2.0 * (a * a + b * b) == (a + b) * (a + b) + (a - b) * (a - b);
    assert 2.0 * (x * x + y * y) == (x + y) * (x + y) + h * h;
  }

  /** The sum of all squares drops by twice the square of the leftover, so it is kept exactly
      when the rotation angle annihilates the pivot. */
  lemma AllSquaresChange(m: Matrix, p: nat, q: nat, c: real, s: real)
    requires Symmetric(m) && Pair(m, p, q) && Unit(c, s)
    ensures var x := Leftover(c, s, m[p][p], m[q][q], m[p][q]);
            AllSquares(Rotated(m, p, q, c, s)) == AllSquares(m) - 2.0 * Times(x, x)
  {
    var r := Rotated(m, p, q, c, s);
    var d, e := Diagonal(m), Diagonal(r);
    forall k | 0 <= k < |m|
      ensures e[k] == RotatedAt(m, p, q, c, s, k, k)
    {
      RotatedEntry(m, p, q, c, s, k, k);
    }
    DotChangeTwo(d, d, e, e, p, q);
    DiagonalSquares(c, s, m[p][p], m[q][q], m[p][q]);
    OffSquaresDrop(m, p, q, c, s);
  }

  // ----- The angle -----

  /** The branch for nearly equal diagonal entries is taken although they differ. */
  predicate Inexact(app: real, aqq: real) {
    Abs(app - aqq) < NEAR && app != aqq
  }

  /** The chosen angle annihilates the pivot exactly unless the branch for nearly equal diagonal
      entries is taken although they differ; then half their distance is left over. */
  lemma AngleAnnihilates(trig: Trig, app: real, aqq: real, apq: real)
    requires Lawful(trig)
    ensures var t := Theta(trig, app, aqq, apq);
            var c, s := trig.cos(t), trig.sin(t);
            && Unit(c, s)
            && (Leftover(c, s, app, aqq, apq) == 0.0 <==> !Inexact(app, aqq))
            && (Inexact(app, aqq) ==> Leftover(c, s, app, aqq, apq) == (aqq - app) / 2.0)
            && Abs(Leftover(c, s, app, aqq, apq)) <= NEAR / 2.0
  {
    var t := Theta(trig, app, aqq, apq);
    var c, s := trig.cos(t), trig.sin(t);
    assert Unit(c, s);
    if Abs(app - aqq) < NEAR {
      assert c == s;
      assert c * s == 0.5;
      assert Leftover(c, s, app, aqq, apq) == -(0.5 * (app - aqq));
    } else {
      assert HalfWay(c, s, 2.0 * apq, app - aqq);
      assert (c * c - s * s) * (2.0 * apq) == 2.0 * ((c * c - s * s) * apq);
      assert 2.0 * (c * s) * (app - aqq) == 2.0 * (c * s * (app - aqq));
    }
  }
}
