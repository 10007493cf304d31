/** A rotation carries approximate eigenvectors along (CorrelationMatrixEditor.tsx). */
module EigenSteps {
  import opened InnerProducts
  import opened Jacobi
  import opened Matrices
  import opened RealArith
  import opened Sequences

  // ----- Turning vectors along with the matrix -----

  function Turn(v: seq<real>, p: nat, q: nat, c: real, s: real): (r: seq<real>)
    requires p < q < |v|
    ensures |r| == |v|
  {
    v[p := Mix(c, v[p], s, v[q])][q := Mix(-s, v[p], c, v[q])]
  }

  lemma TurnOutside(v: seq<real>, p: nat, q: nat, c: real, s: real)
    requires p < q < |v|
    ensures forall j | 0 <= j < |v| && j != p && j != q :: Turn(v, p, q, c, s)[j] == v[j]
    ensures Turn(v, p, q, c, s)[p] == Mix(c, v[p], s, v[q])
    ensures Turn(v, p, q, c, s)[q] == Mix(-s, v[p], c, v[q])
  {
  }

  lemma MixBack(c: real, s: real, x: real, y: real)
    requires Unit(c, s)
    ensures Mix(c, Mix(c, x, s, y), -s, Mix(-s, x, c, y)) == x
    ensures Mix(s, Mix(c, x, s, y), c, Mix(-s, x, c, y)) == y
  {
    assert c * (c * x + s * y) - s * (-s * x + c * y) == (c * c + s * s) * x;
    assert s * (c * x + s * y) + c * (-s * x + c * y) == (c * c + s * s) * y;
  }

  lemma TurnBack(v: seq<real>, p: nat, q: nat, c: real, s: real)
    requires p < q < |v| && Unit(c, s)
    ensures Turn(Turn(v, p, q, c, s), p, q, c, -s) == v
    ensures Turn(Turn(v, p, q, c, -s), p, q, c, s) == v
  {
    MixBack(c, s, v[p], v[q]);
    assert Unit(c, -s);
    MixBack(c, -s, v[p], v[q]);
    assert -(-s) == s;
  }

  lemma TurnKeepsLength(v: seq<real>, p: nat, q: nat, c: real, s: real)
    requires p < q < |v| && Unit(c, s)
    ensures Dot(Turn(v, p, q, c, s), Turn(v, p, q, c, s)) == Dot(v, v)
  {
    var w := Turn(v, p, q, c, s);
    DotChangeTwo(v, v, w, w, p, q);
    MixKeepsSquares(c, s, v[p], v[q]);
  }

  // ----- Approximate eigenpairs -----

  /** m v - d v */
  function Deviation(m: Matrix, v: seq<real>, d: real): (r: seq<real>)
    requires Square(m) && |v| == |m|
    ensures |r| == |v|
  {
    seq(|m|, i requires 0 <= i < |m| => Dot(m[i], v) - Times(d, v[i]))
  }

  /** v is, up to b times its length, an eigenvector for d. */
  ghost predicate Near(m: Matrix, v: seq<real>, d: real, b: real) {
    && Square(m)
    && |v| == |m|
    && b >= 0.0
    && Dot(Deviation(m, v, d), Deviation(m, v, d)) <= Times(b * b, Dot(v, v))
  }

  ghost predicate IsEigenpair(m: Matrix, v: seq<real>, d: real) {
    && Square(m)
    && |v| == |m|
    && (forall i | 0 <= i < |m| :: Dot(m[i], v) == d * v[i])
    && exists i | 0 <= i < |v| :: v[i] != 0.0
  }

  lemma {:induction false} DotMix(c: real, a: seq<real>, s: real, b: seq<real>, v: seq<real>)
    requires |a| == |b| == |v|
    ensures Dot(Mixed(c, a, s, b), v) == Mix(c, Dot(a, v), s, Dot(b, v))
  {
    if v != [] {
      var g := Mixed(c, a, s, b);
      DotMix(c, a[1..], s, b[1..], v[1..]);
      forall i | 0 <= i < |v| - 1
        ensures g[1..][i] == Mixed(c, a[1..], s, b[1..])[i]
      {
        assert g[1..][i] == g[i + 1] == Mix(c, a[i + 1], s, b[i + 1]);
      }
      assert g[1..] == Mixed(c, a[1..], s, b[1..]);
      MixOfSums(c, a[0], s, b[0], v[0], Dot(a[1..], v[1..]), Dot(b[1..], v[1..]));
    }
  }

  lemma MixOfSums(c: real, x: real, s: real, y: real, v: real, u: real, w: real)
    ensures Mix(c, x, s, y) * v + Mix(c, u, s, w) == Mix(c, x * v + u, s, y * v + w)
  {
    assert (c * x + s * y) * v == c * (x * v) + s * (y * v);
    assert c * (x * v + u) == c * (x * v) + c * u;
    assert s * (y * v + w) == s * (y * v) + s * w;
  }

  function Mixed(c: real, a: seq<real>, s: real, b: seq<real>): (r: seq<real>)
    requires |a| == |b|
    ensures |r| == |a|
  {
    seq(|a|, i requires 0 <= i < |a| => Mix(c, a[i], s, b[i]))
  }

  lemma MixKeepsProducts(c: real, s: real, x: real, y: real, v: real, w: real)
    requires Unit(c, s)
    ensures Times(Mix(c, x, s, y), Mix(c, v, s, w)) + Times(Mix(-s, x, c, y), Mix(-s, v, c, w)) == Times(x, v) + Times(y, w)
  {
    MixedProducts(c, s, x, y, v, w);
    OneTimes(c * c + s * s, x * v + y * w);
  }

  lemma MixedProducts(c: real, s: real, x: real, y: real, v: real, w: real)
    ensures Times(Mix(c, x, s, y), Mix(c, v, s, w)) + Times(Mix(-s, x, c, y), Mix(-s, v, c, w))
         == (c * c + s * s) * (x * v + y * w)
  {
  }

  lemma OneTimes(k: real, x: real)
    requires k == 1.0
    ensures k * x == x
  {
  }

  /** Away from p and q, rotating matrix and vector leaves the product as it is. */
  lemma OtherEntry(m: Matrix, p: nat, q: nat, c: real, s: real, v: seq<real>, i: nat)
    requires Symmetric(m) && Pair(m, p, q) && Unit(c, s) && |v| == |m| && i < |m| && i != p && i != q
    ensures Dot(Rotated(m, p, q, c, s)[i], Turn(v, p, q, c, s)) == Dot(m[i], v)
  {
    var r, w := Rotated(m, p, q, c, s), Turn(v, p, q, c, s);
    forall j | 0 <= j < |m|
      ensures r[i][j] == RotatedAt(m, p, q, c, s, i, j)
    {
      RotatedEntry(m, p, q, c, s, i, j);
    }
    DotChangeTwo(m[i], v, r[i], w, p, q);
    MixKeepsProducts(c, s, m[i][p], m[i][q], v[p], v[q]);
  }

  /** The two block terms of a row exceed those of the mixed rows by rest. */
  ghost predicate BlockGives(rest: real, a: real, b: real, x: real, y: real, a': real, b': real, x': real, y': real) {
    Surplus(a, b, x, y) + Surplus(a', b', x', y') == rest
  }

  function Surplus(a: real, b: real, x: real, y: real): real {
    Times(a, b) - Times(x, y)
  }

  /** What row p of the rotated block contributes beyond the mixed rows. */
  lemma BlockRowP(c: real, s: real, app: real, aqq: real, apq: real, vp: real, vq: real, wp: real, wq: real,
                  rpp: real, rpq: real, rest: real)
    requires Unit(c, s) && wp == Mix(c, vp, s, vq) && wq == Mix(-s, vp, c, vq)
    requires rpp == NewApp(c, s, app, aqq, apq) && rpq == 0.0 && rest == -Times(Leftover(c, s, app, aqq, apq), wq)
    ensures BlockGives(rest, rpp, wp, Mix(c, app, s, apq), vp, rpq, wq, Mix(c, apq, s, aqq), vq)
  {
    MixBack(c, s, vp, vq);
    AlgebraP(c, s, app, aqq, apq, vp, vq, wp, wq, rpp, rest);
  }

  lemma AlgebraP(c: real, s: real, app: real, aqq: real, apq: real, vp: real, vq: real, wp: real, wq: real,
                 rpp: real, rest: real)
    requires vp == Mix(c, wp, -s, wq) && vq == Mix(s, wp, c, wq)
    requires rpp == NewApp(c, s, app, aqq, apq) && rest == -Times(Leftover(c, s, app, aqq, apq), wq)
    ensures BlockGives(rest, rpp, wp, Mix(c, app, s, apq), vp, 0.0, wq, Mix(c, apq, s, aqq), vq)
  {
    IdentityP(c, s, app, aqq, apq, wp, wq);
  }

  lemma IdentityP(c: real, s: real, app: real, aqq: real, apq: real, wp: real, wq: real)
    ensures Surplus(NewApp(c, s, app, aqq, apq), wp, Mix(c, app, s, apq), Mix(c, wp, -s, wq))
            + Surplus(0.0, wq, Mix(c, apq, s, aqq), Mix(s, wp, c, wq)) == -Times(Leftover(c, s, app, aqq, apq), wq)
  {
  }

  lemma BlockRowQ(c: real, s: real, n: real, app: real, aqq: real, apq: real, vp: real, vq: real, wp: real, wq: real,
                  rqp: real, rqq: real, rest: real)
    requires n == -s && Unit(c, s) && wp == Mix(c, vp, s, vq) && wq == Mix(-s, vp, c, vq)
    requires rqq == NewAqq(c, s, app, aqq, apq) && rqp == 0.0 && rest == -Times(Leftover(c, s, app, aqq, apq), wp)
    ensures BlockGives(rest, rqp, wp, Mix(n, app, c, apq), vp, rqq, wq, Mix(n, apq, c, aqq), vq)
  {
    MixBack(c, s, vp, vq);
    AlgebraQ(c, s, app, aqq, apq, vp, vq, wp, wq, rqq, rest);
  }

  lemma AlgebraQ(c: real, s: real, app: real, aqq: real, apq: real, vp: real, vq: real, wp: real, wq: real,
                 rqq: real, rest: real)
    requires vp == Mix(c, wp, -s, wq) && vq == Mix(s, wp, c, wq)
    requires rqq == NewAqq(c, s, app, aqq, apq) && rest == -Times(Leftover(c, s, app, aqq, apq), wp)
    ensures BlockGives(rest, 0.0, wp, Mix(-s, app, c, apq), vp, rqq, wq, Mix(-s, apq, c, aqq), vq)
  {
    IdentityQ(c, s, app, aqq, apq, wp, wq);
  }

  lemma IdentityQ(c: real, s: real, app: real, aqq: real, apq: real, wp: real, wq: real)
    ensures Surplus(0.0, wp, Mix(-s, app, c, apq), Mix(c, wp, -s, wq))
            + Surplus(NewAqq(c, s, app, aqq, apq), wq, Mix(-s, apq, c, aqq), Mix(s, wp, c, wq))
            == -Times(Leftover(c, s, app, aqq, apq), wp)
  {
  }

  /** A row of the rotated matrix that mixes the rows p and q everywhere but in its own block. */
  lemma MixedRow(m: Matrix, p: nat, q: nat, c: real, s: real, v: seq<real>, row: seq<real>, w: seq<real>, rest: real)
    requires Symmetric(m) && Pair(m, p, q) && |v| == |w| == |row| == |m|
    requires forall j | 0 <= j < |m| && j != p && j != q :: row[j] == Mix(c, m[p][j], s, m[q][j]) && w[j] == v[j]
    requires BlockGives(rest, row[p], w[p], Mix(c, m[p][p], s, m[p][q]), v[p], row[q], w[q], Mix(c, m[p][q], s, m[q][q]), v[q])
    ensures Dot(row, w) == Mix(c, Dot(m[p], v), s, Dot(m[q], v)) + rest
  {
    var g := Mixed(c, m[p], s, m[q]);
    DotMix(c, m[p], s, m[q], v);
    assert forall j | 0 <= j < |m| :: g[j] == Mix(c, m[p][j], s, m[q][j]);
    assert m[q][p] == m[p][q];
    DotChangeTwo(g, v, row, w, p, q);
  }

  lemma PivotRows(m: Matrix, p: nat, q: nat, c: real, s: real, n: real, j: nat)
    requires Symmetric(m) && Pair(m, p, q) && n == -s && j < |m|
    ensures var r := Rotated(m, p, q, c, s);
            && (j != p && j != q ==> r[p][j] == Mix(c, m[p][j], s, m[q][j]) && r[q][j] == Mix(n, m[p][j], c, m[q][j]))
            && (j == p ==> r[p][j] == NewApp(c, s, m[p][p], m[q][q], m[p][q]) && r[q][j] == 0.0)
            && (j == q ==> r[q][j] == NewAqq(c, s, m[p][p], m[q][q], m[p][q]) && r[p][j] == 0.0)
  {
    RotatedEntry(m, p, q, c, s, p, j);
    RotatedEntry(m, p, q, c, s, q, j);
    assert m[p][j] == m[j][p] && m[q][j] == m[j][q];
  }

  /** Row p of the rotated matrix, applied to the turned vector. */
  lemma PivotEntryP(m: Matrix, p: nat, q: nat, c: real, s: real, v: seq<real>, rest: real)
    requires Symmetric(m) && Pair(m, p, q) && Unit(c, s) && |v| == |m|
    requires rest == -Times(Leftover(c, s, m[p][p], m[q][q], m[p][q]), Turn(v, p, q, c, s)[q])
    ensures Dot(Rotated(m, p, q, c, s)[p], Turn(v, p, q, c, s)) == Mix(c, Dot(m[p], v), s, Dot(m[q], v)) + rest
  {
    var r, w := Rotated(m, p, q, c, s), Turn(v, p, q, c, s);
    forall j | 0 <= j < |m| && j != p && j != q
      ensures r[p][j] == Mix(c, m[p][j], s, m[q][j])
    {
      PivotRows(m, p, q, c, s, -s, j);
    }
    PivotRows(m, p, q, c, s, -s, p);
    PivotRows(m, p, q, c, s, -s, q);
    TurnOutside(v, p, q, c, s);
    BlockRowP(c, s, m[p][p], m[q][q], m[p][q], v[p], v[q], w[p], w[q], r[p][p], r[p][q], rest);
    MixedRow(m, p, q, c, s, v, r[p], w, rest);
  }

  lemma PivotEntryQ(m: Matrix, p: nat, q: nat, c: real, s: real, n: real, v: seq<real>, rest: real)
    requires Symmetric(m) && Pair(m, p, q) && Unit(c, s) && n == -s && |v| == |m|
    requires rest == -Times(Leftover(c, s, m[p][p], m[q][q], m[p][q]), Turn(v, p, q, c, s)[p])
    ensures Dot(Rotated(m, p, q, c, s)[q], Turn(v, p, q, c, s)) == Mix(n, Dot(m[p], v), c, Dot(m[q], v)) + rest
  {
    var r, w := Rotated(m, p, q, c, s), Turn(v, p, q, c, s);
    forall j | 0 <= j < |m| && j != p && j != q
      ensures r[q][j] == Mix(n, m[p][j], c, m[q][j])
    {
      PivotRows(m, p, q, c, s, n, j);
    }
    PivotRows(m, p, q, c, s, n, p);
    PivotRows(m, p, q, c, s, n, q);
    TurnOutside(v, p, q, c, s);
    BlockRowQ(c, s, n, m[p][p], m[q][q], m[p][q], v[p], v[q], w[p], w[q], r[q][p], r[q][q], rest);
    MixedRow(m, p, q, n, c, v, r[q], w, rest);
  }

  /** The entries of w at p and q, exchanged, and zero elsewhere. */
  function Swapped(w: seq<real>, p: nat, q: nat): (r: seq<real>)
    requires p < q < |w|
    ensures |r| == |w|
  {
    seq(|w|, i requires 0 <= i < |w| => if i == p then w[q] else if i == q then w[p] else 0.0)
  }

  /** Rotating matrix and vector turns the deviation, up to the leftover. */
  lemma DeviationTurns(m: Matrix, p: nat, q: nat, c: real, s: real, v: seq<real>, d: real, x: real)
    requires Symmetric(m) && Pair(m, p, q) && Unit(c, s) && |v| == |m| && x == Leftover(c, s, m[p][p], m[q][q], m[p][q])
    ensures Deviation(Rotated(m, p, q, c, s), Turn(v, p, q, c, s), d)
         == Combine(1.0, Turn(Deviation(m, v, d), p, q, c, s), x, Swapped(Turn(v, p, q, c, s), p, q))
  {
    var r, w, was := Rotated(m, p, q, c, s), Turn(v, p, q, c, s), Deviation(m, v, d);
    var goal := Combine(1.0, Turn(was, p, q, c, s), x, Swapped(w, p, q));
    PivotEntryP(m, p, q, c, s, v, -Times(x, w[q]));
    PivotEntryQ(m, p, q, c, s, -s, v, -Times(x, w[p]));
    MixOfDifference(c, Dot(m[p], v), s, Dot(m[q], v), d, v[p], v[q]);
    MixOfDifference(-s, Dot(m[p], v), c, Dot(m[q], v), d, v[p], v[q]);
    forall i | 0 <= i < |m|
      ensures Deviation(r, w, d)[i] == goal[i]
    {
      var swap := Swapped(w, p, q)[i];
      TermOfOne(Turn(was, p, q, c, s)[i], x, swap);
      if i != p && i != q {
        OtherEntry(m, p, q, c, s, v, i);
        assert Times(x, swap) == 0.0;
      }
    }
  }

  lemma TermOfOne(a: real, x: real, b: real)
    ensures Term(1.0, a, x, b) == a - Times(x, b)
  {
  }

  lemma MixOfDifference(c: real, a: real, s: real, b: real, d: real, x: real, y: real)
    ensures Mix(c, a - Times(d, x), s, b - Times(d, y)) == Mix(c, a, s, b) - Times(d, Mix(c, x, s, y))
  {
    assert c * (a - d * x) == c * a - d * (c * x);
    assert s * (b - d * y) == s * b - d * (s * y);
    assert d * (c * x + s * y) == d * (c * x) + d * (s * y);
  }

  // ----- One step moves a deviation by at most the leftover -----

  lemma AbsFromSquares(x: real, d: real)
    requires d >= 0.0 && x * x <= d * d
    ensures Abs(x) <= d
  {
    if d > 0.0 {
      SquaresCompare(x, d);
    } else {
      SquareSign(x);
    }
  }

  lemma MulBoth(x: real, y: real, x': real, y': real)
    requires 0.0 <= x <= x' && 0.0 <= y <= y'
    ensures x * y <= x' * y'
  {
    MulMono(x, x', y);
    MulMono(y, y', x');
    assert x' * y == y * x' && x' * y' == y' * x';
  }

  lemma CrossBound(aa: real, aw: real, ww: real, b: real, n: real)
    requires b >= 0.0 && n >= 0.0 && 0.0 <= ww <= n && 0.0 <= aa <= b * b * n && aw * aw <= aa * ww
    ensures Abs(aw) <= b * n
  {
    MulBoth(aa, ww, b * b * n, n);
    assert (b * b * n) * n == (b * n) * (b * n);
    MulMono(0.0, b, n);
    AbsFromSquares(aw, b * n);
  }

  lemma CrossTerm(x: real, aw: real, e: real, k: real)
    requires e == Abs(x) && Abs(aw) <= k
    ensures -(x * aw) <= k * e
  {
    MulMono(Abs(aw), k, e);
    assert -(x * aw) <= Abs(aw) * e;
  }

  lemma SquareTerm(x: real, e: real, ww: real, n: real)
    requires e == Abs(x) && ww <= n
    ensures (x * x) * ww <= (e * e) * n
  {
    assert x * x == e * e >= 0.0;
    MulMono(ww, n, e * e);
  }

  lemma SquareOfSum(b: real, e: real, n: real)
    ensures Times((b + e) * (b + e), n) == b * b * n + 2.0 * ((b * n) * e) + (e * e) * n
  {
  }

  lemma ExpandedOfOne(x: real, aa: real, aw: real, ww: real)
    ensures Expanded(1.0, x, aa, aw, ww) == aa + 2.0 * -(x * aw) + (x * x) * ww
  {
  }

  lemma TriangleScalars(aa: real, aw: real, ww: real, x: real, b: real, e: real, n: real)
    requires b >= 0.0 && e == Abs(x) && n >= 0.0 && 0.0 <= ww <= n && 0.0 <= aa <= b * b * n && aw * aw <= aa * ww
    ensures Expanded(1.0, x, aa, aw, ww) <= Times((b + e) * (b + e), n)
  {
    CrossBound(aa, aw, ww, b, n);
    CrossTerm(x, aw, e, b * n);
    SquareTerm(x, e, ww, n);
    SquareOfSum(b, e, n);
    ExpandedOfOne(x, aa, aw, ww);
  }

  /** The triangle inequality, with lengths measured against n. */
  lemma Triangle(a: seq<real>, w: seq<real>, x: real, b: real, e: real, n: real, aa: real, aw: real, ww: real)
    requires |a| == |w| && aa == Dot(a, a) && aw == Dot(a, w) && ww == Dot(w, w)
    requires b >= 0.0 && e == Abs(x) && n >= 0.0 && ww <= n && aa <= Times(b * b, n)
    ensures Dot(Combine(1.0, a, x, w), Combine(1.0, a, x, w)) <= Times((b + e) * (b + e), n)
  {
    DotCombine(1.0, a, x, w);
    DotSelf(a);
    DotSelf(w);
    CauchySchwarz(a, w, aa, aw, ww);
    TriangleScalars(aa, aw, ww, x, b, e, n);
  }

  lemma SwappedIsShort(w: seq<real>, p: nat, q: nat)
    requires p < q < |w|
    ensures Dot(Swapped(w, p, q), Swapped(w, p, q)) <= Dot(w, w)
  {
    var z := seq(|w|, _ => 0.0);
    var s, u := Swapped(w, p, q), w[p := 0.0][q := 0.0];
    DotChangeTwo(z, z, s, s, p, q);
    DotChangeTwo(w, w, u, u, p, q);
    DotSelf(u);
    DotZero(z, z);
  }

  lemma NearWidens(m: Matrix, v: seq<real>, d: real, b: real, b': real)
    requires Near(m, v, d, b) && b <= b'
    ensures Near(m, v, d, b')
  {
    DotSelf(v);
    MulBoth(b, b, b', b');
    MulMono(b * b, b' * b', Dot(v, v));
  }

  /** A rotation takes approximate eigenvectors of m to such of the rotated matrix ... */
  lemma StepForward(m: Matrix, p: nat, q: nat, c: real, s: real, v: seq<real>, d: real, b: real, x: real)
    requires Symmetric(m) && Pair(m, p, q) && Unit(c, s) && x == Leftover(c, s, m[p][p], m[q][q], m[p][q])
    requires Near(m, v, d, b)
    ensures Near(Rotated(m, p, q, c, s), Turn(v, p, q, c, s), d, b + Abs(x))
  {
    var w := Turn(v, p, q, c, s);
    var was := Turn(Deviation(m, v, d), p, q, c, s);
    TurnKeepsLength(v, p, q, c, s);
    TurnKeepsLength(Deviation(m, v, d), p, q, c, s);
    SwappedIsShort(w, p, q);
    DotSelf(w);
    var swap := Swapped(w, p, q);
    Triangle(was, swap, x, b, Abs(x), Dot(w, w), Dot(was, was), Dot(was, swap), Dot(swap, swap));
    DeviationTurns(m, p, q, c, s, v, d, x);
  }

  /** ... and back. */
  lemma StepBackward(m: Matrix, p: nat, q: nat, c: real, s: real, w: seq<real>, d: real, b: real, x: real)
    returns (v: seq<real>)
    requires Symmetric(m) && Pair(m, p, q) && Unit(c, s) && x == Leftover(c, s, m[p][p], m[q][q], m[p][q])
    requires Near(Rotated(m, p, q, c, s), w, d, b)
    ensures Near(m, v, d, b + Abs(x)) && Dot(v, v) == Dot(w, w)
  {
    var r := Rotated(m, p, q, c, s);
    v := Turn(w, p, q, c, -s);
    var now, was := Deviation(r, w, d), Turn(Deviation(m, v, d), p, q, c, s);
    TurnBack(w, p, q, c, s);
    DeviationTurns(m, p, q, c, s, v, d, x);
    CombineBack(was, x, Swapped(w, p, q));
    TurnKeepsLength(v, p, q, c, s);
    TurnKeepsLength(Deviation(m, v, d), p, q, c, s);
    SwappedIsShort(w, p, q);
    DotSelf(w);
    var swap := Swapped(w, p, q);
    Triangle(now, swap, -x, b, Abs(x), Dot(w, w), Dot(now, now), Dot(now, swap), Dot(swap, swap));
  }

  lemma CombineBack(a: seq<real>, x: real, w: seq<real>)
    requires |a| == |w|
    ensures Combine(1.0, Combine(1.0, a, x, w), -x, w) == a
  {
    forall i | 0 <= i < |a|
      ensures Combine(1.0, Combine(1.0, a, x, w), -x, w)[i] == a[i]
    {
      assert Term(1.0, Term(1.0, a[i], x, w[i]), -x, w[i]) == a[i];
    }
  }
}
