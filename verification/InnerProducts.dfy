/** Inner products of vectors and the Cauchy-Schwarz inequality. */
module InnerProducts {
  import opened RealArith

  function Dot(a: seq<real>, b: seq<real>): real
    requires |a| == |b|
  {
    if a == [] then 0.0 else a[0] * b[0] + Dot(a[1..], b[1..])
  }

  lemma {:induction false} DotSymmetric(a: seq<real>, b: seq<real>)
    requires |a| == |b|
    ensures Dot(a, b) == Dot(b, a)
  {
    if a != [] {
      DotSymmetric(a[1..], b[1..]);
    }
  }

  lemma SquareSign(x: real)
    ensures x * x >= 0.0
    ensures x * x == 0.0 <==> x == 0.0
  {
    MulZero(x, x);
  }

  lemma {:induction false} DotSelf(a: seq<real>)
    ensures Dot(a, a) >= 0.0
    ensures Dot(a, a) == 0.0 <==> forall i | 0 <= i < |a| :: a[i] == 0.0
  {
    if a != [] {
      DotSelf(a[1..]);
      SquareSign(a[0]);
      assert forall i | 0 <= i < |a| - 1 :: a[1..][i] == a[i + 1];
      assert (forall i | 0 <= i < |a| :: a[i] == 0.0) <==> a[0] == 0.0 && forall i | 0 <= i < |a| - 1 :: a[1..][i] == 0.0 by {
        if a[0] == 0.0 && forall i | 0 <= i < |a| - 1 :: a[1..][i] == 0.0 {
          forall i | 0 <= i < |a|
            ensures a[i] == 0.0
          {
            assert i > 0 ==> a[i] == a[1..][i - 1];
          }
        }
      }
    }
  }

  function Combine(x: real, a: seq<real>, y: real, b: seq<real>): (r: seq<real>)
    requires |a| == |b|
    ensures |r| == |a|
  {
    seq(|a|, i requires 0 <= i < |a| => Term(x, a[i], y, b[i]))
  }

  function Term(x: real, p: real, y: real, q: real): real {
    x * p - y * q
  }

  /** The square of x * p - y * q in terms of the squares and the product of p and q. */
  function Expanded(x: real, y: real, pp: real, pq: real, qq: real): real {
    x * x * pp - 2.0 * (x * y) * pq + y * y * qq
  }

  lemma ExpandedAdds(x: real, y: real, pp: real, pq: real, qq: real, pp': real, pq': real, qq': real)
    ensures Expanded(x, y, pp + pp', pq + pq', qq + qq') == Expanded(x, y, pp, pq, qq) + Expanded(x, y, pp', pq', qq')
  {
    Distribute(x * x, pp, pp');
    Distribute(2.0 * (x * y), pq, pq');
    Distribute(y * y, qq, qq');
  }

  lemma SquareOfTerm(x: real, p: real, y: real, q: real)
    ensures Term(x, p, y, q) * Term(x, p, y, q) == Expanded(x, y, p * p, p * q, q * q)
  {
    var u, v := x * p, y * q;
    assert (u - v) * (u - v) == u * u - 2.0 * (u * v) + v * v;
    assert u * u == x * x * (p * p);
    assert v * v == y * y * (q * q);
    assert u * v == (x * y) * (p * q);
  }

  lemma {:induction false} DotCombine(x: real, a: seq<real>, y: real, b: seq<real>)
    requires |a| == |b|
    ensures Dot(Combine(x, a, y, b), Combine(x, a, y, b)) == Expanded(x, y, Dot(a, a), Dot(a, b), Dot(b, b))
  {
    if a != [] {
      var r, rest := Combine(x, a, y, b), Combine(x, a[1..], y, b[1..]);
      DotCombine(x, a[1..], y, b[1..]);
      forall i | 0 <= i < |rest|
        ensures r[1..][i] == rest[i]
      {
        assert r[1..][i] == r[i + 1] == Term(x, a[i + 1], y, b[i + 1]);
      }
      assert r[1..] == rest;
      SquareOfTerm(x, a[0], y, b[0]);
      ExpandedAdds(x, y, a[0] * a[0], a[0] * b[0], b[0] * b[0],
                   Dot(a[1..], a[1..]), Dot(a[1..], b[1..]), Dot(b[1..], b[1..]));
    }
  }

  lemma Distribute(k: real, x: real, y: real)
    ensures k * (x + y) == k * x + k * y
  {
  }

  ghost predicate Proportional(w: real, a: seq<real>, v: real, b: seq<real>)
    requires |a| == |b|
  {
    forall i | 0 <= i < |a| :: Term(w, a[i], v, b[i]) == 0.0
  }

  /** The Cauchy-Schwarz inequality; when it is an equality the vectors are proportional. */
  lemma CauchySchwarz(a: seq<real>, b: seq<real>, u: real, v: real, w: real)
    requires |a| == |b| && u == Dot(a, a) && v == Dot(a, b) && w == Dot(b, b)
    ensures v * v <= u * w
    ensures v * v == u * w && w > 0.0 ==> Proportional(w, a, v, b)
  {
    DotSelf(b);
    if w == 0.0 {
      DotZero(a, b);
      return;
    }
    var r := Combine(w, a, v, b);
    DotCombine(w, a, v, b);
    DotSelf(r);
    ExpandedIsExcess(u, v, w);
    ResidualSign(u, v, w, Dot(r, r));
    if Dot(r, r) == 0.0 {
      forall i | 0 <= i < |a|
        ensures Term(w, a[i], v, b[i]) == 0.0
      {
        assert r[i] == 0.0;
      }
    }
  }

  function Excess(u: real, v: real, w: real): real {
    w * (u * w - v * v)
  }

  lemma ExpandedIsExcess(u: real, v: real, w: real)
    ensures Expanded(w, v, u, v, w) == Excess(u, v, w)
  {
    assert w * w * u == w * (u * w);
    assert (w * v) * v == w * (v * v);
    assert v * v * w == w * (v * v);
    MulMinus(w, u * w, v * v);
  }

  lemma ResidualSign(u: real, v: real, w: real, residual: real)
    requires w > 0.0 && residual == Excess(u, v, w) && residual >= 0.0
    ensures v * v <= u * w
    ensures v * v == u * w <==> residual == 0.0
  {
    SignOfProduct(w, u * w - v * v);
  }

  lemma {:induction false} DotZero(a: seq<real>, b: seq<real>)
    requires |a| == |b| && forall i | 0 <= i < |b| :: b[i] == 0.0
    ensures Dot(a, b) == 0.0
  {
    if a != [] {
      DotZero(a[1..], b[1..]);
    }
  }

  lemma {:induction false} DotNegated(a: seq<real>, b: seq<real>, c: seq<real>)
    requires |a| == |b| == |c| && forall i | 0 <= i < |a| :: c[i] == -b[i]
    ensures Dot(a, c) == -Dot(a, b)
  {
    if a != [] {
      DotNegated(a[1..], b[1..], c[1..]);
    }
  }

  lemma NegatedSquares(b: seq<real>, c: seq<real>)
    requires |b| == |c| && forall i | 0 <= i < |b| :: c[i] == -b[i]
    ensures Dot(c, c) == Dot(b, b)
  {
    DotNegated(c, b, c);
    DotSymmetric(c, b);
    DotNegated(b, b, c);
  }

  // ----- Squares -----

  lemma SquaresCompare(x: real, d: real)
    requires d > 0.0
    ensures x * x <= d * d <==> -d <= x <= d
    ensures x == d || x == -d ==> x * x == d * d
  {
    assert d * d - x * x == (d - x) * (d + x);
    if -d <= x <= d {
      assert (d - x) * (d + x) >= 0.0;
    } else if x > d {
      assert (d - x) * (d + x) < 0.0;
    } else {
      assert (d - x) * (d + x) < 0.0;
    }
  }

  lemma SameSquares(d: real, x: real)
    requires d >= 0.0 && x >= 0.0 && d * d == x * x
    ensures d == x
  {
    assert (d - x) * (d + x) == 0.0;
    MulZero(d - x, d + x);
  }
}
