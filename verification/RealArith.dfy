/** Facts about products and quotients of reals. */
module RealArith {

  lemma MulMono(x: real, y: real, z: real)
    requires x <= y && z >= 0.0
    ensures x * z <= y * z
  {
    assert (y - x) * z >= 0.0;
  }

  lemma QuotientSign(x: real, z: real)
    requires x >= 0.0 && z > 0.0
    ensures x / z >= 0.0
  {
    var q := x / z;
    assert q * z == x;
  }

  lemma DivMono(x: real, y: real, z: real)
    requires x <= y && z > 0.0
    ensures x / z <= y / z
  {
    QuotientSign(y - x, z);
    assert y / z - x / z == (y - x) / z;
  }

  lemma QuotientInUnit(x: real, z: real)
    requires 0.0 <= x <= z && z > 0.0
    ensures 0.0 <= x / z <= 1.0
  {
    DivMono(0.0, x, z);
    DivMono(x, z, z);
    assert z / z == 1.0;
  }

  lemma ReciprocalAntitone(x: real, y: real)
    requires 0.0 < x <= y
    ensures 0.0 < 1.0 / y <= 1.0 / x
  {
    var p := x * y;
    assert p > 0.0;
    QuotientSign(y - x, p);
    assert 1.0 / x == y / p;
    assert 1.0 / y == x / p;
    DivMono(x, y, p);
    QuotientSign(x, p);
  }

  lemma MulMinus(x: real, y: real, z: real)
    ensures x * (y - z) == x * y - x * z
  {
  }

  lemma MulZero(x: real, y: real)
    ensures x * y == 0.0 <==> x == 0.0 || y == 0.0
  {
    if x != 0.0 {
      assert (x * y) / x == y;
    }
  }

  lemma MulAssoc(x: real, y: real, z: real)
    ensures (x * y) * z == x * (y * z)
  {
  }

  /** A product, as a term the solver does not multiply out. */
  function Times(x: real, y: real): real {
    x * y
  }

  lemma TimesLaws(x: real, y: real, z: real)
    ensures Times(x, y) == Times(y, x)
    ensures Times(Times(x, y), z) == Times(x, Times(y, z))
    ensures Times(x + y, z) == Times(x, z) + Times(y, z)
    ensures Times(x, 1.0) == x
  {
    MulAssoc(x, y, z);
  }

  lemma MulPositive(x: real, y: real)
    requires x > 0.0 && y > 0.0
    ensures x * y > 0.0
    ensures x * -y < 0.0 && -x * y < 0.0 && -x * -y > 0.0
  {
  }

  lemma SignOfProduct(x: real, y: real)
    ensures x * y > 0.0 <==> (x > 0.0 && y > 0.0) || (x < 0.0 && y < 0.0)
    ensures x * y < 0.0 <==> (x > 0.0 && y < 0.0) || (x < 0.0 && y > 0.0)
    ensures x * y == 0.0 <==> x == 0.0 || y == 0.0
  {
    MulZero(x, y);
    if x > 0.0 && y < 0.0 {
      MulPositive(x, -y);
    } else if x < 0.0 && y > 0.0 {
      MulPositive(-x, y);
    } else if x < 0.0 && y < 0.0 {
      MulPositive(-x, -y);
    } else if x > 0.0 && y > 0.0 {
      MulPositive(x, y);
    }
  }

  lemma MulStrict(x: real, y: real, z: real)
    requires x < y && z > 0.0
    ensures x * z < y * z
  {
    MulPositive(y - x, z);
    SplitProduct(y, x, z);
  }

  lemma SplitProduct(x: real, y: real, z: real)
    ensures (x - y) * z == x * z - y * z
  {
  }

  lemma DivExact(x: real, z: real)
    requires z != 0.0
    ensures (x * z) / z == x
    ensures (z * x) / z == x
  {
  }

  function Manyfold(k: nat, x: real): real {
    k as real * x
  }

  lemma OneMore(k: nat, x: real)
    ensures Manyfold(k + 1, x) == Manyfold(k, x) + x
  {
    assert (k + 1) as real == k as real + 1.0;
  }

  lemma ManyfoldSign(k: nat, x: real)
    requires x >= 0.0
    ensures Manyfold(k, x) >= 0.0
  {
    MulMono(0.0, k as real, x);
  }
}
