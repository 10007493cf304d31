/** The value of the information coefficient (weekly_validator.py). */
module SpearmanValue {
  import opened InnerProducts
  import opened Ranking
  import opened RealArith
  import opened Sequences
  import opened Spearman
  import opened StableSort

  // ----- Ranks without ties -----

  const ITSELF: real -> real := (x: real) => x

  /** 1, 2, ..., n */
  function Counting(n: nat): (r: seq<real>)
    ensures |r| == n
  {
    seq(n, k requires 0 <= k < n => (k + 1) as real)
  }

  /** Without ties the values in ascending order have the ranks 1 to n. */
  lemma SortedRanks(values: seq<real>, k: nat)
    requires NoDup(values) && k < |values|
    ensures |Sort(values, ITSELF)| == |values|
    ensures RankOf(values, Sort(values, ITSELF)[k]) == (k + 1) as real
  {
    var sorted := Sort(values, ITSELF);
    SortedRise(values);
    SortProperties(values, ITSELF);
    RankOfRising(sorted, k);
    RankOfPermuted(values, sorted, sorted[k]);
  }

  ghost predicate Rises(s: seq<real>) {
    forall i, j | 0 <= i < j < |s| :: s[i] < s[j]
  }

  lemma SortedRise(values: seq<real>)
    requires NoDup(values)
    ensures Rises(Sort(values, ITSELF))
  {
    var sorted := Sort(values, ITSELF);
    assert Map(ITSELF, values) == values;
    SortAscends(values, ITSELF);
    forall i, j | 0 <= i < j < |sorted|
      ensures sorted[i] < sorted[j]
    {
      assert ITSELF(sorted[i]) < ITSELF(sorted[j]);
    }
  }

  lemma RankOfRising(s: seq<real>, k: nat)
    requires Rises(s) && k < |s|
    ensures RankOf(s, s[k]) == (k + 1) as real
  {
    GroupRank(s, k, k + 1, s[k]);
  }

  function RankIn(values: seq<real>): real -> real {
    (x: real) => RankOf(values, x)
  }

  /** Without ties the ranks are the numbers 1 to n in some order. */
  lemma RanksAreCounting(values: seq<real>)
    requires NoDup(values)
    ensures multiset(Ranks(values)) == multiset(Counting(|values|))
  {
    var sorted := Sort(values, ITSELF);
    SortProperties(values, ITSELF);
    MapPermutation(RankIn(values), values, sorted);
    assert Map(RankIn(values), values) == Ranks(values);
    forall k | 0 <= k < |sorted|
      ensures Map(RankIn(values), sorted)[k] == Counting(|values|)[k]
    {
      SortedRanks(values, k);
    }
    assert Map(RankIn(values), sorted) == Counting(|values|);
  }

  // ----- Sums of squares -----

  const SQUARE: real -> real := (x: real) => Times(x, x)

  lemma {:induction false} DotIsSquares(s: seq<real>)
    ensures Dot(s, s) == SumOver(s, SQUARE)
  {
    if s != [] {
      DotIsSquares(s[1..]);
    }
  }

  function Pyramid(n: real): real {
    n * (n + 1.0) * (2.0 * n + 1.0) / 6.0
  }

  lemma PyramidStep(n: real)
    ensures Pyramid(n - 1.0) + Times(n, n) == Pyramid(n)
  {
    var q := n * n;
    assert n * (n + 1.0) == q + n && (n - 1.0) * n == q - n;
    assert (q + n) * (2.0 * n + 1.0) == 2.0 * (q * n) + q + 2.0 * q + n;
    assert (q - n) * (2.0 * n - 1.0) == 2.0 * (q * n) - q - 2.0 * q + n;
  }

  lemma {:induction false} SquaresOfCounting(n: nat)
    ensures SumOver(Counting(n), SQUARE) == Pyramid(n as real)
  {
    if n > 0 {
      SquaresOfCounting(n - 1);
      assert Counting(n) == Counting(n - 1) + [n as real];
      SumOverAppend(Counting(n - 1), [n as real], SQUARE);
      SumOverOne(n as real, SQUARE);
      PyramidStep(n as real);
    }
  }

  function Ones(n: nat): (r: seq<real>)
    ensures |r| == n
  {
    seq(n, _ => 1.0)
  }

  lemma {:induction false} DotOnes(s: seq<real>)
    ensures Dot(s, Ones(|s|)) == Sum(s)
  {
    if s != [] {
      DotOnes(s[1..]);
      assert Ones(|s|)[1..] == Ones(|s| - 1);
    }
  }

  /** The deviations are the ranks less the middle one. */
  lemma DeviationIs(values: seq<real>, i: nat)
    requires i < |values|
    ensures Deviations(values)[i] == Ranks(values)[i] - (|values| as real + 1.0) / 2.0
  {
    MeanRank(values);
  }

  /** The sum of squared deviations of n ranks without ties. */
  function Spread(n: real): real {
    n * (n * n - 1.0) / 12.0
  }

  /** 1 + 2 + ... + n */
  function Triangle(n: real): real {
    n * (n + 1.0) / 2.0
  }

  lemma SpreadAlgebra(n: real, m: real)
    requires m == (n + 1.0) / 2.0
    ensures Expanded(1.0, m, Pyramid(n), Triangle(n), n) == Spread(n)
  {
    var q := n * n;
    var c := q * n;
    assert n * (n + 1.0) == q + n;
    assert (q + n) * (2.0 * n + 1.0) == 2.0 * c + 3.0 * q + n;
    assert m * m == (q + 2.0 * n + 1.0) / 4.0;
    assert m * m * n == (c + 2.0 * q + n) / 4.0;
    assert m * (q + n) == (c + 2.0 * q + n) / 2.0;
    assert n * (q - 1.0) == c - n;
  }

  lemma DeviationsCombined(values: seq<real>, m: real)
    requires values != [] && m == (|values| as real + 1.0) / 2.0
    ensures Deviations(values) == Combine(1.0, Ranks(values), m, Ones(|values|))
  {
    forall i | 0 <= i < |values|
      ensures Deviations(values)[i] == Combine(1.0, Ranks(values), m, Ones(|values|))[i]
    {
      DeviationIs(values, i);
    }
  }

  lemma SquaredRanks(values: seq<real>)
    requires NoDup(values)
    ensures Dot(Ranks(values), Ranks(values)) == Pyramid(|values| as real)
  {
    DotIsSquares(Ranks(values));
    RanksAreCounting(values);
    SumOverPermutation(Ranks(values), Counting(|values|), SQUARE);
    SquaresOfCounting(|values|);
  }

  lemma CombinedSquares(values: seq<real>, m: real)
    requires NoDup(values)
    ensures var combined, n := Combine(1.0, Ranks(values), m, Ones(|values|)), |values| as real;
            Dot(combined, combined) == Expanded(1.0, m, Pyramid(n), Triangle(n), n)
  {
    DotCombine(1.0, Ranks(values), m, Ones(|values|));
    SquaredRanks(values);
    RanksWithOnes(values);
  }

  lemma SquaredDeviations(values: seq<real>)
    requires NoDup(values) && values != []
    ensures Dot(Deviations(values), Deviations(values)) == Spread(|values| as real)
  {
    var m := (|values| as real + 1.0) / 2.0;
    DeviationsCombined(values, m);
    CombinedSquares(values, m);
    SpreadAlgebra(|values| as real, m);
  }

  lemma RanksWithOnes(values: seq<real>)
    ensures var n := |values| as real;
            Dot(Ranks(values), Ones(|values|)) == Triangle(n) && Dot(Ones(|values|), Ones(|values|)) == n
  {
    DotOnes(Ranks(values));
    RankSum(values);
    DotOnes(Ones(|values|));
    SumOfEqual(Ones(|values|), 1.0);
  }

  // ----- The value without ties -----

  function RankDifferences(predicted: seq<real>, actual: seq<real>): (r: seq<real>)
    requires |predicted| == |actual|
    ensures |r| == |predicted|
  {
    seq(|predicted|, i requires 0 <= i < |predicted| => Ranks(predicted)[i] - Ranks(actual)[i])
  }

  /** The sum of the squared differences between the two ranks of each pair. */
  function SquaredDifferences(predicted: seq<real>, actual: seq<real>): real
    requires |predicted| == |actual|
  {
    Dot(RankDifferences(predicted, actual), RankDifferences(predicted, actual))
  }

  lemma DifferencesExpand(predicted: seq<real>, actual: seq<real>)
    requires |predicted| == |actual| > 0
    ensures var a, b := Deviations(predicted), Deviations(actual);
            SquaredDifferences(predicted, actual) == Dot(a, a) - 2.0 * Dot(a, b) + Dot(b, b)
  {
    var a, b := Deviations(predicted), Deviations(actual);
    forall i | 0 <= i < |a|
      ensures RankDifferences(predicted, actual)[i] == Combine(1.0, a, 1.0, b)[i]
    {
      DeviationIs(predicted, i);
      DeviationIs(actual, i);
    }
    assert RankDifferences(predicted, actual) == Combine(1.0, a, 1.0, b);
    DotCombine(1.0, a, 1.0, b);
  }

  lemma SpreadPositive(n: real)
    requires n >= 2.0
    ensures Spread(n) > 0.0
  {
    MulMono(2.0, n, n);
    MulPositive(n, n * n - 1.0);
  }

  lemma Cancel(p: real, q: real, x: real)
    requires p * x == q * x && x != 0.0
    ensures p == q
  {
    MulZero(p - q, x);
  }

  lemma SameRoots(product: real, x: real, spread: real)
    requires x * x == spread > 0.0
    ensures Quotient(product, x, x) * spread == product
  {
    assert x != 0.0;
    assert Quotient(product, x, x) == product / (x * x);
    assert product / spread * spread == product;
  }

  lemma ValueAlgebra(x: real, spread: real, product: real, differences: real)
    requires x * x == spread > 0.0 && differences == spread - 2.0 * product + spread
    ensures Quotient(product, x, x) == 1.0 - differences / (2.0 * spread)
  {
    var r := differences / (2.0 * spread);
    assert r * (2.0 * spread) == differences;
    assert (1.0 - r) * spread == spread - r * spread;
    SameRoots(product, x, spread);
    Cancel(Quotient(product, x, x), 1.0 - r, spread);
  }

  /** One less six times the squared rank differences over n (n n - 1). */
  function ByDifferences(differences: real, n: real): real
    requires n >= 2.0
  {
    SpreadPositive(n);
    assert 12.0 * Spread(n) == n * (n * n - 1.0);
    1.0 - 6.0 * differences / (n * (n * n - 1.0))
  }

  lemma SixOver(differences: real, n: real)
    requires n >= 2.0
    ensures Spread(n) > 0.0 && ByDifferences(differences, n) == 1.0 - differences / (2.0 * Spread(n))
  {
    SpreadPositive(n);
    assert 12.0 * Spread(n) == n * (n * n - 1.0);
    SixTwelfths(differences, Spread(n));
  }

  lemma SixTwelfths(x: real, y: real)
    requires y > 0.0
    ensures 6.0 * x / (12.0 * y) == x / (2.0 * y)
  {
    var p, q := 6.0 * x / (12.0 * y), x / (2.0 * y);
    assert p * (12.0 * y) == 6.0 * x;
    assert q * (2.0 * y) == x;
    Cancel(p, q, 12.0 * y);
  }

  lemma ValueOfSpread(product: real, differences: real, n: real, x: real)
    requires n >= 2.0 && x * x == Spread(n) && differences == Spread(n) - 2.0 * product + Spread(n)
    ensures Quotient(product, x, x) == ByDifferences(differences, n)
  {
    SixOver(differences, n);
    ValueAlgebra(x, Spread(n), product, differences);
  }

  lemma CorrelationOfSpread(a: seq<real>, b: seq<real>, sqrt: real -> real, n: real, differences: real)
    requires IsSquareRoot(sqrt) && |a| == |b| && n >= 2.0 && Dot(a, a) == Dot(b, b) == Spread(n)
    requires differences == Spread(n) - 2.0 * Dot(a, b) + Spread(n)
    ensures Correlation(a, b, sqrt) == ByDifferences(differences, n)
  {
    SpreadPositive(n);
    RootOf(sqrt, Spread(n));
    ValueOfSpread(Dot(a, b), differences, n, sqrt(Spread(n)));
  }

  /** Without ties, and with two pairs at least, that is the coefficient. */
  lemma ValueWithoutTies(predicted: seq<real>, actual: seq<real>, sqrt: real -> real)
    requires IsSquareRoot(sqrt) && |predicted| == |actual| >= 2 && NoDup(predicted) && NoDup(actual)
    ensures Ic(predicted, actual, sqrt) == ByDifferences(SquaredDifferences(predicted, actual), |predicted| as real)
  {
    SquaredDeviations(predicted);
    SquaredDeviations(actual);
    DifferencesExpand(predicted, actual);
    CorrelationOfSpread(Deviations(predicted), Deviations(actual), sqrt, |predicted| as real,
                        SquaredDifferences(predicted, actual));
  }

  // ----- The value in general -----

  /** ic is the sum of products v over the roots of the sums of squares u and w: its square is that of v
      over their product, and it has the sign of v. */
  predicate IsCoefficient(ic: real, u: real, v: real, w: real) {
    && ic * ic * (u * w) == v * v
    && (ic > 0.0 <==> v > 0.0)
    && (ic < 0.0 <==> v < 0.0)
  }

  lemma QuotientSquared(u: real, v: real, w: real, x: real, y: real)
    requires x >= 0.0 && y >= 0.0 && x * x == u > 0.0 && y * y == w > 0.0
    ensures IsCoefficient(Quotient(v, x, y), u, v, w)
  {
    MulZero(x, x);
    MulZero(y, y);
    MulPositive(x, y);
    var d, q := x * y, Quotient(v, x, y);
    assert q == v / d && q * d == v;
    assert d * d == u * w by {
      assert d * d == (x * x) * (y * y);
    }
    assert (q * q) * (d * d) == (q * d) * (q * d);
    SignOfProduct(q, d);
  }

  lemma CoefficientOf(a: seq<real>, b: seq<real>, sqrt: real -> real, u: real, v: real, w: real)
    requires IsSquareRoot(sqrt) && |a| == |b| && u == Dot(a, a) > 0.0 && v == Dot(a, b) && w == Dot(b, b) > 0.0
    ensures IsCoefficient(Correlation(a, b, sqrt), u, v, w)
  {
    RootOf(sqrt, u);
    RootOf(sqrt, w);
    QuotientSquared(u, v, w, sqrt(u), sqrt(w));
  }

  /** With ties or without, on two pairs at least that are not all equal on either side. */
  lemma ValueInGeneral(predicted: seq<real>, actual: seq<real>, sqrt: real -> real)
    requires IsSquareRoot(sqrt) && |predicted| == |actual| >= 2 && !Constant(predicted) && !Constant(actual)
    ensures var a, b := Deviations(predicted), Deviations(actual);
            IsCoefficient(Ic(predicted, actual, sqrt), Dot(a, a), Dot(a, b), Dot(b, b))
  {
    var a, b := Deviations(predicted), Deviations(actual);
    NoSpreadIffConstant(predicted);
    NoSpreadIffConstant(actual);
    DotSelf(a);
    DotSelf(b);
    CoefficientOf(a, b, sqrt, Dot(a, a), Dot(a, b), Dot(b, b));
  }

  /** Nothing to correlate: fewer than two pairs, or a side whose values are all equal. */
  lemma NoValue(predicted: seq<real>, actual: seq<real>, sqrt: real -> real)
    requires IsSquareRoot(sqrt) && |predicted| == |actual|
    requires |predicted| < 2 || Constant(predicted) || Constant(actual)
    ensures Ic(predicted, actual, sqrt) == 0.0
  {
    if |predicted| >= 2 {
      NoSpreadIffConstant(predicted);
      NoSpreadIffConstant(actual);
      RootOf(sqrt, 0.0);
    }
  }

  /** Ranks 1, 2, 3 against 1, 3, 2 correlate by one half. */
  lemma OneHalfExample(predicted: seq<real>, actual: seq<real>, sqrt: real -> real)
    requires IsSquareRoot(sqrt) && |predicted| == |actual| == 3
    requires predicted[0] < predicted[1] < predicted[2] && actual[0] < actual[2] < actual[1]
    ensures Ic(predicted, actual, sqrt) == 0.5
  {
    ThreeDifferences(predicted, actual);
    assert Spread(3.0) == 2.0;
    ValueWithoutTies(predicted, actual, sqrt);
    SixOver(2.0, 3.0);
  }

  lemma ThreeDifferences(predicted: seq<real>, actual: seq<real>)
    requires |predicted| == |actual| == 3
    requires predicted[0] < predicted[1] < predicted[2] && actual[0] < actual[2] < actual[1]
    ensures SquaredDifferences(predicted, actual) == 2.0
  {
    ThreeRanks(predicted);
    ThreeRanks(actual);
    var d := RankDifferences(predicted, actual);
    assert d == [0.0, -1.0, 1.0];
    assert d[1..] == [-1.0, 1.0] && d[1..][1..] == [1.0] && [1.0][1..] == [];
    assert Dot([1.0], [1.0]) == 1.0;
    assert Dot([-1.0, 1.0], [-1.0, 1.0]) == 2.0;
  }

  lemma ThreeRanks(s: seq<real>)
    requires |s| == 3
    ensures forall i | 0 <= i < 3 :: Ranks(s)[i] == Ahead(s[0], s[i]) + Ahead(s[1], s[i]) + Ahead(s[2], s[i]) + 0.5
  {
    forall i | 0 <= i < 3
      ensures Ranks(s)[i] == Ahead(s[0], s[i]) + Ahead(s[1], s[i]) + Ahead(s[2], s[i]) + 0.5
    {
      RankOfIsAhead(s, s[i]);
      assert s[1..] == [s[1], s[2]] && s[1..][1..] == [s[2]];
      assert SumOver([s[2]], IsAhead(s[i])) == Ahead(s[2], s[i]);
      assert SumOver([s[1], s[2]], IsAhead(s[i])) == Ahead(s[1], s[i]) + Ahead(s[2], s[i]);
    }
  }
}
