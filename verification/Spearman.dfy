/** The information coefficient: Pearson correlation of ranks (weekly_validator.py). */
module Spearman {
  import opened InnerProducts
  import opened Ranking
  import opened RealArith
  import opened Sequences

  function Mean(s: seq<real>): real
    requires s != []
  {
    Sum(s) / |s| as real
  }

  function Shift(s: seq<real>, m: real): (r: seq<real>)
    ensures |r| == |s|
  {
    seq(|s|, i requires 0 <= i < |s| => s[i] - m)
  }

  /** Distances of the ranks from their mean. */
  function Deviations(values: seq<real>): (r: seq<real>)
    requires values != []
    ensures |r| == |values|
  {
    Centred(Ranks(values))
  }

  function Centred(ranks: seq<real>): (r: seq<real>)
    requires ranks != []
    ensures |r| == |ranks|
  {
    Shift(ranks, Mean(ranks))
  }

  function Quotient(numerator: real, denomPred: real, denomActual: real): real {
    if denomPred == 0.0 || denomActual == 0.0 then 0.0 else numerator / (denomPred * denomActual)
  }

  function Correlation(a: seq<real>, b: seq<real>, sqrt: real -> real): real
    requires |a| == |b|
  {
    Quotient(Dot(a, b), sqrt(Dot(a, a)), sqrt(Dot(b, b)))
  }

  /** The correlation of the ranks, for a given square root. */
  function Ic(predicted: seq<real>, actual: seq<real>, sqrt: real -> real): real
    requires |predicted| == |actual|
  {
    if |predicted| < 2 then 0.0 else Correlation(Deviations(predicted), Deviations(actual), sqrt)
  }

  function Firsts(pairs: seq<(real, real)>): seq<real> {
    seq(|pairs|, i requires 0 <= i < |pairs| => pairs[i].0)
  }

  function Seconds(pairs: seq<(real, real)>): seq<real> {
    seq(|pairs|, i requires 0 <= i < |pairs| => pairs[i].1)
  }

  ghost predicate IsSquareRoot(sqrt: real -> real) {
    forall x | x >= 0.0 :: sqrt(x) >= 0.0 && sqrt(x) * sqrt(x) == x
  }

  method ComputeSpearmanIc(pairs: seq<(real, real)>, sqrt: real -> real) returns (ic: real)
    ensures ic == Ic(Firsts(pairs), Seconds(pairs), sqrt)
  {
    if |pairs| < 2 {
      return 0.0;
    }
    var predRanks := Rank(Firsts(pairs));
    var x := predRanks[..];
    var actualRanks := Rank(Seconds(pairs));
    var y := actualRanks[..];
    var a, b := Centred(x), Centred(y);
    var numerator, denomPred, denomActual := Dot(a, b), sqrt(Dot(a, a)), sqrt(Dot(b, b));
    ic := Quotient(numerator, denomPred, denomActual);
  }

  // ----- Range -----

  lemma RootOf(sqrt: real -> real, x: real)
    requires IsSquareRoot(sqrt) && x >= 0.0
    ensures sqrt(x) >= 0.0 && sqrt(x) * sqrt(x) == x
    ensures sqrt(x) == 0.0 <==> x == 0.0
  {
    SquareSign(sqrt(x));
  }

  lemma QuotientRange(x: real, d: real)
    requires d > 0.0 && -d <= x <= d
    ensures -1.0 <= x / d <= 1.0
    ensures x / d == 1.0 <==> x == d
    ensures x / d == -1.0 <==> x == -d
  {
    var q := x / d;
    assert q * d == x;
  }

  /** A quotient by two roots, for sums of squares u and w and a product v between them. */
  lemma QuotientOfRoots(u: real, v: real, w: real, x: real, y: real)
    requires x >= 0.0 && y >= 0.0 && x * x == u && y * y == w && v * v <= u * w
    ensures -1.0 <= Quotient(v, x, y) <= 1.0
    ensures Quotient(v, x, y) == 1.0 <==> v > 0.0 && v * v == u * w && u != 0.0 && w != 0.0
  {
    MulZero(x, x);
    MulZero(y, y);
    MulZero(x, y);
    var d := x * y;
    assert d * d == u * w by {
      assert d * d == (x * x) * (y * y);
    }
    if d != 0.0 {
      SquaresCompare(v, d);
      QuotientRange(v, d);
      if v > 0.0 && v * v == d * d {
        SameSquares(d, v);
      }
    }
  }

  lemma CorrelationOf(a: seq<real>, b: seq<real>, sqrt: real -> real, u: real, v: real, w: real)
    requires IsSquareRoot(sqrt) && |a| == |b| && u == Dot(a, a) && v == Dot(a, b) && w == Dot(b, b)
    ensures -1.0 <= Correlation(a, b, sqrt) <= 1.0
    ensures Correlation(a, b, sqrt) == 1.0 <==> v > 0.0 && v * v == u * w && u != 0.0 && w != 0.0
  {
    DotSelf(a);
    DotSelf(b);
    CauchySchwarz(a, b, u, v, w);
    RootOf(sqrt, u);
    RootOf(sqrt, w);
    QuotientOfRoots(u, v, w, sqrt(u), sqrt(w));
  }

  lemma IcInUnit(predicted: seq<real>, actual: seq<real>, sqrt: real -> real)
    requires IsSquareRoot(sqrt) && |predicted| == |actual|
    ensures -1.0 <= Ic(predicted, actual, sqrt) <= 1.0
  {
    if |predicted| >= 2 {
      var a, b := Deviations(predicted), Deviations(actual);
      CorrelationOf(a, b, sqrt, Dot(a, a), Dot(a, b), Dot(b, b));
    }
  }

  // ----- Extremes -----

  ghost predicate Constant(s: seq<real>) {
    forall i, j | 0 <= i < |s| && 0 <= j < |s| :: s[i] == s[j]
  }

  lemma MeanIs(s: seq<real>, m: real)
    requires s != [] && Sum(s) == |s| as real * m
    ensures Mean(s) == m
  {
    DivExact(m, |s| as real);
  }

  lemma MeanOfConstant(s: seq<real>)
    requires s != [] && Constant(s)
    ensures Mean(s) == s[0]
  {
    SumOfEqual(s, s[0]);
    MeanIs(s, s[0]);
  }

  lemma HalfProduct(n: real)
    ensures n * (n + 1.0) / 2.0 == n * ((n + 1.0) / 2.0)
  {
  }

  lemma MeanRank(values: seq<real>)
    requires values != []
    ensures Mean(Ranks(values)) == (|values| as real + 1.0) / 2.0
  {
    RankSum(values);
    HalfProduct(|values| as real);
    MeanIs(Ranks(values), (|values| as real + 1.0) / 2.0);
  }

  /** The denominator of a side vanishes exactly when all its values are equal. */
  lemma NoSpreadIffConstant(values: seq<real>)
    requires values != []
    ensures Dot(Deviations(values), Deviations(values)) == 0.0 <==> Constant(values)
  {
    var ranks, dev := Ranks(values), Deviations(values);
    DotSelf(dev);
    if Constant(values) {
      forall i, j | 0 <= i < |ranks| && 0 <= j < |ranks|
        ensures ranks[i] == ranks[j]
      {
        RanksKeepOrder(values, i, j);
      }
      MeanOfConstant(ranks);
    } else {
      var i, j :| 0 <= i < |values| && 0 <= j < |values| && values[i] != values[j];
      RanksKeepOrder(values, i, j);
      assert dev[i] - dev[j] == ranks[i] - ranks[j];
    }
  }

  lemma DeviationsKeepOrder(values: seq<real>, i: nat, j: nat)
    requires i < |values| && j < |values|
    ensures Deviations(values)[i] < Deviations(values)[j] <==> values[i] < values[j]
  {
    RanksKeepOrder(values, i, j);
  }

  lemma ScaledOrder(w: real, v: real, x: real, y: real, x': real, y': real)
    requires w > 0.0 && v > 0.0 && Term(w, x, v, y) == 0.0 && Term(w, x', v, y') == 0.0
    ensures x < x' <==> y < y'
  {
    MulMinus(w, x', x);
    MulMinus(v, y', y);
    SignOfProduct(w, x' - x);
    SignOfProduct(v, y' - y);
  }

  /** Proportional deviations order the values alike. */
  lemma ProportionalSameOrder(predicted: seq<real>, actual: seq<real>, w: real, v: real)
    requires |predicted| == |actual| > 0 && w > 0.0 && v > 0.0
    requires Proportional(w, Deviations(predicted), v, Deviations(actual))
    ensures SameOrder(predicted, actual)
  {
    var a, b := Deviations(predicted), Deviations(actual);
    forall i, j | 0 <= i < |a| && 0 <= j < |a|
      ensures predicted[i] < predicted[j] <==> actual[i] < actual[j]
    {
      DeviationsKeepOrder(predicted, i, j);
      DeviationsKeepOrder(actual, i, j);
      ScaledOrder(w, v, a[i], b[i], a[j], b[j]);
    }
  }

  /** The coefficient is one exactly when the scores order the outcomes perfectly and are not
      all equal. */
  lemma PerfectIffSameOrder(predicted: seq<real>, actual: seq<real>, sqrt: real -> real)
    requires IsSquareRoot(sqrt) && |predicted| == |actual|
    ensures Ic(predicted, actual, sqrt) == 1.0
       <==> |predicted| >= 2 && SameOrder(predicted, actual) && !Constant(predicted)
  {
    if |predicted| >= 2 {
      var a, b := Deviations(predicted), Deviations(actual);
      NoSpreadIffConstant(predicted);
      if SameOrder(predicted, actual) {
        SameOrderSameRanks(predicted, actual);
        CorrelationOfSelf(a, sqrt, Dot(a, a));
      }
      if Ic(predicted, actual, sqrt) == 1.0 {
        OneMeansProportional(a, b, sqrt, Dot(a, a), Dot(a, b), Dot(b, b));
        ProportionalSameOrder(predicted, actual, Dot(b, b), Dot(a, b));
      }
    }
  }

  lemma CorrelationOfSelf(a: seq<real>, sqrt: real -> real, u: real)
    requires IsSquareRoot(sqrt) && u == Dot(a, a)
    ensures Correlation(a, a, sqrt) == 1.0 <==> u != 0.0
  {
    CorrelationOf(a, a, sqrt, u, u, u);
    DotSelf(a);
  }

  lemma OneMeansProportional(a: seq<real>, b: seq<real>, sqrt: real -> real, u: real, v: real, w: real)
    requires IsSquareRoot(sqrt) && |a| == |b| && u == Dot(a, a) && v == Dot(a, b) && w == Dot(b, b)
    requires Correlation(a, b, sqrt) == 1.0
    ensures w > 0.0 && v > 0.0 && Proportional(w, a, v, b) && u != 0.0
  {
    CorrelationOf(a, b, sqrt, u, v, w);
    DotSelf(b);
    CauchySchwarz(a, b, u, v, w);
  }

  /** Turning one order around negates the deviations. */
  lemma MirroredDeviations(values: seq<real>, mirrored: seq<real>)
    requires values != [] && OppositeOrder(values, mirrored)
    ensures forall i | 0 <= i < |values| :: Deviations(mirrored)[i] == -Deviations(values)[i]
  {
    OppositeOrderMirrorsRanks(values, mirrored);
    MeanRank(values);
    MeanRank(mirrored);
  }

  /** Reversing the order of one side flips the sign of the coefficient. */
  lemma ReversalNegates(predicted: seq<real>, actual: seq<real>, reversed: seq<real>, sqrt: real -> real)
    requires |predicted| == |actual| && OppositeOrder(actual, reversed)
    ensures Ic(predicted, reversed, sqrt) == -Ic(predicted, actual, sqrt)
  {
    if |predicted| >= 2 {
      var a, b, c := Deviations(predicted), Deviations(actual), Deviations(reversed);
      MirroredDeviations(actual, reversed);
      DotNegated(a, b, c);
      NegatedSquares(b, c);
      QuotientNegated(Dot(a, b), sqrt(Dot(a, a)), sqrt(Dot(b, b)));
    }
  }

  lemma QuotientNegated(v: real, x: real, y: real)
    ensures Quotient(-v, x, y) == -Quotient(v, x, y)
  {
    MulZero(x, y);
  }

  lemma IcSymmetric(predicted: seq<real>, actual: seq<real>, sqrt: real -> real)
    requires |predicted| == |actual|
    ensures Ic(predicted, actual, sqrt) == Ic(actual, predicted, sqrt)
  {
    if |predicted| >= 2 {
      DotSymmetric(Deviations(predicted), Deviations(actual));
    }
  }

  /** The module's text ranks both sides in descending order and the code in ascending order:
      the coefficient is the same. */
  lemma DescendingRanksAgree(predicted: seq<real>, actual: seq<real>, predicted': seq<real>, actual': seq<real>,
                             sqrt: real -> real)
    requires |predicted| == |actual| && OppositeOrder(predicted, predicted') && OppositeOrder(actual, actual')
    ensures Ic(predicted', actual', sqrt) == Ic(predicted, actual, sqrt)
  {
    ReversalNegates(predicted, actual, actual', sqrt);
    IcSymmetric(predicted, actual', sqrt);
    ReversalNegates(actual', predicted, predicted', sqrt);
    IcSymmetric(predicted', actual', sqrt);
  }

  /** The coefficient is minus one exactly when the scores order the outcomes backwards. */
  lemma WorstIffOppositeOrder(predicted: seq<real>, actual: seq<real>, sqrt: real -> real)
    requires IsSquareRoot(sqrt) && |predicted| == |actual|
    ensures Ic(predicted, actual, sqrt) == -1.0
       <==> |predicted| >= 2 && OppositeOrder(predicted, actual) && !Constant(predicted)
  {
    var negated := seq(|actual|, i requires 0 <= i < |actual| => -actual[i]);
    ReversalNegates(predicted, actual, negated, sqrt);
    PerfectIffSameOrder(predicted, negated, sqrt);
    if OppositeOrder(predicted, actual) {
      assert SameOrder(predicted, negated);
    }
    if SameOrder(predicted, negated) {
      forall i, j | 0 <= i < |actual| && 0 <= j < |actual|
        ensures predicted[i] < predicted[j] <==> actual[i] > actual[j]
      {
        assert predicted[i] < predicted[j] <==> negated[i] < negated[j];
      }
    }
  }

  /** Only the order of each side matters. */
  lemma OnlyOrderMatters(predicted: seq<real>, actual: seq<real>, predicted': seq<real>, actual': seq<real>,
                         sqrt: real -> real)
    requires |predicted| == |actual| && SameOrder(predicted, predicted') && SameOrder(actual, actual')
    ensures Ic(predicted', actual', sqrt) == Ic(predicted, actual, sqrt)
  {
    SameOrderSameRanks(predicted, predicted');
    SameOrderSameRanks(actual, actual');
  }
}
