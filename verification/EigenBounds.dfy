/** How close the values the Jacobi loop returns are to the eigenvalues of its input
    (CorrelationMatrixEditor.tsx). */
module EigenBounds {
  import opened EigenLoop
  import opened EigenRuns
  import opened EigenSteps
  import opened InnerProducts
  import opened Jacobi
  import opened Matrices
  import opened RealArith
  import opened Runs
  import opened Sequences

  ghost predicate OffDiagonalWithin(m: Matrix, mu: real)
    requires Square(m)
  {
    forall i, j | 0 <= i < |m| && 0 <= j < |m| && i != j :: Abs(m[i][j]) <= mu
  }

  // ----- A diagonal entry is nearly an eigenvalue -----

  function UnitVector(n: nat, i: nat): (v: seq<real>)
    requires i < n
    ensures |v| == n
  {
    seq(n, k => if k == i then 1.0 else 0.0)
  }

  lemma DotUnitVector(a: seq<real>, i: nat)
    requires i < |a|
    ensures Dot(a, UnitVector(|a|, i)) == a[i]
  {
    var n, e := |a|, UnitVector(|a|, i);
    var products := Products(a, e);
    DotIsSum(a, e);
    var zeros := seq(n, _ => 0.0);
    forall k | 0 <= k < n
      ensures products[k] == zeros[i := a[i]][k]
    {
      assert products[k] == Times(a[k], e[k]);
    }
    assert products == zeros[i := a[i]];
    SumReplaced(zeros, i, a[i]);
    SumOfEqual(zeros, 0.0);
  }

  /** How much n - 1 entries of size mu weigh. */
  function Weight(n: nat, mu: real): real {
    if n == 0 then 0.0 else Manyfold(n - 1, mu)
  }

  /** The unit vector i deviates from being an eigenvector by the rest of its row. */
  lemma UnitDeviation(m: Matrix, i: nat)
    requires Symmetric(m) && i < |m|
    ensures var e := UnitVector(|m|, i);
            Dot(Deviation(m, e, m[i][i]), Deviation(m, e, m[i][i])) == Sum(OffRow(m, i))
  {
    var n, e := |m|, UnitVector(|m|, i);
    var dev := Deviation(m, e, m[i][i]);
    DotIsSum(dev, dev);
    forall j | 0 <= j < n
      ensures Products(dev, dev)[j] == OffRow(m, i)[j]
    {
      DotUnitVector(m[j], i);
      assert m[j][i] == m[i][j];
      assert dev[j] == m[j][i] - Times(m[i][i], e[j]);
      UnitTimes(m[i][i]);
    }
    assert Products(dev, dev) == OffRow(m, i);
  }

  lemma UnitTimes(x: real)
    ensures Times(x, 1.0) == x && Times(x, 0.0) == 0.0
  {
  }

  lemma UnitVectorIsNear(m: Matrix, i: nat, mu: real)
    requires Symmetric(m) && i < |m| && OffDiagonalWithin(m, mu) && mu >= 0.0
    ensures Dot(UnitVector(|m|, i), UnitVector(|m|, i)) == 1.0
    ensures Near(m, UnitVector(|m|, i), m[i][i], Weight(|m|, mu))
  {
    var e := UnitVector(|m|, i);
    var dev := Deviation(m, e, m[i][i]);
    DotUnitVector(e, i);
    UnitDeviationIsSmall(m, i, mu, Weight(|m|, mu), Dot(dev, dev));
    NearByNumbers(m, e, m[i][i], Weight(|m|, mu), dev, Dot(dev, dev), Dot(e, e));
  }

  lemma UnitDeviationIsSmall(m: Matrix, i: nat, mu: real, weight: real, dd: real)
    requires Symmetric(m) && i < |m| && OffDiagonalWithin(m, mu) && mu >= 0.0 && weight == Weight(|m|, mu)
    requires var e := UnitVector(|m|, i); dd == Dot(Deviation(m, e, m[i][i]), Deviation(m, e, m[i][i]))
    ensures weight >= 0.0 && dd <= weight * weight
  {
    UnitDeviation(m, i);
    SmallRow(m, i, mu, mu * mu);
    CountSquares(|m| - 1, mu, weight, mu * mu);
  }

  lemma NearByNumbers(m: Matrix, v: seq<real>, d: real, b: real, dev: seq<real>, dd: real, vv: real)
    requires Square(m) && |v| == |m| && b >= 0.0
    requires dev == Deviation(m, v, d) && dd == Dot(dev, dev) && vv == Dot(v, v) == 1.0 && dd <= b * b
    ensures Near(m, v, d, b)
  {
    UnitTimes(b * b);
  }

  lemma SmallRow(m: Matrix, i: nat, mu: real, bb: real)
    requires Square(m) && i < |m| && OffDiagonalWithin(m, mu) && bb == mu * mu
    ensures Sum(OffRow(m, i)) <= Manyfold(|m| - 1, bb)
  {
    forall k, l | 0 <= k < |m| && 0 <= l < |m| && k != l
      ensures Times(m[k][l], m[k][l]) <= bb
    {
      SquareWithin(m[k][l], mu);
    }
    OffRowAtMost(m, bb, i);
  }

  lemma SquareWithin(x: real, mu: real)
    requires Abs(x) <= mu
    ensures Times(x, x) <= mu * mu
  {
    MulBoth(Abs(x), Abs(x), mu, mu);
    assert Abs(x) * Abs(x) == x * x;
  }

  lemma CountSquares(k: nat, mu: real, weight: real, bb: real)
    requires mu >= 0.0 && weight == Manyfold(k, mu) && bb == mu * mu
    ensures Manyfold(k, bb) <= weight * weight
    ensures weight >= 0.0
  {
    var r := k as real;
    assert weight * weight == (r * r) * bb;
    assert r <= r * r;
    SquareSign(mu);
    MulMono(r, r * r, bb);
    MulMono(0.0, r, mu);
  }

  // ----- An eigenvalue is near a diagonal entry -----

  lemma {:induction false} LargestEntry(v: seq<real>) returns (i: nat)
    requires v != []
    ensures i < |v| && forall k | 0 <= k < |v| :: Abs(v[k]) <= Abs(v[i])
  {
    if |v| == 1 {
      i := 0;
    } else {
      var k := LargestEntry(v[1..]);
      i := if Abs(v[0]) > Abs(v[k + 1]) then 0 else k + 1;
      forall j | 0 <= j < |v|
        ensures Abs(v[j]) <= Abs(v[i])
      {
        if j > 0 {
          assert v[j] == v[1..][j - 1];
        }
      }
    }
  }

  lemma {:induction false} AbsOfSum(s: seq<real>, bound: real)
    requires forall k | 0 <= k < |s| :: Abs(s[k]) <= bound
    ensures Abs(Sum(s)) <= Manyfold(|s|, bound)
  {
    if s != [] {
      var n := |s| - 1;
      AbsOfSum(s[1..], bound);
      OneMore(n, bound);
      AbsOfTwo(s[0], Sum(s[1..]), bound, Manyfold(n, bound));
      assert |s| == n + 1;
    }
  }

  lemma AbsOfTwo(x: real, y: real, b: real, b': real)
    requires Abs(x) <= b && Abs(y) <= b'
    ensures Abs(x + y) <= b + b'
  {
  }

  /** A row applied to v is its diagonal term up to n - 1 small terms. */
  lemma RowIsNearlyDiagonal(row: seq<real>, v: seq<real>, i: nat, bound: real)
    requires |row| == |v| && i < |v|
    requires forall k | 0 <= k < |v| && k != i :: Abs(Times(row[k], v[k])) <= bound
    ensures Abs(Dot(row, v) - Times(row[i], v[i])) <= Weight(|v|, bound)
  {
    DotIsSum(row, v);
    SmallRest(Products(row, v), i, bound);
  }

  lemma SmallRest(s: seq<real>, i: nat, bound: real)
    requires i < |s| && forall k | 0 <= k < |s| && k != i :: Abs(s[k]) <= bound
    ensures Abs(Sum(s) - s[i]) <= Weight(|s|, bound)
  {
    SumWithout(s, i);
    forall k: nat | k < |s| - 1
      ensures Abs(Without(s, i)[k]) <= bound
    {
      WithoutFrom(s, i, k);
    }
    AbsOfSum(Without(s, i), bound);
  }

  lemma AbsTimes(x: real, y: real)
    ensures Abs(x * y) == Abs(x) * Abs(y)
  {
    SignOfProduct(x, y);
  }

  lemma ProductWithin(x: real, y: real, mu: real, top: real)
    requires Abs(x) <= mu && Abs(y) <= top
    ensures Abs(Times(x, y)) <= mu * top
  {
    MulBoth(Abs(x), Abs(y), mu, top);
    AbsTimes(x, y);
  }

  /** The square of a length, against the largest of n entries. */
  ghost predicate LengthWithin(vv: real, n: nat, top: real) {
    vv <= n as real * (top * top)
  }

  lemma DotSelfAtMost(v: seq<real>, top: real, vv: real)
    requires vv == Dot(v, v) && forall k | 0 <= k < |v| :: Abs(v[k]) <= top
    ensures LengthWithin(vv, |v|, top)
  {
    var square := top * top;
    DotIsSum(v, v);
    forall k | 0 <= k < |v|
      ensures Products(v, v)[k] <= square
    {
      SquareWithin(v[k], top);
    }
    SumAtMost(Products(v, v), square);
  }

  /** No square of an entry exceeds that of the length. */
  ghost predicate SquareBelow(x: real, aa: real) {
    Times(x, x) <= aa
  }

  lemma EntryWithin(a: seq<real>, i: nat, aa: real)
    requires i < |a| && aa == Dot(a, a)
    ensures SquareBelow(a[i], aa)
  {
    DotIsSum(a, a);
    forall k | 0 <= k < |a|
      ensures Products(a, a)[k] >= 0.0
    {
      SquareSign(a[k]);
    }
    SumAtLeast(Products(a, a), i);
  }

  ghost predicate SizeWithin(x: real, n: nat, b: real, top: real) {
    Abs(x) <= Times(Manyfold(n, b), top)
  }

  lemma FourFactors(r: real, t: real, b: real)
    ensures (r * (t * t)) * (b * b) == r * ((b * t) * (b * t))
  {
  }

  /** r, at least one, times a square is at most the square of r times its root. */
  lemma RootGrows(r: real, y: real)
    requires r >= 1.0
    ensures r * (y * y) <= (r * y) * (r * y)
  {
    var square := y * y;
    SquareSign(y);
    MulMono(1.0, r, r);
    MulMono(r, r * r, square);
    assert (r * y) * (r * y) == (r * r) * square;
  }

  /** One entry of the deviation, against the largest entry of the vector. */
  lemma DeviationEntry(x: real, dd: real, b: real, vv: real, n: nat, top: real)
    requires SquareBelow(x, dd) && dd <= Times(b * b, vv) && b >= 0.0 && top >= 0.0 && n >= 1
    requires LengthWithin(vv, n, top)
    ensures SizeWithin(x, n, b, top)
  {
    var r, y := n as real, b * top;
    SquareSign(b);
    MulMono(vv, r * (top * top), b * b);
    FourFactors(r, top, b);
    RootGrows(r, y);
    MulMono(0.0, b, top);
    MulMono(0.0, r, y);
    SmallerSquare(x, dd, r * (y * y), r * y);
    MulAssoc(r, b, top);
  }

  lemma SmallerSquare(x: real, dd: real, between: real, root: real)
    requires SquareBelow(x, dd) && dd <= between <= root * root && root >= 0.0
    ensures Abs(x) <= root
  {
    AbsFromSquares(x, root);
  }

  /** How far a value with a deviation of b can be from a diagonal entry. */
  function Slack(n: nat, mu: real, b: real): real {
    Weight(n, mu) + Manyfold(n, b)
  }

  lemma WeightTimes(n: nat, mu: real, top: real)
    ensures Weight(n, Times(mu, top)) == Times(Weight(n, mu), top)
  {
  }

  lemma SmallTerms(m: Matrix, v: seq<real>, i: nat, mu: real, top: real)
    requires Square(m) && OffDiagonalWithin(m, mu) && |v| == |m| && i < |m|
    requires forall k | 0 <= k < |v| :: Abs(v[k]) <= top
    ensures Abs(Dot(m[i], v) - Times(m[i][i], v[i])) <= Times(Weight(|m|, mu), top)
  {
    forall k | 0 <= k < |v| && k != i
      ensures Abs(Times(m[i][k], v[k])) <= Times(mu, top)
    {
      ProductWithin(m[i][k], v[k], mu, top);
    }
    RowIsNearlyDiagonal(m[i], v, i, Times(mu, top));
    WeightTimes(|m|, mu, top);
  }

  lemma EntryIsSmall(dev: seq<real>, v: seq<real>, b: real, i: nat, top: real, dd: real, vv: real)
    requires i < |dev| == |v| && top >= 0.0 && b >= 0.0
    requires forall k | 0 <= k < |v| :: Abs(v[k]) <= top
    requires dd == Dot(dev, dev) && vv == Dot(v, v) && dd <= Times(b * b, vv)
    ensures SizeWithin(dev[i], |v|, b, top)
  {
    EntryWithin(dev, i, dd);
    DotSelfAtMost(v, top, vv);
    DeviationEntry(dev[i], dd, b, vv, |v|, top);
  }

  /** A value with an approximate eigenvector lies close to a diagonal entry. */
  lemma NearDiagonal(m: Matrix, v: seq<real>, d: real, b: real, mu: real) returns (i: nat)
    requires Symmetric(m) && OffDiagonalWithin(m, mu) && Near(m, v, d, b) && Dot(v, v) > 0.0
    ensures i < |m| && Abs(d - m[i][i]) <= Slack(|m|, mu, b)
  {
    i := LargestEntry(v);
    TopIsPositive(v, i);
    SmallTerms(m, v, i, mu, Abs(v[i]));
    var dev := Deviation(m, v, d);
    EntryIsSmall(dev, v, b, i, Abs(v[i]), Dot(dev, dev), Dot(v, v));
    assert dev[i] == Dot(m[i], v) - Times(d, v[i]);
    CloseScalars(d, m[i][i], v[i], Dot(m[i], v), Weight(|m|, mu), Manyfold(|m|, b));
  }

  lemma TopIsPositive(v: seq<real>, i: nat)
    requires i < |v| && Dot(v, v) > 0.0 && forall k | 0 <= k < |v| :: Abs(v[k]) <= Abs(v[i])
    ensures v[i] != 0.0
  {
    DotSelf(v);
    var k :| 0 <= k < |v| && v[k] != 0.0;
    assert Abs(v[k]) > 0.0;
  }

  lemma CloseScalars(d: real, e: real, y: real, rowTimes: real, a: real, b: real)
    requires y != 0.0
    requires Abs(rowTimes - Times(e, y)) <= Times(a, Abs(y)) && Abs(rowTimes - Times(d, y)) <= Times(b, Abs(y))
    ensures Abs(d - e) <= a + b
  {
    var top := Abs(y);
    AbsOfTwo(rowTimes - Times(e, y), Times(d, y) - rowTimes, Times(a, top), Times(b, top));
    TimesGap(d, e, y);
    AbsTimes(d - e, y);
    TimesSum(a, b, top);
    CancelTop(Abs(d - e), a + b, top);
  }

  lemma CancelTop(x: real, y: real, top: real)
    requires top > 0.0 && x * top <= y * top
    ensures x <= y
  {
    if x > y {
      MulStrict(y, x, top);
    }
  }

  lemma TimesGap(d: real, e: real, y: real)
    ensures Times(d, y) - Times(e, y) == (d - e) * y
  {
  }

  lemma TimesSum(a: real, b: real, top: real)
    ensures Times(a, top) + Times(b, top) == (a + b) * top
  {
  }

  // ----- Main results -----

  lemma StepsAreTame(trig: Trig, f: real)
    requires Lawful(trig)
    ensures forall m, r | StepOf(trig)(m, r) ::
              Keeps(m, r) && Shrinks(m, r, f) && CarriesForward(m, r) && CarriesBack(m, r)
  {
    forall m, r | StepOf(trig)(m, r)
      ensures Keeps(m, r) && Shrinks(m, r, f) && CarriesForward(m, r) && CarriesBack(m, r)
    {
      EveryStepKeeps(trig, m, r);
      EveryStepShrinks(trig, m, r, f);
      EveryStepCarriesForward(trig, m, r);
      EveryStepCarriesBack(trig, m, r);
    }
  }

  /** After any number of iterations the diagonal still sums to the trace of the input, and the
      off-diagonal squares have fallen by the factor 1 - 2 / (n (n - 1)) per iteration. */
  lemma IterationsConverge(trig: Trig, m0: Matrix, m: Matrix, steps: nat)
    requires Lawful(trig) && Symmetric(m0) && |m0| >= 2 && Reached(StepOf(trig), m0, m, steps)
    ensures Symmetric(m) && |m| == |m0|
    ensures Sum(Diagonal(m)) == Trace(m0)
    ensures AtMost(OffSquares(m), Power(Shrink(|m0|), steps), OffSquares(m0))
  {
    StepsAreTame(trig, Shrink(|m0|));
    RunKeeps(StepOf(trig), m0, m, steps);
    RunShrinks(StepOf(trig), m0, m, steps, Shrink(|m0|));
  }

  lemma FoundAfterRun(step: (Matrix, Matrix) -> bool, m0: Matrix, m: Matrix, steps: nat, v: seq<real>, d: real, mu: real)
    returns (i: nat)
    requires Symmetric(m0) && Reached(step, m0, m, steps) && Near(m0, v, d, 0.0) && Dot(v, v) > 0.0
    requires forall a, r | step(a, r) :: Keeps(a, r) && CarriesForward(a, r)
    requires Square(m) && OffDiagonalWithin(m, mu)
    ensures i < |m| && Abs(d - m[i][i]) <= Slack(|m|, mu, Drift(steps))
  {
    RunKeeps(step, m0, m, steps);
    var w := RunForward(step, m0, m, steps, v, d, 0.0, Drift(steps));
    i := NearDiagonal(m, w, d, Drift(steps), mu);
  }

  /** Every eigenvalue of the input is within (n - 1) mu + n Drift(steps) of a returned value,
      where mu bounds what is left off the diagonal. */
  lemma EveryEigenvalueIsFound(trig: Trig, m0: Matrix, m: Matrix, steps: nat, v: seq<real>, d: real, mu: real)
    returns (i: nat)
    requires Lawful(trig) && Symmetric(m0) && Reached(StepOf(trig), m0, m, steps)
    requires Square(m) && OffDiagonalWithin(m, mu) && IsEigenpair(m0, v, d)
    ensures i < |m| && Abs(d - m[i][i]) <= Slack(|m|, mu, Drift(steps))
  {
    StepsAreTame(trig, 0.0);
    EigenpairIsNear(m0, v, d);
    i := FoundAfterRun(StepOf(trig), m0, m, steps, v, d, mu);
  }

  lemma EigenpairIsNear(m: Matrix, v: seq<real>, d: real)
    requires IsEigenpair(m, v, d)
    ensures Near(m, v, d, 0.0) && Dot(v, v) > 0.0
  {
    DotSelf(v);
    NoDeviation(m, v, d);
    NoSlack(Dot(v, v));
  }

  lemma NoDeviation(m: Matrix, v: seq<real>, d: real)
    requires IsEigenpair(m, v, d)
    ensures Dot(Deviation(m, v, d), Deviation(m, v, d)) == 0.0
  {
    var dev := Deviation(m, v, d);
    forall i | 0 <= i < |v|
      ensures dev[i] == 0.0
    {
      assert Dot(m[i], v) == d * v[i];
    }
    DotSelf(dev);
  }

  lemma NoSlack(x: real)
    ensures Times(0.0 * 0.0, x) == 0.0
  {
  }

  lemma NearlyEigenBeforeRun(step: (Matrix, Matrix) -> bool, m0: Matrix, m: Matrix, steps: nat, i: nat, mu: real)
    returns (v: seq<real>)
    requires Symmetric(m0) && Reached(step, m0, m, steps)
    requires forall a, r | step(a, r) :: Keeps(a, r) && CarriesBack(a, r)
    requires Square(m) && OffDiagonalWithin(m, mu) && mu >= 0.0 && i < |m|
    ensures Dot(v, v) == 1.0
    ensures Near(m0, v, m[i][i], Weight(|m|, mu) + Drift(steps))
  {
    RunKeeps(step, m0, m, steps);
    UnitVectorIsNear(m, i, mu);
    var b := Weight(|m|, mu);
    v := RunBackward(step, m0, m, steps, UnitVector(|m|, i), m[i][i], b, b + Drift(steps));
  }

  /** Every returned value comes with a vector of length one that the input maps to its multiple,
      up to (n - 1) mu + Drift(steps). */
  lemma EveryValueIsNearlyEigen(trig: Trig, m0: Matrix, m: Matrix, steps: nat, i: nat, mu: real)
    returns (v: seq<real>)
    requires Lawful(trig) && Symmetric(m0) && Reached(StepOf(trig), m0, m, steps)
    requires Square(m) && OffDiagonalWithin(m, mu) && mu >= 0.0 && i < |m|
    ensures Dot(v, v) == 1.0
    ensures Near(m0, v, m[i][i], Weight(|m|, mu) + Drift(steps))
  {
    StepsAreTame(trig, 0.0);
    v := NearlyEigenBeforeRun(StepOf(trig), m0, m, steps, i, mu);
  }

  lemma EntrySquareAtMost(m: Matrix, i: nat, j: nat)
    requires Square(m) && i < |m| && j < |m| && i != j
    ensures Times(m[i][j], m[i][j]) <= OffSquares(m)
  {
    forall k | 0 <= k < |m|
      ensures OffRowSums(m)[k] >= 0.0
    {
      RowSquaresNonNegative(m, k);
    }
    RowSquaresNonNegative(m, i);
    SumAtLeast(OffRowSums(m), i);
    SumAtLeast(OffRow(m, i), j);
    assert OffRow(m, i)[j] == Times(m[i][j], m[i][j]);
  }

  /** What the off-diagonal squares bound, every single entry off the diagonal obeys. */
  lemma EntriesFromSquares(m: Matrix, mu: real)
    requires Square(m) && mu >= 0.0 && OffSquares(m) <= mu * mu
    ensures OffDiagonalWithin(m, mu)
  {
    forall i, j | 0 <= i < |m| && 0 <= j < |m| && i != j
      ensures Abs(m[i][j]) <= mu
    {
      EntrySquareAtMost(m, i, j);
      AbsFromSquares(m[i][j], mu);
    }
  }
}
