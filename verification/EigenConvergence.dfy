/** Why the Jacobi iteration ends by its convergence test and not by its limit
    (CorrelationMatrixEditor.tsx). */
module EigenConvergence {
  import opened EigenBounds
  import opened EigenLoop
  import opened EigenRuns
  import opened EigenSteps
  import opened Jacobi
  import opened Matrices
  import opened RealArith
  import opened Runs
  import opened Sequences

  // ----- Powers -----

  lemma {:induction false} PowerSign(x: real, k: nat)
    requires x >= 0.0
    ensures Power(x, k) >= 0.0
  {
    if k > 0 {
      PowerSign(x, k - 1);
      MulMono(0.0, Power(x, k - 1), x);
    }
  }

  lemma {:induction false} PowerFalls(x: real, j: nat, k: nat)
    requires 0.0 <= x <= 1.0 && j <= k
    ensures Power(x, k) <= Power(x, j)
    decreases k
  {
    if j < k {
      PowerFalls(x, j, k - 1);
      PowerSign(x, k - 1);
      MulMono(x, 1.0, Power(x, k - 1));
    }
  }

  lemma {:induction false} PowerRises(x: real, y: real, k: nat)
    requires 0.0 <= x <= y
    ensures Power(x, k) <= Power(y, k)
  {
    if k > 0 {
      PowerRises(x, y, k - 1);
      PowerSign(x, k - 1);
      PowerSign(y, k - 1);
      MulMono(x, y, Power(x, k - 1));
      MulMono(Power(x, k - 1), Power(y, k - 1), y);
    }
  }

  lemma {:induction false} PowerSum(x: real, j: nat, k: nat)
    ensures Power(x, j + k) == Power(x, j) * Power(x, k)
    decreases k
  {
    if k > 0 {
      PowerSum(x, j, k - 1);
      MulAssoc(Power(x, j), Power(x, k - 1), x);
    }
  }

  lemma {:induction false} PowerOfPower(x: real, h: nat, j: nat)
    ensures Power(x, h * j) == Power(Power(x, h), j)
    decreases j
  {
    if j > 0 {
      PowerOfPower(x, h, j - 1);
      PowerSum(x, h * (j - 1), h);
      assert h * j == h * (j - 1) + h;
    }
  }

  lemma BernoulliStep(x: real, r: real, p: real)
    requires 0.0 <= x <= 1.0 && r >= 0.0 && p >= 0.0 && p * (1.0 + r * x) <= 1.0
    ensures p * (1.0 - x) * (1.0 + (r + 1.0) * x) <= 1.0
  {
    var kept := 1.0 + r * x;
    assert (1.0 - x) * (1.0 + (r + 1.0) * x) == kept - (r + 1.0) * (x * x);
    MulMono(0.0, x, x);
    MulMono(0.0, r + 1.0, x * x);
    MulMono((1.0 - x) * (1.0 + (r + 1.0) * x), kept, p);
    MulAssoc(p, 1.0 - x, 1.0 + (r + 1.0) * x);
    assert p * ((1.0 - x) * (1.0 + (r + 1.0) * x)) == ((1.0 - x) * (1.0 + (r + 1.0) * x)) * p;
  }

  /** (1 - x)^k (1 + k x) is at most one. */
  lemma {:induction false} Bernoulli(x: real, k: nat)
    requires 0.0 <= x <= 1.0
    ensures Power(1.0 - x, k) * (1.0 + k as real * x) <= 1.0
  {
    if k > 0 {
      Bernoulli(x, k - 1);
      PowerSign(1.0 - x, k - 1);
      BernoulliStep(x, (k - 1) as real, Power(1.0 - x, k - 1));
      assert (k - 1) as real + 1.0 == k as real;
    }
  }

  lemma {:induction false} ProductCast(a: nat, b: nat)
    ensures (a * b) as real == a as real * b as real
    decreases b
  {
    if b > 0 {
      ProductCast(a, b - 1);
      assert a * b == a * (b - 1) + a;
      assert (b - 1) as real + 1.0 == b as real;
      AddProduct(a as real, (b - 1) as real);
    }
  }

  lemma AddProduct(x: real, y: real)
    ensures x * (y + 1.0) == x * y + x
  {
  }

  // ----- Rounds -----

  /** One rotation for each pair of different indices. */
  function Round(n: nat): nat {
    n * (n - 1) / 2
  }

  lemma {:induction false} TwiceRound(n: nat)
    ensures 2 * Round(n) == n * (n - 1)
  {
    if n > 0 {
      TwiceRound(n - 1);
      assert n * (n - 1) == (n - 1) * (n - 2) + 2 * (n - 1);
    }
  }

  lemma HalfOf(p: real, x: real, r: real)
    requires r * x == 1.0 && p * (1.0 + r * x) <= 1.0
    ensures p <= 0.5
  {
  }

  lemma ShareOfRound(cells: real, r: real)
    requires cells == 2.0 * r && cells >= 2.0
    ensures r * (2.0 / cells) == 1.0 && 0.0 <= 2.0 / cells <= 1.0
  {
    assert (2.0 / cells) * cells == 2.0;
    QuotientInUnit(2.0, cells);
  }

  /** A round of rotations at least halves the off-diagonal squares. */
  lemma RoundHalves(n: nat)
    requires n >= 2
    ensures 0.0 <= Power(Shrink(n), Round(n)) <= 0.5
  {
    var cells, r := n as real * (n - 1) as real, Round(n) as real;
    TwiceRound(n);
    ProductCast(n, n - 1);
    ProductCast(2, Round(n));
    ShrinkRange(n, Shrink(n));
    ShareOfRound(cells, r);
    Bernoulli(2.0 / cells, Round(n));
    PowerSign(Shrink(n), Round(n));
    HalfOf(Power(Shrink(n), Round(n)), 2.0 / cells, r);
  }

  const ROUNDS_DONE: nat := 200

  lemma EnoughRounds(n: nat)
    requires n >= 2
    ensures Round(n) * ROUNDS_DONE <= ITERATIONS * n * n
  {
    TwiceRound(n);
    assert Round(n) * ROUNDS_DONE == ITERATIONS * (n * (n - 1));
    assert ITERATIONS * (n * n) == ITERATIONS * (n * (n - 1)) + ITERATIONS * n;
    assert ITERATIONS * n * n == ITERATIONS * (n * n);
  }

  lemma TenHalves()
    ensures Power(0.5, 10) <= 0.001
  {
    assert Power(0.5, 1) == 0.5;
    assert Power(0.5, 2) == 0.25;
    assert Power(0.5, 3) == 0.125;
    assert Power(0.5, 4) == 0.0625;
    assert Power(0.5, 5) == 0.03125;
    PowerSum(0.5, 5, 5);
  }

  /** Forty halvings come below the threshold. */
  lemma FortyHalves()
    ensures 0.0 <= Power(0.5, 40) <= THRESHOLD
  {
    TenHalves();
    PowerSign(0.5, 10);
    PowerSign(0.5, 40);
    PowerOfPower(0.5, 10, 4);
    PowerRises(Power(0.5, 10), 0.001, 4);
    assert Power(0.001, 1) == 0.001;
    assert Power(0.001, 2) == 0.000001;
    assert Power(0.001, 3) == 0.000000001;
    assert Power(0.001, 4) == THRESHOLD;
  }

  /** So two hundred of them come below its fifth power. */
  lemma AllHalves()
    ensures 0.0 <= Power(0.5, ROUNDS_DONE) <= Power(THRESHOLD, 5)
  {
    FortyHalves();
    PowerSign(0.5, ROUNDS_DONE);
    PowerOfPower(0.5, 40, 5);
    PowerRises(Power(0.5, 40), THRESHOLD, 5);
  }

  /** What the iterations up to the limit leave of the off-diagonal squares. */
  lemma LimitShrinks(n: nat, limit: nat)
    requires n >= 2 && limit == ITERATIONS * n * n
    ensures 0.0 <= Power(Shrink(n), limit) <= Power(THRESHOLD, 5)
  {
    ShrinkRange(n, Shrink(n));
    EnoughRounds(n);
    PowerSign(Shrink(n), limit);
    PowerFalls(Shrink(n), Round(n) * ROUNDS_DONE, limit);
    PowerOfPower(Shrink(n), Round(n), ROUNDS_DONE);
    RoundHalves(n);
    PowerRises(Power(Shrink(n), Round(n)), 0.5, ROUNDS_DONE);
    AllHalves();
  }

  lemma SharedAtLimit(trig: Trig, m0: Matrix, m: Matrix, steps: nat) returns (share: real)
    requires Lawful(trig) && Symmetric(m0) && |m0| >= 2
    requires Reached(StepOf(trig), m0, m, steps) && steps == ITERATIONS * |m0| * |m0|
    ensures Square(m) && AtMost(OffSquares(m), share, OffSquares(m0))
    ensures 0.0 <= share <= Power(THRESHOLD, 5)
  {
    IterationsConverge(trig, m0, m, steps);
    LimitShrinks(|m0|, steps);
    share := Power(Shrink(|m0|), steps);
  }

  // ----- The end of the loop -----

  /** The off-diagonal squares sum to less than ten to the 36th. */
  ghost predicate Ordinary(m: Matrix)
    requires Square(m)
  {
    Power(THRESHOLD, 3) * OffSquares(m) < 1.0
  }

  lemma BelowSquare(off: real, off0: real, share: real)
    requires 0.0 <= share <= Power(THRESHOLD, 5) && AtMost(off, share, off0) && off0 >= 0.0
    requires Power(THRESHOLD, 3) * off0 < 1.0
    ensures off < THRESHOLD * THRESHOLD
  {
    PowerSum(THRESHOLD, 2, 3);
    assert Power(THRESHOLD, 1) == THRESHOLD;
    assert Power(THRESHOLD, 2) == THRESHOLD * THRESHOLD;
    MulMono(share, Power(THRESHOLD, 5), off0);
    MulAssoc(Power(THRESHOLD, 2), Power(THRESHOLD, 3), off0);
  }

  lemma OffSquaresSign(m: Matrix)
    requires Square(m)
    ensures OffSquares(m) >= 0.0
  {
    forall k | 0 <= k < |m|
      ensures OffRowSums(m)[k] >= 0.0
    {
      RowSquaresNonNegative(m, k);
    }
    SumNonNegative(OffRowSums(m));
  }

  lemma SquaresBelow(x: real, mu: real)
    requires Times(x, x) < mu * mu && mu > 0.0
    ensures Abs(x) < mu
  {
    assert Abs(x) * Abs(x) == x * x;
    if Abs(x) >= mu {
      MulBoth(mu, mu, Abs(x), Abs(x));
    }
  }

  lemma SmallSquaresConverged(m: Matrix)
    requires Square(m) && OffSquares(m) < THRESHOLD * THRESHOLD
    ensures Converged(m)
  {
    forall i, j | 0 <= i < |m| && 0 <= j < |m| && i != j
      ensures Abs(m[i][j]) < THRESHOLD
    {
      EntrySquareAtMost(m, i, j);
      SquaresBelow(m[i][j], THRESHOLD);
    }
  }

  /** Iterating up to the limit leaves nothing for the convergence test to object to. */
  lemma LimitConverges(trig: Trig, m0: Matrix, m: Matrix, steps: nat)
    requires Lawful(trig) && Symmetric(m0) && |m0| >= 2 && Ordinary(m0)
    requires Reached(StepOf(trig), m0, m, steps) && steps == ITERATIONS * |m0| * |m0|
    ensures Square(m) && Converged(m)
  {
    var share := SharedAtLimit(trig, m0, m, steps);
    OffSquaresSign(m0);
    BelowSquare(OffSquares(m), OffSquares(m0), share);
    SmallSquaresConverged(m);
  }

  /** Whichever way the loop stops, the matrix it leaves has converged. */
  lemma LoopConverges(trig: Trig, m0: Matrix, m: Matrix, steps: nat)
    requires Lawful(trig) && Symmetric(m0) && Ordinary(m0) && Square(m)
    requires Reached(StepOf(trig), m0, m, steps) && steps <= ITERATIONS * |m0| * |m0|
    requires steps < ITERATIONS * |m0| * |m0| ==> Converged(m)
    ensures Converged(m)
  {
    if steps == ITERATIONS * |m0| * |m0| {
      if |m0| >= 2 {
        LimitConverges(trig, m0, m, steps);
      } else {
        StepsAreTame(trig, 0.0);
        RunKeeps(StepOf(trig), m0, m, steps);
      }
    }
  }

  /** A matrix of correlations of any realistic size is ordinary. */
  lemma CorrelationsAreOrdinary(m: Matrix)
    requires Square(m) && 0 < |m| <= 1000000000000000000 && OffDiagonalWithin(m, 1.0)
    ensures Ordinary(m)
  {
    forall i, j | 0 <= i < |m| && 0 <= j < |m| && i != j
      ensures Times(m[i][j], m[i][j]) <= 1.0
    {
      SquareWithin(m[i][j], 1.0);
    }
    OffSquaresAtMost(m, 1.0);
    OffSquaresSign(m);
    FewCells(|m| as real, (|m| - 1) as real, OffSquares(m));
  }

  lemma FewCells(n: real, k: real, off: real)
    requires 0.0 <= n <= 1000000000000000000.0 && 0.0 <= k <= 999999999999999999.0 && 0.0 <= off <= n * (k * 1.0)
    ensures Power(THRESHOLD, 3) * off < 1.0
  {
    MulBoth(n, k, 1000000000000000000.0, 999999999999999999.0);
    assert Power(THRESHOLD, 1) == THRESHOLD;
    assert Power(THRESHOLD, 2) == THRESHOLD * THRESHOLD;
    TinyTimes(Power(THRESHOLD, 3), off);
  }

  lemma TinyTimes(tiny: real, off: real)
    requires tiny == 0.000000000000000000000000000000000001 && 0.0 <= off < 1000000000000000000000000000000000000.0
    ensures tiny * off < 1.0
  {
  }

  /** What the iterations up to the limit can add to a deviation, n sizes the matrix. */
  function MostDrift(n: nat): real {
    Manyfold(50 * n * n, 0.000000000000001)
  }

  lemma DriftAtMost(n: nat, steps: nat)
    requires steps <= ITERATIONS * n * n
    ensures Drift(steps) <= MostDrift(n)
  {
    DriftClosedForm(steps);
    MulMono(steps as real, (ITERATIONS * n * n) as real, NEAR / 2.0);
    assert ITERATIONS * n * n == 2 * (50 * n * n);
  }

  lemma SlackRises(n: nat, mu: real, b: real, c: real)
    requires b <= c
    ensures Slack(n, mu, b) <= Slack(n, mu, c)
  {
    MulMono(b, c, n as real);
    Commuted(n, b);
    Commuted(n, c);
  }

  lemma Commuted(n: nat, x: real)
    ensures Manyfold(n, x) == x * n as real
  {
  }

  /** Hence every eigenvalue is within (n - 1) THRESHOLD + n Drift of a returned value, which is at
      most (n - 1) 10 ^ -12 + n 50 n n 10 ^ -15: a bound known before the run. */
  lemma EigenvaluesWithinThreshold(trig: Trig, m0: Matrix, m: Matrix, steps: nat, v: seq<real>, d: real) returns (i: nat)
    requires Lawful(trig) && Symmetric(m0) && Ordinary(m0) && Square(m) && IsEigenpair(m0, v, d)
    requires Reached(StepOf(trig), m0, m, steps) && steps <= ITERATIONS * |m0| * |m0|
    requires steps < ITERATIONS * |m0| * |m0| ==> Converged(m)
    ensures i < |m| && Abs(d - m[i][i]) <= Slack(|m|, 0.000000000001, Drift(steps)) <= Slack(|m|, 0.000000000001, MostDrift(|m0|))
  {
    LoopConverges(trig, m0, m, steps);
    assert OffDiagonalWithin(m, THRESHOLD);
    i := EveryEigenvalueIsFound(trig, m0, m, steps, v, d, THRESHOLD);
    DriftAtMost(|m0|, steps);
    SlackRises(|m|, THRESHOLD, Drift(steps), MostDrift(|m0|));
  }
}
