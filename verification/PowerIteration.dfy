/** Power iteration over a row-stochastic matrix (calibrate.py). */
module PowerIteration {
  import opened Matrices
  import opened RealArith
  import opened Sequences

  type Vector = seq<real>

  ghost predicate Distribution(pi: Vector) {
    Sum(pi) == 1.0 && forall j | 0 <= j < |pi| :: pi[j] >= 0.0
  }

  /** Rows of length n, each a distribution. */
  ghost predicate StochasticMatrix(m: seq<Vector>, n: nat) {
    forall i | 0 <= i < |m| :: |m[i]| == n && Distribution(m[i])
  }

  /** Entry j of pi times m. */
  function ColumnDot(pi: Vector, m: seq<Vector>, j: nat): real
    requires |pi| == |m| && forall i | 0 <= i < |m| :: j < |m[i]|
  {
    if pi == [] then 0.0 else Times(pi[0], m[0][j]) + ColumnDot(pi[1..], m[1..], j)
  }

  function Advance(pi: Vector, m: seq<Vector>, n: nat): (r: Vector)
    requires |pi| == |m| && forall i | 0 <= i < |m| :: |m[i]| == n
    ensures |r| == n
  {
    seq(n, j requires 0 <= j < n => ColumnDot(pi, m, j))
  }

  function Scaled(x: real, s: Vector): (r: Vector)
    ensures |r| == |s|
  {
    seq(|s|, i requires 0 <= i < |s| => Times(x, s[i]))
  }

  lemma {:induction false} SumScaled(x: real, s: Vector)
    ensures Sum(Scaled(x, s)) == x * Sum(s)
  {
    if s != [] {
      SumScaled(x, s[1..]);
      forall i | 0 <= i < |s| - 1
        ensures Scaled(x, s)[1..][i] == Scaled(x, s[1..])[i]
      {
        assert Scaled(x, s)[1..][i] == Times(x, s[i + 1]);
      }
      assert Scaled(x, s)[1..] == Scaled(x, s[1..]);
      assert x * (s[0] + Sum(s[1..])) == x * s[0] + x * Sum(s[1..]);
    }
  }

  lemma AdvanceUnfolds(pi: Vector, m: seq<Vector>, n: nat)
    requires |pi| == |m| > 0 && forall i | 0 <= i < |m| :: |m[i]| == n
    ensures Advance(pi, m, n) == AddSeries(Scaled(pi[0], m[0]), Advance(pi[1..], m[1..], n))
  {
  }

  /** Non-negative weights on non-negative columns. */
  lemma {:induction false} ColumnSign(pi: Vector, m: seq<Vector>, j: nat)
    requires |pi| == |m| && forall i | 0 <= i < |m| :: j < |m[i]| && m[i][j] >= 0.0
    requires forall i | 0 <= i < |pi| :: pi[i] >= 0.0
    ensures ColumnDot(pi, m, j) >= 0.0
  {
    if pi != [] {
      ColumnSign(pi[1..], m[1..], j);
      MulMono(0.0, pi[0], m[0][j]);
    }
  }

  /** A step of the chain keeps the total and the sign of the weights. */
  lemma AdvanceKeepsMass(pi: Vector, m: seq<Vector>, n: nat)
    requires |pi| == |m| && StochasticMatrix(m, n)
    ensures Sum(Advance(pi, m, n)) == Sum(pi)
    ensures (forall i | 0 <= i < |pi| :: pi[i] >= 0.0) ==> forall j | 0 <= j < n :: Advance(pi, m, n)[j] >= 0.0
  {
    AdvanceKeepsTotal(pi, m, n);
    if forall i | 0 <= i < |pi| :: pi[i] >= 0.0 {
      forall j | 0 <= j < n
        ensures Advance(pi, m, n)[j] >= 0.0
      {
        ColumnSign(pi, m, j);
      }
    }
  }

  lemma {:induction false} AdvanceKeepsTotal(pi: Vector, m: seq<Vector>, n: nat)
    requires |pi| == |m| && StochasticMatrix(m, n)
    ensures Sum(Advance(pi, m, n)) == Sum(pi)
  {
    if pi == [] {
      SumOfEqual(Advance(pi, m, n), 0.0);
    } else {
      AdvanceKeepsTotal(pi[1..], m[1..], n);
      AdvanceUnfolds(pi, m, n);
      SumAddSeries(Scaled(pi[0], m[0]), Advance(pi[1..], m[1..], n));
      WeightedRow(pi[0], m[0]);
    }
  }

  /** The vector after k steps. */
  function After(pi: Vector, m: seq<Vector>, n: nat, k: nat): (r: Vector)
    requires |pi| == |m| == n && forall i | 0 <= i < |m| :: |m[i]| == n
    ensures |r| == n
  {
    if k == 0 then pi else Advance(After(pi, m, n, k - 1), m, n)
  }

  lemma {:induction false} StaysDistribution(pi: Vector, m: seq<Vector>, n: nat, k: nat)
    requires |pi| == |m| == n && StochasticMatrix(m, n) && Distribution(pi)
    ensures Distribution(After(pi, m, n, k))
  {
    if k > 0 {
      StaysDistribution(pi, m, n, k - 1);
      AdvanceKeepsMass(After(pi, m, n, k - 1), m, n);
    }
  }

  const ROUNDS: nat := 10000
  const ATOL: real := 0.000000000001
  const RTOL: real := 0.00001

  /** No entry of pi changes in a step by more than 10 ^ -12 and a hundred thousandth of itself. */
  predicate Steady(pi: Vector, m: seq<Vector>, n: nat)
    requires |pi| == |m| == n && forall i | 0 <= i < |m| :: |m[i]| == n
  {
    forall j | 0 <= j < n ::
      var next, now := Advance(pi, m, n)[j], pi[j];
      var slack := 0.000000000001 + (if now >= 0.0 then now else -now) / 100000.0;
      now - slack <= next <= now + slack
  }

  /** Each of the first k steps from the uniform vector still changes something. */
  ghost predicate UnsteadyUntil(m: seq<Vector>, n: nat, k: nat)
    requires n > 0 && |m| == n && forall i | 0 <= i < |m| :: |m[i]| == n
  {
    forall l: nat | l < k :: !Steady(After(Uniform(n), m, n, l), m, n)
  }

  lemma CloseIsSteady(pi: Vector, m: seq<Vector>, n: nat)
    requires |pi| == |m| == n && forall i | 0 <= i < |m| :: |m[i]| == n
    ensures AllClose(Advance(pi, m, n), pi) <==> Steady(pi, m, n)
  {
  }

  predicate AllClose(a: Vector, b: Vector)
    requires |a| == |b|
  {
    forall j | 0 <= j < |a| :: Abs(a[j] - b[j]) <= ATOL + RTOL * Abs(b[j])
  }

  function Uniform(n: nat): (r: Vector)
    requires n > 0
    ensures |r| == n
  {
    seq(n, _ => 1.0 / n as real)
  }

  /** The iteration starts from the distribution that gives all states the same weight. */
  lemma UniformIsDistribution(n: nat)
    requires n > 0
    ensures Distribution(Uniform(n)) && forall i, j | 0 <= i < n && 0 <= j < n :: Uniform(n)[i] == Uniform(n)[j]
  {
    var share := 1.0 / n as real;
    SumOfEqual(Uniform(n), share);
    assert n as real * share == 1.0;
  }

  /** Steps until two successive vectors are close, at most rounds times; the last vector is the
      one before the step that was close. */
  method Iterate(m: seq<Vector>, n: nat, rounds: nat) returns (pi: Vector, ghost k: nat)
    requires n > 0 && |m| == n && forall i | 0 <= i < |m| :: |m[i]| == n
    ensures k <= rounds && pi == After(Uniform(n), m, n, k)
    ensures k < rounds ==> Steady(pi, m, n)
    ensures UnsteadyUntil(m, n, k)
    ensures StochasticMatrix(m, n) ==> Distribution(pi)
  {
    UniformIsDistribution(n);
    pi, k := Uniform(n), 0;
    for round := 0 to rounds
      invariant k == round && pi == After(Uniform(n), m, n, k)
      invariant UnsteadyUntil(m, n, k)
    {
      CloseIsSteady(pi, m, n);
      var piNew := Advance(pi, m, n);
      if AllClose(piNew, pi) {
        break;
      }
      pi, k := piNew, k + 1;
    }
    if StochasticMatrix(m, n) {
      StaysDistribution(Uniform(n), m, n, k);
    }
  }

  // ----- Successive vectors never move further apart -----

  function Distance(a: Vector, b: Vector): real
    requires |a| == |b|
  {
    Sum(Gaps(a, b))
  }

  function Gaps(a: Vector, b: Vector): (r: Vector)
    requires |a| == |b|
    ensures |r| == |a|
  {
    seq(|a|, i requires 0 <= i < |a| => Abs(a[i] - b[i]))
  }

  lemma GapOfTerms(x: real, y: real, w: real, u: real, v: real)
    requires w >= 0.0
    ensures Abs(Times(x, w) + u - (Times(y, w) + v)) <= Times(Abs(x - y), w) + Abs(u - v)
  {
    TimesSplits(x, y, w);
    ScaledAbs(x - y, w);
  }

  lemma TimesSplits(x: real, y: real, w: real)
    ensures Times(x - y, w) == Times(x, w) - Times(y, w)
  {
  }

  lemma ScaledAbs(x: real, w: real)
    requires w >= 0.0
    ensures Abs(Times(x, w)) == Times(Abs(x), w)
  {
    if x >= 0.0 {
      MulMono(0.0, x, w);
    } else {
      MulMono(0.0, -x, w);
    }
  }

  lemma ColumnGap(a: Vector, b: Vector, m: seq<Vector>, j: nat, w: real, u: real, v: real)
    requires |a| == |b| == |m| > 0 && (forall i | 0 <= i < |m| :: j < |m[i]|) && w == m[0][j] && w >= 0.0
    requires u == ColumnDot(a[1..], m[1..], j) && v == ColumnDot(b[1..], m[1..], j)
    ensures Abs(ColumnDot(a, m, j) - ColumnDot(b, m, j)) <= Times(Abs(a[0] - b[0]), w) + Abs(u - v)
  {
    GapOfTerms(a[0], b[0], w, u, v);
  }

  lemma NoDistance(v: Vector)
    ensures Distance(v, v) == 0.0
  {
    forall i | 0 <= i < |v|
      ensures Gaps(v, v)[i] == 0.0
    {
      assert Gaps(v, v)[i] == Abs(v[i] - v[i]);
    }
    SumOfEqual(Gaps(v, v), 0.0);
  }

  /** A stochastic matrix never increases the distance between two vectors ... */
  lemma {:induction false} AdvanceContracts(a: Vector, b: Vector, m: seq<Vector>, n: nat)
    requires |a| == |b| == |m| && StochasticMatrix(m, n)
    ensures Distance(Advance(a, m, n), Advance(b, m, n)) <= Distance(a, b)
  {
    var gaps := Gaps(Advance(a, m, n), Advance(b, m, n));
    if a == [] {
      assert a == b;
      assert Advance(a, m, n) == Advance(b, m, n);
      NoDistance(Advance(a, m, n));
    } else {
      var rest := Gaps(Advance(a[1..], m[1..], n), Advance(b[1..], m[1..], n));
      AdvanceContracts(a[1..], b[1..], m[1..], n);
      FirstGap(a, b, m, n, gaps, rest);
      assert Gaps(a, b)[1..] == Gaps(a[1..], b[1..]);
    }
  }

  lemma FirstGap(a: Vector, b: Vector, m: seq<Vector>, n: nat, gaps: Vector, rest: Vector)
    requires |a| == |b| == |m| > 0 && StochasticMatrix(m, n)
    requires gaps == Gaps(Advance(a, m, n), Advance(b, m, n))
    requires rest == Gaps(Advance(a[1..], m[1..], n), Advance(b[1..], m[1..], n))
    ensures Sum(gaps) <= Abs(a[0] - b[0]) + Sum(rest)
  {
    var gap := Abs(a[0] - b[0]);
    var head := Scaled(gap, m[0]);
    forall j | 0 <= j < n
      ensures gaps[j] <= AddSeries(head, rest)[j]
    {
      ColumnGap(a, b, m, j, m[0][j], ColumnDot(a[1..], m[1..], j), ColumnDot(b[1..], m[1..], j));
      assert AddSeries(head, rest)[j] == Times(gap, m[0][j]) + rest[j];
    }
    SumMonotone(gaps, AddSeries(head, rest));
    SumAddSeries(head, rest);
    WeightedRow(gap, m[0]);
  }

  lemma WeightedRow(x: real, row: Vector)
    requires Distribution(row)
    ensures Sum(Scaled(x, row)) == x
  {
    SumScaled(x, row);
  }

  /** ... so the changes from one step to the next never grow. */
  lemma {:induction false} ChangesNeverGrow(pi: Vector, m: seq<Vector>, n: nat, k: nat, l: nat)
    requires |pi| == |m| == n && StochasticMatrix(m, n) && k <= l
    ensures Distance(After(pi, m, n, l + 1), After(pi, m, n, l)) <= Distance(After(pi, m, n, k + 1), After(pi, m, n, k))
  {
    if k < l {
      ChangesNeverGrow(pi, m, n, k, l - 1);
      AdvanceContracts(After(pi, m, n, l), After(pi, m, n, l - 1), m, n);
    }
  }

  /** Neither do the distances between two runs, from wherever they start. */
  lemma {:induction false} RunsNeverPart(a: Vector, b: Vector, m: seq<Vector>, n: nat, k: nat, l: nat)
    requires |a| == |b| == |m| == n && StochasticMatrix(m, n) && k <= l
    ensures Distance(After(a, m, n, l), After(b, m, n, l)) <= Distance(After(a, m, n, k), After(b, m, n, k))
  {
    if k < l {
      RunsNeverPart(a, b, m, n, k, l - 1);
      AdvanceContracts(After(a, m, n, l - 1), After(b, m, n, l - 1), m, n);
    }
  }

  /** A vector the step leaves alone stays for ever. */
  lemma {:induction false} StationaryStays(pi: Vector, m: seq<Vector>, n: nat, k: nat)
    requires |pi| == |m| == n && (forall i | 0 <= i < |m| :: |m[i]| == n) && Advance(pi, m, n) == pi
    ensures After(pi, m, n, k) == pi
  {
    if k > 0 {
      StationaryStays(pi, m, n, k - 1);
    }
  }

  /** Hence the iteration never moves away from any stationary vector: no earlier estimate was nearer to
      it. */
  lemma EstimateApproaches(stationary: Vector, start: Vector, m: seq<Vector>, n: nat, k: nat, l: nat)
    requires |stationary| == |start| == |m| == n && StochasticMatrix(m, n) && k <= l
    requires Advance(stationary, m, n) == stationary
    ensures Distance(After(start, m, n, l), stationary) <= Distance(After(start, m, n, k), stationary)
  {
    RunsNeverPart(start, stationary, m, n, k, l);
    StationaryStays(stationary, m, n, k);
    StationaryStays(stationary, m, n, l);
  }

  // ----- What a step does -----

  /** All weight on one state. */
  function Unit(n: nat, i: nat): (r: Vector)
    ensures |r| == n
  {
    seq(n, j requires 0 <= j < n => if j == i then 1.0 else 0.0)
  }

  /** From one state the step leads to its row of the matrix. */
  lemma {:induction false} StepFromState(m: seq<Vector>, n: nat, i: nat)
    requires i < |m| && forall j | 0 <= j < |m| :: |m[j]| == n
    ensures Advance(Unit(|m|, i), m, n) == m[i]
  {
    forall j | 0 <= j < n
      ensures ColumnDot(Unit(|m|, i), m, j) == m[i][j]
    {
      UnitPicks(Unit(|m|, i), m, j, i);
    }
  }

  lemma {:induction false} UnitPicks(pi: Vector, m: seq<Vector>, j: nat, i: nat)
    requires |pi| == |m| && forall k | 0 <= k < |m| :: j < |m[k]|
    requires forall k | 0 <= k < |m| :: pi[k] == if k == i then 1.0 else 0.0
    ensures ColumnDot(pi, m, j) == if i < |m| then m[i][j] else 0.0
  {
    if pi != [] {
      if i > 0 {
        UnitPicks(pi[1..], m[1..], j, i - 1);
      } else {
        UnitPicks(pi[1..], m[1..], j, |m|);
      }
      PickOrDrop(pi[0], m[0][j]);
    }
  }

  lemma PickOrDrop(x: real, y: real)
    ensures x == 1.0 ==> Times(x, y) == y
    ensures x == 0.0 ==> Times(x, y) == 0.0
  {
  }

  /** From a mixture of two vectors it leads to the same mixture of where it leads from them. */
  lemma {:induction false} StepIsLinear(a: Vector, b: Vector, x: real, mixed: Vector, m: seq<Vector>, n: nat)
    requires |a| == |b| == |mixed| == |m| && forall i | 0 <= i < |m| :: |m[i]| == n
    requires forall i | 0 <= i < |m| :: mixed[i] == a[i] + Times(x, b[i])
    ensures forall j | 0 <= j < n :: Advance(mixed, m, n)[j] == Advance(a, m, n)[j] + Times(x, Advance(b, m, n)[j])
  {
    forall j | 0 <= j < n
      ensures ColumnDot(mixed, m, j) == ColumnDot(a, m, j) + Times(x, ColumnDot(b, m, j))
    {
      ColumnIsLinear(a, b, x, mixed, m, j);
    }
  }

  lemma {:induction false} ColumnIsLinear(a: Vector, b: Vector, x: real, mixed: Vector, m: seq<Vector>, j: nat)
    requires |a| == |b| == |mixed| == |m| && forall i | 0 <= i < |m| :: j < |m[i]|
    requires forall i | 0 <= i < |m| :: mixed[i] == a[i] + Times(x, b[i])
    ensures ColumnDot(mixed, m, j) == ColumnDot(a, m, j) + Times(x, ColumnDot(b, m, j))
  {
    if a == [] {
      PickOrDrop(0.0, x);
      TimesLaws(0.0, x, x);
    } else {
      ColumnIsLinear(a[1..], b[1..], x, mixed[1..], m[1..], j);
      MixedTerm(a[0], b[0], x, m[0][j], ColumnDot(b[1..], m[1..], j));
    }
  }

  lemma MixedTerm(a: real, b: real, x: real, y: real, rest: real)
    ensures Times(a + Times(x, b), y) + Times(x, rest) == Times(a, y) + Times(x, Times(b, y) + rest)
  {
    TimesLaws(a, Times(x, b), y);
    TimesLaws(x, b, y);
    TimesLaws(Times(b, y), rest, x);
    TimesLaws(x, Times(b, y) + rest, y);
    TimesLaws(x, Times(b, y), y);
    TimesLaws(x, rest, y);
  }

  // ----- Where the iteration stops -----

  /** A distribution that a step hardly changes is nearly stationary: all changes together are at most
      n / 10 ^ 12 and a hundred thousandth. */
  lemma SteadyIsNearlyStationary(pi: Vector, m: seq<Vector>, n: nat)
    requires |pi| == |m| == n && (forall i | 0 <= i < |m| :: |m[i]| == n) && Distribution(pi) && Steady(pi, m, n)
    ensures Distance(Advance(pi, m, n), pi) <= n as real * 0.000000000001 + 0.00001
  {
    var fixed := seq(n, _ => 0.000000000001);
    var slack := AddSeries(fixed, Scaled(0.00001, pi));
    forall j | 0 <= j < n
      ensures Gaps(Advance(pi, m, n), pi)[j] <= slack[j]
    {
      assert pi[j] >= 0.0;
    }
    SumMonotone(Gaps(Advance(pi, m, n), pi), slack);
    SumAddSeries(fixed, Scaled(0.00001, pi));
    SumOfEqual(fixed, 0.000000000001);
    SumScaled(0.00001, pi);
  }
}
