/** What runs of the Jacobi iteration keep, shrink and carry along (CorrelationMatrixEditor.tsx). */
module EigenRuns {
  import opened EigenLoop
  import opened EigenSteps
  import opened InnerProducts
  import opened Jacobi
  import opened Matrices
  import opened RealArith
  import opened Runs
  import opened Sequences

  // ----- What every iteration does -----

  /** An iteration keeps size, symmetry and trace and never raises the sum of all squares. */
  ghost predicate Keeps(m: Matrix, r: Matrix) {
    Symmetric(m) ==> Symmetric(r) && |r| == |m| && Trace(r) == Trace(m) && AllSquares(r) <= AllSquares(m)
  }

  /** off is at most the share of off0. */
  ghost predicate AtMost(off: real, share: real, off0: real) {
    off <= share * off0
  }

  /** It leaves at most the share f of the off-diagonal squares. */
  ghost predicate Shrinks(m: Matrix, r: Matrix, f: real) {
    Symmetric(m) && |m| >= 2 && f == Shrink(|m|) ==> Square(r) && AtMost(OffSquares(r), f, OffSquares(m))
  }

  /** It moves approximate eigenvectors of m to such of r of the same length ... */
  ghost predicate CarriesForward(m: Matrix, r: Matrix) {
    Symmetric(m) ==>
      forall v, d, b | Near(m, v, d, b) :: exists w :: Near(r, w, d, b + NEAR / 2.0) && Dot(w, w) == Dot(v, v)
  }

  /** ... and back. */
  ghost predicate CarriesBack(m: Matrix, r: Matrix) {
    Symmetric(m) ==>
      forall w, d, b | Near(r, w, d, b) :: exists v :: Near(m, v, d, b + NEAR / 2.0) && Dot(v, v) == Dot(w, w)
  }

  lemma PivotOf(trig: Trig, m: Matrix, r: Matrix) returns (p: nat, q: nat)
    requires StepOf(trig)(m, r)
    ensures Square(m) && IsPivot(m, p, q) && Pair(m, p, q) && r == Turned(trig, m, p, q)
  {
    p, q :| StepAt(trig, m, p, q, r);
  }

  lemma EveryStepKeeps(trig: Trig, m: Matrix, r: Matrix)
    requires Lawful(trig) && StepOf(trig)(m, r)
    ensures Keeps(m, r)
  {
    var p, q := PivotOf(trig, m, r);
    if Symmetric(m) {
      StepKeeps(trig, m, p, q);
    }
  }

  lemma StepKeeps(trig: Trig, m: Matrix, p: nat, q: nat)
    requires Lawful(trig) && Symmetric(m) && Pair(m, p, q)
    ensures var r := Turned(trig, m, p, q);
            && Symmetric(r)
            && Trace(r) == Trace(m)
            && OffSquares(r) == OffSquares(m) - 2.0 * Times(m[p][q], m[p][q])
            && AllSquares(r) <= AllSquares(m)
            && (AllSquares(r) == AllSquares(m) <==> !Inexact(m[p][p], m[q][q]))
  {
    var t := Theta(trig, m[p][p], m[q][q], m[p][q]);
    var c, s := trig.cos(t), trig.sin(t);
    AngleAnnihilates(trig, m[p][p], m[q][q], m[p][q]);
    RotatedIsSymmetric(m, p, q, c, s);
    TraceKept(m, p, q, c, s);
    OffSquaresDrop(m, p, q, c, s);
    AllSquaresChange(m, p, q, c, s);
    SquareSign(Leftover(c, s, m[p][p], m[q][q], m[p][q]));
  }

  /** 1 - 2 / (n (n - 1)) */
  function Shrink(n: nat): real
    requires n >= 2
  {
    1.0 - 2.0 / (n as real * (n - 1) as real)
  }

  lemma ShrinkScalars(off: real, pivot: real, cells: real)
    requires cells >= 2.0 && off <= cells * pivot
    ensures off - 2.0 * pivot <= (1.0 - 2.0 / cells) * off
  {
    var f := 2.0 / cells;
    assert f * cells == 2.0;
    MulMono(off, cells * pivot, f);
    assert (cells * pivot) * f == 2.0 * pivot by {
      assert (cells * pivot) * f == (f * cells) * pivot;
    }
    assert (1.0 - f) * off == off - off * f;
  }

  lemma ShrinkRange(n: nat, f: real)
    requires n >= 2 && f == Shrink(n)
    ensures n as real * (n - 1) as real >= 2.0
    ensures 0.0 <= f < 1.0
  {
    MulBoth(2.0, 1.0, n as real, (n - 1) as real);
    QuotientInUnit(2.0, n as real * (n - 1) as real);
    assert 2.0 / (n as real * (n - 1) as real) > 0.0;
  }

  /** Because the pivot is the largest entry, a step shrinks the off-diagonal squares at least by
      the factor 1 - 2 / (n (n - 1)). */
  lemma EveryStepShrinks(trig: Trig, m: Matrix, r: Matrix, f: real)
    requires Lawful(trig) && StepOf(trig)(m, r)
    ensures Shrinks(m, r, f)
  {
    if Symmetric(m) && |m| >= 2 && f == Shrink(|m|) {
      var p, q := PivotOf(trig, m, r);
      var pivot := Times(m[p][q], m[p][q]);
      LargestSquare(m, p, q);
      OffSquaresAtMost(m, pivot);
      StepKeeps(trig, m, p, q);
      ShrinkOf(OffSquares(m), OffSquares(r), pivot, |m|, f);
    }
  }

  lemma ShrinkOf(off: real, now: real, pivot: real, n: nat, f: real)
    requires n >= 2 && f == Shrink(n) && now == off - 2.0 * pivot
    requires off <= Manyfold(n, Manyfold(n - 1, pivot))
    ensures AtMost(now, f, off)
  {
    ShrinkRange(n, f);
    assert n as real * ((n - 1) as real * pivot) == (n as real * (n - 1) as real) * pivot;
    ShrinkScalars(off, pivot, n as real * (n - 1) as real);
  }

  lemma LargestSquare(m: Matrix, p: nat, q: nat)
    requires Symmetric(m) && IsPivot(m, p, q)
    ensures OffSquaresWithin(m, Times(m[p][q], m[p][q]))
  {
    forall i, j | 0 <= i < |m| && 0 <= j < |m| && i != j
      ensures Times(m[i][j], m[i][j]) <= Times(m[p][q], m[p][q])
    {
      assert m[i][j] == m[j][i];
      if i < j {
        SquareAtMost(m[i][j], m[p][q]);
      } else {
        SquareAtMost(m[j][i], m[p][q]);
      }
    }
  }

  lemma SquareAtMost(x: real, y: real)
    requires Abs(x) <= Abs(y)
    ensures Times(x, x) <= Times(y, y)
  {
    MulBoth(Abs(x), Abs(x), Abs(y), Abs(y));
    assert Abs(x) * Abs(x) == x * x && Abs(y) * Abs(y) == y * y;
  }

  lemma EveryStepCarriesForward(trig: Trig, m: Matrix, r: Matrix)
    requires Lawful(trig) && StepOf(trig)(m, r)
    ensures CarriesForward(m, r)
  {
    var p, q := PivotOf(trig, m, r);
    if Symmetric(m) {
      forall v, d, b | Near(m, v, d, b)
        ensures exists w :: Near(r, w, d, b + NEAR / 2.0) && Dot(w, w) == Dot(v, v)
      {
        var w := TurnedForward(trig, m, p, q, v, d, b);
      }
    }
  }

  lemma TurnedForward(trig: Trig, m: Matrix, p: nat, q: nat, v: seq<real>, d: real, b: real) returns (w: seq<real>)
    requires Lawful(trig) && Symmetric(m) && Pair(m, p, q) && Near(m, v, d, b)
    ensures Near(Turned(trig, m, p, q), w, d, b + NEAR / 2.0) && Dot(w, w) == Dot(v, v)
  {
    var t := Theta(trig, m[p][p], m[q][q], m[p][q]);
    var c, s := trig.cos(t), trig.sin(t);
    var x := Leftover(c, s, m[p][p], m[q][q], m[p][q]);
    AngleAnnihilates(trig, m[p][p], m[q][q], m[p][q]);
    StepForward(m, p, q, c, s, v, d, b, x);
    w := Turn(v, p, q, c, s);
    TurnKeepsLength(v, p, q, c, s);
    NearWidens(Turned(trig, m, p, q), w, d, b + Abs(x), b + NEAR / 2.0);
  }

  lemma EveryStepCarriesBack(trig: Trig, m: Matrix, r: Matrix)
    requires Lawful(trig) && StepOf(trig)(m, r)
    ensures CarriesBack(m, r)
  {
    var p, q := PivotOf(trig, m, r);
    if Symmetric(m) {
      forall w, d, b | Near(r, w, d, b)
        ensures exists v :: Near(m, v, d, b + NEAR / 2.0) && Dot(v, v) == Dot(w, w)
      {
        var v := TurnedBack(trig, m, p, q, w, d, b);
      }
    }
  }

  lemma TurnedBack(trig: Trig, m: Matrix, p: nat, q: nat, w: seq<real>, d: real, b: real) returns (v: seq<real>)
    requires Lawful(trig) && Symmetric(m) && Pair(m, p, q) && Near(Turned(trig, m, p, q), w, d, b)
    ensures Near(m, v, d, b + NEAR / 2.0) && Dot(v, v) == Dot(w, w)
  {
    var t := Theta(trig, m[p][p], m[q][q], m[p][q]);
    var c, s := trig.cos(t), trig.sin(t);
    var x := Leftover(c, s, m[p][p], m[q][q], m[p][q]);
    AngleAnnihilates(trig, m[p][p], m[q][q], m[p][q]);
    v := StepBackward(m, p, q, c, s, w, d, b, x);
    NearWidens(m, v, d, b + Abs(x), b + NEAR / 2.0);
  }

  // ----- Whole runs -----

  /** Every run keeps size, symmetry and trace and never raises the sum of all squares. */
  lemma {:induction false} RunKeeps(step: (Matrix, Matrix) -> bool, m0: Matrix, m: Matrix, steps: nat)
    requires Symmetric(m0) && Reached(step, m0, m, steps)
    requires forall a, r | step(a, r) :: Keeps(a, r)
    ensures Symmetric(m) && |m| == |m0| && Trace(m) == Trace(m0) && AllSquares(m) <= AllSquares(m0)
    decreases steps
  {
    if steps > 0 {
      var prev := LastStep(step, m0, m, steps);
      RunKeeps(step, m0, prev, steps - 1);
    }
  }

  function Power(x: real, k: nat): real {
    if k == 0 then 1.0 else Power(x, k - 1) * x
  }

  lemma ChainFactors(f: real, g: real, h: real, off0: real, off1: real, off2: real)
    requires f >= 0.0 && h == g * f && AtMost(off1, g, off0) && AtMost(off2, f, off1)
    ensures AtMost(off2, h, off0)
  {
    MulMono(off1, g * off0, f);
    assert (g * off0) * f == (g * f) * off0;
    assert off1 * f == f * off1;
  }

  /** The off-diagonal squares fall geometrically over a run. */
  lemma {:induction false} RunShrinks(step: (Matrix, Matrix) -> bool, m0: Matrix, m: Matrix, steps: nat, f: real)
    requires Symmetric(m0) && |m0| >= 2 && f == Shrink(|m0|) && Reached(step, m0, m, steps)
    requires forall a, r | step(a, r) :: Keeps(a, r) && Shrinks(a, r, f)
    ensures Symmetric(m) && AtMost(OffSquares(m), Power(f, steps), OffSquares(m0))
    decreases steps
  {
    RunKeeps(step, m0, m, steps);
    if steps > 0 {
      var prev := LastStep(step, m0, m, steps);
      RunKeeps(step, m0, prev, steps - 1);
      RunShrinks(step, m0, prev, steps - 1, f);
      ShrinkRange(|m0|, f);
      ChainFactors(f, Power(f, steps - 1), Power(f, steps), OffSquares(m0), OffSquares(prev), OffSquares(m));
    }
  }

  /** How far the branch for nearly equal diagonal entries can have moved a deviation. */
  function Drift(steps: nat): real {
    if steps == 0 then 0.0 else Drift(steps - 1) + NEAR / 2.0
  }

  lemma {:induction false} DriftClosedForm(steps: nat)
    ensures Drift(steps) == Manyfold(steps, NEAR / 2.0)
  {
    if steps > 0 {
      DriftClosedForm(steps - 1);
      OneMore(steps - 1, NEAR / 2.0);
    }
  }

  lemma NextStepForward(step: (Matrix, Matrix) -> bool, prev: Matrix, m: Matrix, u: seq<real>, d: real, b: real, b': real)
    returns (w: seq<real>)
    requires step(prev, m) && CarriesForward(prev, m) && Symmetric(prev) && Near(prev, u, d, b) && b' == b + NEAR / 2.0
    ensures Near(m, w, d, b') && Dot(w, w) == Dot(u, u)
  {
    w :| Near(m, w, d, b + NEAR / 2.0) && Dot(w, w) == Dot(u, u);
  }

  /** An approximate eigenvector of the input becomes one of the same length of the result. */
  lemma {:induction false} RunForward(step: (Matrix, Matrix) -> bool, m0: Matrix, m: Matrix, steps: nat,
                                      v: seq<real>, d: real, b: real, total: real)
    returns (w: seq<real>)
    requires Symmetric(m0) && Reached(step, m0, m, steps) && Near(m0, v, d, b) && total == b + Drift(steps)
    requires forall a, r | step(a, r) :: Keeps(a, r) && CarriesForward(a, r)
    ensures Near(m, w, d, total) && Dot(w, w) == Dot(v, v)
    decreases steps
  {
    w := v;
    if steps > 0 {
      var prev := LastStep(step, m0, m, steps);
      var part := total - NEAR / 2.0;
      RunKeeps(step, m0, prev, steps - 1);
      var u := RunForward(step, m0, prev, steps - 1, v, d, b, part);
      w := NextStepForward(step, prev, m, u, d, part, total);
    }
  }

  lemma LastStepBack(step: (Matrix, Matrix) -> bool, m0: Matrix, m: Matrix, steps: nat,
                     w: seq<real>, d: real, b: real, part: real)
    returns (prev: Matrix, u: seq<real>)
    requires Symmetric(m0) && steps > 0 && Reached(step, m0, m, steps) && Near(m, w, d, b) && part == b + NEAR / 2.0
    requires forall a, r | step(a, r) :: Keeps(a, r) && CarriesBack(a, r)
    ensures Reached(step, m0, prev, steps - 1) && Near(prev, u, d, part) && Dot(u, u) == Dot(w, w)
  {
    prev := LastStep(step, m0, m, steps);
    RunKeeps(step, m0, prev, steps - 1);
    u :| Near(prev, u, d, b + NEAR / 2.0) && Dot(u, u) == Dot(w, w);
  }

  /** An approximate eigenvector of the result comes from one of the input. */
  lemma {:induction false} RunBackward(step: (Matrix, Matrix) -> bool, m0: Matrix, m: Matrix, steps: nat,
                                       w: seq<real>, d: real, b: real, total: real)
    returns (v: seq<real>)
    requires Symmetric(m0) && Reached(step, m0, m, steps) && Near(m, w, d, b) && total == b + Drift(steps)
    requires forall a, r | step(a, r) :: Keeps(a, r) && CarriesBack(a, r)
    ensures Near(m0, v, d, total) && Dot(v, v) == Dot(w, w)
    decreases steps
  {
    v := w;
    if steps > 0 {
      var part := b + NEAR / 2.0;
      var prev, u := LastStepBack(step, m0, m, steps, w, d, b, part);
      v := RunBackward(step, m0, prev, steps - 1, u, d, part, total);
    }
  }
}
