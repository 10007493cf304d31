/** The Jacobi iteration on a matrix held in an array (CorrelationMatrixEditor.tsx). */
module EigenLoop {
  import opened Jacobi
  import opened Matrices
  import opened Runs
  import opened Sequences

  // ----- Runs -----

  /** The scan visits cell (i, j) before cell (p, q). */
  predicate Earlier(i: nat, j: nat, p: nat, q: nat) {
    i < p || (i == p && j < q)
  }

  /** (p, q) is the first of the largest entries above the diagonal. */
  ghost predicate IsPivot(m: Matrix, p: nat, q: nat)
    requires Square(m)
  {
    && Pair(m, p, q)
    && forall i, j | 0 <= i < j < |m| ::
         Abs(m[i][j]) <= Abs(m[p][q]) && (Earlier(i, j, p, q) ==> Abs(m[i][j]) < Abs(m[p][q]))
  }

  ghost predicate Converged(m: Matrix)
    requires Square(m)
  {
    forall i, j | 0 <= i < |m| && 0 <= j < |m| && i != j :: Abs(m[i][j]) < THRESHOLD
  }

  /** The rotation the loop applies at (p, q). */
  function Turned(trig: Trig, m: Matrix, p: nat, q: nat): (r: Matrix)
    requires Square(m) && Pair(m, p, q)
    ensures Square(r) && |r| == |m|
  {
    var t := Theta(trig, m[p][p], m[q][q], m[p][q]);
    Rotated(m, p, q, trig.cos(t), trig.sin(t))
  }

  ghost predicate StepAt(trig: Trig, m: Matrix, p: nat, q: nat, r: Matrix)
    requires Square(m)
  {
    IsPivot(m, p, q) && Abs(m[p][q]) >= THRESHOLD && r == Turned(trig, m, p, q)
  }

  /** One iteration that rotates takes m to r. */
  ghost predicate Follows(trig: Trig, m: Matrix, r: Matrix) {
    Square(m) && exists p, q :: StepAt(trig, m, p, q, r)
  }

  ghost function StepOf(trig: Trig): (Matrix, Matrix) -> bool {
    (m: Matrix, r: Matrix) => Follows(trig, m, r)
  }

  lemma PivotIsUnique(m: Matrix, p: nat, q: nat, p': nat, q': nat)
    requires Square(m) && IsPivot(m, p, q) && IsPivot(m, p', q')
    ensures p == p' && q == q'
  {
    var x, y := Abs(m[p][q]), Abs(m[p'][q']);
    assert x == y;
    assert !Earlier(p, q, p', q') && !Earlier(p', q', p, q);
  }

  // ----- The loops -----

  ghost predicate Shows(a: array2<real>, m: Matrix)
    reads a
  {
    && Square(m)
    && a.Length0 == a.Length1 == |m|
    && forall i, j | 0 <= i < |m| && 0 <= j < |m| :: a[i, j] == m[i][j]
  }

  const ITERATIONS: nat := 100

  /** Rotates until no entry off the diagonal reaches the threshold, at most 100 n n times, and
      returns the diagonal. */
  method ComputeEigenvalues(matrix: Matrix, trig: Trig)
    returns (values: seq<real>, ghost final: Matrix, ghost steps: nat)
    requires Symmetric(matrix)
    ensures Square(final) && values == Diagonal(final) && Reached(StepOf(trig), matrix, final, steps)
    ensures |values| == |matrix| && (Lawful(trig) ==> Sum(values) == Trace(matrix))
    ensures steps <= ITERATIONS * |matrix| * |matrix|
    ensures steps < ITERATIONS * |matrix| * |matrix| ==> Converged(final)
  {
    var n := |matrix|;
    final, steps := matrix, 0;
    if n == 0 {
      return [], matrix, 0;
    }
    if n == 1 {
      return [matrix[0][0]], matrix, 0;
    }
    var a := Copy(matrix);
    var maxIter := ITERATIONS * n * n;
    for iter := 0 to maxIter
      invariant steps == iter && |final| == n
      invariant Symmetric(final) && Shows(a, final) && Reached(StepOf(trig), matrix, final, steps)
      invariant KeepsTrace(trig, matrix, final)
    {
      var stop, next := Iterate(a, trig, matrix, final, steps);
      if stop {
        break;
      }
      final, steps := next, steps + 1;
    }
    values := ReadDiagonal(a, final);
  }

  /** One iteration: stop, or rotate the pivot away. */
  method Iterate(a: array2<real>, trig: Trig, ghost m0: Matrix, ghost m: Matrix, ghost steps: nat)
    returns (stop: bool, ghost next: Matrix)
    requires Symmetric(m) && |m| >= 2 && Shows(a, m) && Reached(StepOf(trig), m0, m, steps) && KeepsTrace(trig, m0, m)
    modifies a
    ensures |next| == |m| && Symmetric(next) && Shows(a, next)
    ensures stop ==> next == m && Converged(m)
    ensures !stop ==> Reached(StepOf(trig), m0, next, steps + 1)
    ensures KeepsTrace(trig, m0, next)
  {
    var maxVal, p, q := FindPivot(a, m);
    if maxVal < THRESHOLD {
      SmallPivotConverged(m, p, q);
      return true, m;
    }
    var c, s := Angle(trig, a[p, p], a[q, q], a[p, q]);
    RotateInPlace(a, m, p, q, c, s);
    StepReaches(trig, m0, m, p, q, steps);
    RotatedIsSymmetric(m, p, q, c, s);
    if Lawful(trig) {
      TraceKept(m, p, q, c, s);
    }
    return false, Turned(trig, m, p, q);
  }

  lemma StepReaches(trig: Trig, m0: Matrix, m: Matrix, p: nat, q: nat, steps: nat)
    requires Square(m) && Reached(StepOf(trig), m0, m, steps) && IsPivot(m, p, q) && Abs(m[p][q]) >= THRESHOLD
    ensures Reached(StepOf(trig), m0, Turned(trig, m, p, q), steps + 1)
  {
    assert StepAt(trig, m, p, q, Turned(trig, m, p, q));
    Extend(StepOf(trig), m0, m, steps, Turned(trig, m, p, q));
  }

  lemma SmallPivotConverged(m: Matrix, p: nat, q: nat)
    requires Symmetric(m) && IsPivot(m, p, q) && Abs(m[p][q]) < THRESHOLD
    ensures Converged(m)
  {
    forall i, j | 0 <= i < |m| && 0 <= j < |m| && i != j
      ensures Abs(m[i][j]) < THRESHOLD
    {
      assert m[i][j] == m[j][i];
      if i < j {
        assert Abs(m[i][j]) <= Abs(m[p][q]);
      } else {
        assert Abs(m[j][i]) <= Abs(m[p][q]);
      }
    }
  }

  /** Under the laws of trigonometry the two matrices have the same trace. */
  ghost predicate KeepsTrace(trig: Trig, m0: Matrix, m: Matrix) {
    Square(m0) && Square(m) && (Lawful(trig) ==> Trace(m) == Trace(m0))
  }

  method Copy(matrix: Matrix) returns (a: array2<real>)
    requires Square(matrix)
    ensures fresh(a) && Shows(a, matrix)
  {
    var n := |matrix|;
    a := new real[n, n]((i, j) requires 0 <= i < n && 0 <= j < n => matrix[i][j]);
  }

  method ReadDiagonal(a: array2<real>, ghost m: Matrix) returns (values: seq<real>)
    requires Shows(a, m)
    ensures values == Diagonal(m)
  {
    values := [];
    for i := 0 to a.Length0
      invariant values == Diagonal(m)[..i]
    {
      values := values + [a[i, i]];
    }
  }

  method Angle(trig: Trig, app: real, aqq: real, apq: real) returns (c: real, s: real)
    ensures c == trig.cos(Theta(trig, app, aqq, apq)) && s == trig.sin(Theta(trig, app, aqq, apq))
  {
    var theta;
    if Abs(app - aqq) < NEAR {
      theta := trig.pi / 4.0;
    } else {
      theta := 0.5 * trig.atan2(2.0 * apq, app - aqq);
    }
    c, s := trig.cos(theta), trig.sin(theta);
  }

  // ----- The pivot search -----

  /** What the scan knows before it visits cell (i, j). */
  ghost predicate BestSoFar(m: Matrix, i: nat, j: nat, maxVal: real, p: nat, q: nat)
    requires Square(m)
  {
    && Pair(m, p, q)
    && ((maxVal == 0.0 && p == 0 && q == 1) || (maxVal == Abs(m[p][q]) && Earlier(p, q, i, j)))
    && forall k, l | 0 <= k < l < |m| && Earlier(k, l, i, j) ::
         Abs(m[k][l]) <= maxVal && (Earlier(k, l, p, q) ==> Abs(m[k][l]) < maxVal)
  }

  method FindPivot(a: array2<real>, ghost m: Matrix) returns (maxVal: real, p: nat, q: nat)
    requires Shows(a, m) && |m| >= 2
    ensures IsPivot(m, p, q) && maxVal == Abs(m[p][q])
  {
    var n := a.Length0;
    maxVal, p, q := 0.0, 0, 1;
    for i := 0 to n
      invariant BestSoFar(m, i, 0, maxVal, p, q)
    {
      var j := i + 1;
      RowStarts(m, i, maxVal, p, q);
      while j < n
        invariant i + 1 <= j && (j <= n || j == i + 1)
        invariant BestSoFar(m, i, j, maxVal, p, q)
      {
        if Abs(a[i, j]) > maxVal {
          maxVal := Abs(a[i, j]);
          p, q := i, j;
        }
        j := j + 1;
      }
      RowEnds(m, i, j, maxVal, p, q);
    }
    ScanIsPivot(m, maxVal, p, q);
  }

  lemma RowStarts(m: Matrix, i: nat, maxVal: real, p: nat, q: nat)
    requires Square(m) && BestSoFar(m, i, 0, maxVal, p, q)
    ensures BestSoFar(m, i, i + 1, maxVal, p, q)
  {
  }

  lemma RowEnds(m: Matrix, i: nat, j: nat, maxVal: real, p: nat, q: nat)
    requires Square(m) && j >= |m| && BestSoFar(m, i, j, maxVal, p, q)
    ensures BestSoFar(m, i + 1, 0, maxVal, p, q)
  {
  }

  lemma ScanIsPivot(m: Matrix, maxVal: real, p: nat, q: nat)
    requires Square(m) && BestSoFar(m, |m|, 0, maxVal, p, q)
    ensures IsPivot(m, p, q) && maxVal == Abs(m[p][q])
  {
    assert Earlier(p, q, |m|, 0);
    forall i, j | 0 <= i < j < |m|
      ensures Abs(m[i][j]) <= maxVal && (Earlier(i, j, p, q) ==> Abs(m[i][j]) < maxVal)
    {
      assert Earlier(i, j, |m|, 0);
    }
  }

  // ----- The rotation in place -----

  /** Rows and columns before i are rotated, and so is the pivot block. */
  predicate Done(p: nat, q: nat, i: nat, r: nat, t: nat) {
    var rowTurns, colTurns := r == p || r == q, t == p || t == q;
    if rowTurns && colTurns then true
    else if colTurns then r < i
    else if rowTurns then t < i
    else true
  }

  /** The array is between m and g, both symmetric. */
  ghost predicate Partly(a: array2<real>, m: Matrix, g: Matrix, p: nat, q: nat, i: nat)
    requires Square(m) && Square(g) && |g| == |m|
    reads a
  {
    && a.Length0 == a.Length1 == |m|
    && forall r, t | 0 <= r < |m| && 0 <= t < |m| ::
         a[r, t] == if Done(p, q, i, r, t) then g[r][t] else m[r][t]
  }

  /** Outside the rows and columns p and q the two matrices agree. */
  ghost predicate AgreeOutside(m: Matrix, g: Matrix, p: nat, q: nat)
    requires Square(m) && Square(g) && |g| == |m|
  {
    forall r, t | 0 <= r < |m| && 0 <= t < |m| && r != p && r != q && t != p && t != q :: g[r][t] == m[r][t]
  }

  method RotateInPlace(a: array2<real>, ghost m: Matrix, p: nat, q: nat, c: real, s: real)
    requires Symmetric(m) && Shows(a, m) && Pair(m, p, q)
    modifies a
    ensures Shows(a, Rotated(m, p, q, c, s))
  {
    ghost var g := Rotated(m, p, q, c, s);
    forall r, t | 0 <= r < |m| && 0 <= t < |m|
      ensures g[r][t] == RotatedAt(m, p, q, c, s, r, t)
    {
      RotatedEntry(m, p, q, c, s, r, t);
    }
    RotatedIsSymmetric(m, p, q, c, s);
    RotateBlock(a, m, g, p, q, c, s);
    for i := 0 to a.Length0
      invariant Partly(a, m, g, p, q, i)
    {
      if i != p && i != q {
        RotateRow(a, m, g, p, q, c, s, i);
      }
    }
  }

  method RotateBlock(a: array2<real>, ghost m: Matrix, ghost g: Matrix, p: nat, q: nat, c: real, s: real)
    requires Symmetric(m) && Symmetric(g) && Shows(a, m) && Pair(m, p, q) && |g| == |m| && AgreeOutside(m, g, p, q)
    requires g[p][p] == NewApp(c, s, m[p][p], m[q][q], m[p][q]) && g[p][q] == 0.0
    requires g[q][q] == NewAqq(c, s, m[p][p], m[q][q], m[p][q])
    modifies a
    ensures Partly(a, m, g, p, q, 0)
  {
    var app, aqq, apq := a[p, p], a[q, q], a[p, q];
    var newApp := c * c * app + 2.0 * s * c * apq + s * s * aqq;
    var newAqq := s * s * app - 2.0 * s * c * apq + c * c * aqq;
    assert newApp == g[p][p] && newAqq == g[q][q] && g[q][p] == 0.0;
    a[p, p] := newApp;
    a[q, q] := newAqq;
    a[p, q] := 0.0;
    a[q, p] := 0.0;
  }

  method RotateRow(a: array2<real>, ghost m: Matrix, ghost g: Matrix, p: nat, q: nat, c: real, s: real, i: nat)
    requires Symmetric(m) && Symmetric(g) && Pair(m, p, q) && |g| == |m| && i < |m| && i != p && i != q
    requires g[i][p] == Mix(c, m[i][p], s, m[i][q]) && g[i][q] == Mix(-s, m[i][p], c, m[i][q])
    requires Partly(a, m, g, p, q, i)
    modifies a
    ensures Partly(a, m, g, p, q, i + 1)
  {
    var aip, aiq := a[i, p], a[i, q];
    var rotatedP := c * aip + s * aiq;
    var rotatedQ := -s * aip + c * aiq;
    assert rotatedP == g[i][p] == g[p][i] && rotatedQ == g[i][q] == g[q][i];
    a[i, p] := rotatedP;
    a[p, i] := a[i, p];
    a[i, q] := rotatedQ;
    a[q, i] := a[i, q];
  }
}
