/** Calibrating a Markov transition table by hand (calibrate.py). */
module Markov {
  import opened Dicts
  import opened PowerIteration
  import opened RealArith
  import opened Sequences
  import opened Wrappers

  const N_STATES: nat := 81
  const TOLERANCE: real := 0.000000001

  /** Probabilities by target state; states without an entry are missing in the database. */
  type Row = Dict<nat, real>

  ghost predicate NonNegative(row: Row) {
    row.Valid() && forall k | k in row.items :: row.items[k] >= 0.0
  }

  /** No target state outside the model. */
  ghost predicate InRange(row: Row) {
    row.Valid() && forall k | k in row.items :: k < N_STATES
  }

  ghost predicate Stochastic(row: Row) {
    NonNegative(row) && Sum(Values(row)) == 1.0
  }

  // ----- Renormalising a row -----

  function Total(row: Row, to: nat, prob: real): real
    requires row.Valid()
  {
    PutIsValid(row, to, prob);
    Sum(Values(Put(row, to, prob)))
  }

  function Over(total: real): real -> real
    requires total != 0.0
  {
    (v: real) => v / total
  }

  function RenormaliseRow(row: Row, overrideTo: nat, overrideProb: real): Row
    requires row.Valid()
  {
    PutIsValid(row, overrideTo, overrideProb);
    var updated := Put(row, overrideTo, overrideProb);
    var total := Sum(Values(updated));
    if total == 0.0 then MapValues(updated, _ => 1.0 / |updated.keys| as real)
    else MapValues(updated, Over(total))
  }

  lemma {:induction false} SumOfQuotients(s: seq<real>, total: real)
    requires total != 0.0
    ensures Sum(Map(Over(total), s)) == Sum(s) / total
  {
    if s != [] {
      SumOfQuotients(s[1..], total);
      assert Map(Over(total), s)[1..] == Map(Over(total), s[1..]);
      AddQuotients(s[0], Sum(s[1..]), total);
    }
  }

  lemma AddQuotients(x: real, y: real, z: real)
    requires z != 0.0
    ensures x / z + y / z == (x + y) / z
  {
  }

  /** Whatever the entries were, the result has the same keys plus the overridden one and sums to
      one ... */
  lemma RenormalisedSumsToOne(row: Row, to: nat, prob: real)
    requires row.Valid()
    ensures var r := RenormaliseRow(row, to, prob);
            && r.Valid()
            && r.keys == Put(row, to, prob).keys
            && Sum(Values(r)) == 1.0
  {
    PutIsValid(row, to, prob);
    var updated, r := Put(row, to, prob), RenormaliseRow(row, to, prob);
    assert to in updated.items && to in updated.keys;
    if Total(row, to, prob) == 0.0 {
      var share := 1.0 / |updated.keys| as real;
      MapValuesIsValid(updated, _ => share);
      EqualShares(Values(r), share);
    } else {
      MapValuesIsValid(updated, Over(Total(row, to, prob)));
      QuotientsOfTotal(Values(updated), Total(row, to, prob));
    }
  }

  lemma EqualShares(s: seq<real>, share: real)
    requires s != [] && share == 1.0 / |s| as real && forall i | 0 <= i < |s| :: s[i] == share
    ensures Sum(s) == 1.0
  {
    SumOfEqual(s, share);
  }

  lemma QuotientsOfTotal(s: seq<real>, total: real)
    requires total != 0.0 && Sum(s) == total
    ensures Sum(Map(Over(total), s)) == 1.0
  {
    SumOfQuotients(s, total);
  }

  /** ... and it is non-negative if the entries and the new probability were. */
  lemma RenormalisedIsNonNegative(row: Row, to: nat, prob: real)
    requires NonNegative(row) && prob >= 0.0
    ensures Stochastic(RenormaliseRow(row, to, prob))
  {
    RenormalisedSumsToOne(row, to, prob);
    var updated, total, r := Put(row, to, prob), Total(row, to, prob), RenormaliseRow(row, to, prob);
    assert to in updated.items && to in updated.keys;
    TotalIsPositive(updated);
    forall k | k in r.items
      ensures r.items[k] >= 0.0
    {
      if total == 0.0 {
        QuotientSign(1.0, |updated.keys| as real);
      } else {
        QuotientSign(updated.items[k], total);
      }
    }
  }

  lemma TotalIsPositive(row: Row)
    requires NonNegative(row)
    ensures Sum(Values(row)) >= 0.0
  {
    SumMonotone(seq(|row.keys|, _ => 0.0), Values(row));
    SumOfEqual(seq(|row.keys|, _ => 0.0), 0.0);
  }

  /** What the other entries of a row add up to. */
  function Rest(row: Row, to: nat): real
    requires row.Valid()
  {
    Total(row, to, 0.0)
  }

  /** A request that renormalising does not change: with the rest it makes one, or it is zero and the
      rest is not, or everything adds up to zero and it is the uniform share. */
  predicate KeepsRequest(rest: real, prob: real, n: nat) {
    rest + prob == 1.0 || (prob == 0.0 && rest != 0.0) || (rest + prob == 0.0 && n > 0 && prob == 1.0 / n as real)
  }

  /** The overridden entry ends up at the requested probability in exactly these cases, whatever the
      row was. */
  lemma RequestedProbabilityIff(row: Row, to: nat, prob: real)
    requires row.Valid() && to in row.items
    ensures RenormaliseRow(row, to, prob).items[to] == prob <==> KeepsRequest(Rest(row, to), prob, |row.keys|)
  {
    var total := Total(row, to, prob);
    SumAfterPut(row, to, prob);
    SumAfterPut(row, to, 0.0);
    assert total == Rest(row, to) + prob;
    assert to in row.keys && Put(row, to, prob).keys == row.keys;
    if total != 0.0 {
      QuotientIsItself(prob, total);
    }
  }

  lemma QuotientIsItself(x: real, z: real)
    requires z != 0.0
    ensures x / z == x <==> x == 0.0 || z == 1.0
  {
    assert (x / z) * z == x;
    if x / z == x {
      assert x * (z - 1.0) == 0.0;
      MulZero(x, z - 1.0);
    }
  }

  lemma EntryAtMostSum(row: Row, k: nat)
    requires NonNegative(row) && k in row.items
    ensures row.items[k] <= Sum(Values(row))
  {
    SumAfterPut(row, k, 0.0);
    TotalIsPositive(Put(row, k, 0.0));
  }

  lemma QuotientTimes(x: real, y: real, z: real)
    requires z != 0.0
    ensures (x / z) * y == (x * y) / z
  {
    var q := x / z;
    assert q * z == x;
    assert (q * y) * z == x * y;
    assert ((q * y) * z) / z == q * y;
  }

  lemma CrossShares(x: real, y: real, z: real)
    requires z != 0.0
    ensures (x / z) * y == (y / z) * x
  {
    QuotientTimes(x, y, z);
    QuotientTimes(y, x, z);
    assert x * y == y * x;
  }

  lemma NothingElse(row: Row, to: nat, prob: real, k: nat)
    requires NonNegative(row) && prob >= 0.0 && k in row.items && k != to && Total(row, to, prob) == 0.0
    ensures row.items[k] == 0.0
  {
    PutIsValid(row, to, prob);
    EntryAtMostSum(Put(row, to, prob), k);
  }

  /** The other entries keep their proportions. */
  lemma ProportionsKept(row: Row, to: nat, prob: real, j: nat, k: nat)
    requires NonNegative(row) && prob >= 0.0 && j in row.items && k in row.items && j != to && k != to
    ensures RenormaliseRow(row, to, prob).items[j] * row.items[k] == RenormaliseRow(row, to, prob).items[k] * row.items[j]
  {
    if Total(row, to, prob) == 0.0 {
      NothingElse(row, to, prob, j);
      NothingElse(row, to, prob, k);
    } else {
      CrossShares(row.items[j], row.items[k], Total(row, to, prob));
    }
  }

  // ----- The override command -----

  datatype OverrideError = BadFromState | BadToState | BadProbability

  function FillTo(row: Row, n: nat): Row {
    if n == 0 then row else FillOne(FillTo(row, n - 1), n - 1)
  }

  function FillOne(row: Row, j: nat): Row {
    if j in row.items then row else Put(row, j, 0.0)
  }

  /** filled is row with zeros added among the first n states, and complete on them. */
  ghost predicate Filled(row: Row, filled: Row, n: nat) {
    && filled.Valid()
    && (forall k | k in row.items :: k in filled.items && filled.items[k] == row.items[k])
    && (forall k | k in filled.items && k !in row.items :: k < n && filled.items[k] == 0.0)
    && (forall k: nat | k < n :: k in filled.items)
  }

  lemma FillOneMore(row: Row, before: Row, filled: Row, n: nat)
    requires Filled(row, before, n) && filled == FillOne(before, n)
    ensures Filled(row, filled, n + 1)
  {
    PutIsValid(before, n, 0.0);
  }

  lemma FilledAlready(row: Row)
    requires row.Valid()
    ensures Filled(row, row, 0)
  {
  }

  lemma {:induction false} FillAddsZeros(row: Row, n: nat)
    requires row.Valid()
    ensures Filled(row, FillTo(row, n), n)
  {
    if n == 0 {
      FilledAlready(row);
    } else {
      var before, filled := FillTo(row, n - 1), FillTo(row, n);
      FillAddsZeros(row, n - 1);
      FillOneMore(row, before, filled, n - 1);
    }
  }

  /** The row an override leaves. */
  function OverriddenRow(row: Row, to: nat, prob: real): Row
    requires row.Valid()
  {
    FillAddsZeros(row, N_STATES);
    RenormaliseRow(FillTo(row, N_STATES), to, prob)
  }

  datatype Command = Command(fromState: int, toState: int, probability: real)

  function Check(c: Command): Option<OverrideError> {
    if !(0 <= c.fromState < N_STATES) then Some(BadFromState)
    else if !(0 <= c.toState < N_STATES) then Some(BadToState)
    else if !(0.0 <= c.probability <= 1.0) then Some(BadProbability)
    else None
  }

  /** A command is carried out exactly if both states are among the 81 and the probability is one. */
  lemma AcceptedIff(c: Command)
    ensures Check(c).None? <==> 0 <= c.fromState <= 80 && 0 <= c.toState <= 80 && 0.0 <= c.probability <= 1.0
  {
  }

  /** One row per state, no target outside the model. */
  ghost predicate WellIndexed(rows: seq<Row>) {
    |rows| == N_STATES && forall i | 0 <= i < |rows| :: InRange(rows[i])
  }

  ghost predicate ValidTable(rows: seq<Row>) {
    WellIndexed(rows) && forall i | 0 <= i < |rows| :: NonNegative(rows[i])
  }

  function AfterOverride(rows: seq<Row>, c: Command): seq<Row>
    requires WellIndexed(rows)
  {
    if Check(c).Some? then rows else rows[c.fromState := OverriddenRow(rows[c.fromState], c.toState, c.probability)]
  }

  lemma OverrideKeepsIndexes(rows: seq<Row>, c: Command)
    requires WellIndexed(rows)
    ensures WellIndexed(AfterOverride(rows, c))
    ensures Check(c).None? ==> Sum(Values(AfterOverride(rows, c)[c.fromState])) == 1.0
  {
    if Check(c).None? {
      var row := rows[c.fromState];
      FillAddsZeros(row, N_STATES);
      RenormalisedSumsToOne(FillTo(row, N_STATES), c.toState, c.probability);
      KeysOfOverridden(row, c.toState, c.probability);
    }
  }

  /** An overridden row is complete and stochastic, whatever was missing before; no other row
      changes, and a rejected command changes nothing. */
  lemma OverrideMakesStochastic(rows: seq<Row>, c: Command)
    requires ValidTable(rows)
    ensures ValidTable(AfterOverride(rows, c))
    ensures Check(c).Some? ==> AfterOverride(rows, c) == rows
    ensures Check(c).None? ==>
              var row := AfterOverride(rows, c)[c.fromState];
              && Stochastic(row)
              && (forall k: nat :: k in row.items <==> k < N_STATES)
              && forall i | 0 <= i < N_STATES && i != c.fromState :: AfterOverride(rows, c)[i] == rows[i]
  {
    if Check(c).None? {
      var row := rows[c.fromState];
      FillAddsZeros(row, N_STATES);
      RenormalisedSumsToOne(FillTo(row, N_STATES), c.toState, c.probability);
      RenormalisedIsNonNegative(FillTo(row, N_STATES), c.toState, c.probability);
      KeysOfOverridden(row, c.toState, c.probability);
    }
  }

  lemma KeysOfOverridden(row: Row, to: nat, prob: real)
    requires InRange(row) && to < N_STATES
    ensures forall k: nat :: k in OverriddenRow(row, to, prob).items <==> k < N_STATES
  {
    FillAddsZeros(row, N_STATES);
  }

  /** The table after a whole session of commands. */
  function AfterAll(rows: seq<Row>, commands: seq<Command>): seq<Row>
    requires WellIndexed(rows)
    decreases |commands|
  {
    if commands == [] then rows
    else
      OverrideKeepsIndexes(rows, commands[0]);
      AfterAll(AfterOverride(rows, commands[0]), commands[1..])
  }

  /** Any session keeps stochastic rows stochastic, and every row it touched is stochastic. */
  lemma {:induction false} SessionKeepsStochastic(rows: seq<Row>, commands: seq<Command>, i: nat)
    requires ValidTable(rows) && i < N_STATES
    requires Stochastic(rows[i]) || exists c | c in commands :: Check(c).None? && c.fromState == i
    ensures ValidTable(AfterAll(rows, commands)) && Stochastic(AfterAll(rows, commands)[i])
    decreases |commands|
  {
    if commands != [] {
      var c, rest := commands[0], commands[1..];
      OverrideMakesStochastic(rows, c);
      assert commands == [c] + rest;
      SessionKeepsStochastic(AfterOverride(rows, c), rest, i);
    }
  }

  class TransitionTable {
    var rows: seq<Row>

    ghost predicate Valid()
      reads this
    {
      WellIndexed(rows)
    }

    constructor (initial: seq<Row>)
      requires WellIndexed(initial)
      ensures Valid() && rows == initial
    {
      rows := initial;
    }

    method Override(c: Command) returns (error: Option<OverrideError>)
      requires Valid()
      modifies this
      ensures Valid() && error == Check(c)
      ensures rows == AfterOverride(old(rows), c)
    {
      if !(0 <= c.fromState < N_STATES) {
        return Some(BadFromState);
      }
      if !(0 <= c.toState < N_STATES) {
        return Some(BadToState);
      }
      if !(0.0 <= c.probability <= 1.0) {
        return Some(BadProbability);
      }
      OverrideKeepsIndexes(rows, c);
      var rowProbs := rows[c.fromState];
      for j := 0 to N_STATES
        invariant rowProbs == FillTo(rows[c.fromState], j)
      {
        if j !in rowProbs.items {
          rowProbs := Put(rowProbs, j, 0.0);
        }
      }
      FillAddsZeros(rows[c.fromState], N_STATES);
      var newProbs := RenormaliseRow(rowProbs, c.toState, c.probability);
      rows := rows[c.fromState := newProbs];
      return None;
    }
  }

  // ----- The matrix -----

  function EntryOf(row: Row, j: nat): real {
    Lookup(row.items, j, 0.0)
  }

  function MatrixRow(row: Row): (r: Vector)
    ensures |r| == N_STATES
  {
    seq(N_STATES, j requires 0 <= j < N_STATES => EntryOf(row, j))
  }

  function MatrixOf(rows: seq<Row>): (m: seq<Vector>)
    ensures |m| == |rows|
  {
    seq(|rows|, i requires 0 <= i < |rows| => MatrixRow(rows[i]))
  }

  /** The matrix holds what is stored for a pair of states, zero where nothing is. */
  lemma MatrixHolds(rows: seq<Row>, i: nat, j: nat)
    requires WellIndexed(rows) && i < |rows| && j < N_STATES
    ensures j in rows[i].items ==> MatrixOf(rows)[i][j] == rows[i].items[j]
    ensures j !in rows[i].items ==> MatrixOf(rows)[i][j] == 0.0
  {
  }

  /** Writes the stored cells over a matrix of zeros. */
  method BuildMatrix(rows: seq<Row>) returns (matrix: seq<Vector>)
    requires WellIndexed(rows)
    ensures matrix == MatrixOf(rows)
  {
    matrix := [];
    for i := 0 to |rows|
      invariant matrix == MatrixOf(rows)[..i]
    {
      var cells := WriteRow(rows[i]);
      matrix := matrix + [cells];
    }
  }

  method WriteRow(row: Row) returns (cells: Vector)
    requires InRange(row)
    ensures cells == MatrixRow(row)
  {
    var keys := row.keys;
    cells := seq(N_STATES, _ => 0.0);
    for k := 0 to |keys|
      invariant |cells| == N_STATES
      invariant forall j: nat | j < N_STATES :: cells[j] == if j in keys[..k] then EntryOf(row, j) else 0.0
    {
      var key := keys[k];
      assert key in row.items;
      cells := cells[key := row.items[key]];
      assert keys[..k + 1] == keys[..k] + [key];
    }
    assert keys[..|keys|] == keys;
  }

  ghost predicate HasTotal(row: Row, total: real) {
    row.Valid() && Sum(Values(row)) == total
  }

  lemma {:induction false} FillKeepsSum(row: Row, n: nat, total: real)
    requires HasTotal(row, total)
    ensures HasTotal(FillTo(row, n), total)
  {
    if n > 0 {
      FillKeepsSum(row, n - 1, total);
      FillOneKeepsSum(FillTo(row, n - 1), n - 1, total);
    }
  }

  lemma FillOneKeepsSum(row: Row, j: nat, total: real)
    requires HasTotal(row, total)
    ensures HasTotal(FillOne(row, j), total)
  {
    if j !in row.items {
      SumAfterPut(row, j, 0.0);
    }
  }

  /** A row has the same total in the matrix as in the table, entries missing or not. */
  lemma MatrixRowSum(row: Row)
    requires InRange(row)
    ensures Sum(MatrixRow(row)) == Sum(Values(row))
  {
    FillAddsZeros(row, N_STATES);
    FillKeepsSum(row, N_STATES, Sum(Values(row)));
    CompleteRowSum(FillTo(row, N_STATES));
    assert MatrixRow(FillTo(row, N_STATES)) == MatrixRow(row);
  }

  lemma CompleteRowSum(row: Row)
    requires row.Valid() && forall k: nat :: k in row.items <==> k < N_STATES
    ensures Sum(MatrixRow(row)) == Sum(Values(row))
  {
    var order: seq<nat> := seq(N_STATES, i requires 0 <= i < N_STATES => i as nat);
    var f: nat -> real := (k: nat) => EntryOf(row, k);
    forall k: nat
      ensures k in order <==> k in row.keys
    {
      if k < N_STATES {
        assert order[k] == k;
      }
    }
    SameElementsSameMultiset(order, row.keys);
    MapPermutation(f, order, row.keys);
    assert Map(f, order) == MatrixRow(row);
    assert Map(f, row.keys) == Values(row);
    SumPermutation(MatrixRow(row), Values(row));
  }

  lemma CompleteRowSize(row: Row)
    requires row.Valid() && forall k: nat :: k in row.items <==> k < N_STATES
    ensures |row.keys| == N_STATES
  {
    var order: seq<nat> := seq(N_STATES, i requires 0 <= i < N_STATES => i as nat);
    forall k: nat
      ensures k in order <==> k in row.keys
    {
      if k < N_STATES {
        assert order[k] == k;
      }
    }
    SameElementsSameMultiset(order, row.keys);
    assert |multiset(order)| == |multiset(row.keys)|;
  }

  lemma FillKeepsRest(row: Row, to: nat)
    requires InRange(row) && to < N_STATES
    ensures FillTo(row, N_STATES).Valid() && Rest(FillTo(row, N_STATES), to) == Rest(row, to)
    ensures to in FillTo(row, N_STATES).items && |FillTo(row, N_STATES).keys| == N_STATES
  {
    var filled := FillTo(row, N_STATES);
    FillAddsZeros(row, N_STATES);
    FillKeepsSum(row, N_STATES, Sum(Values(row)));
    SumAfterPut(row, to, 0.0);
    SumAfterPut(filled, to, 0.0);
    CompleteRowSize(filled);
  }

  /** The override command stores the probability it was asked for in exactly these cases. */
  lemma OverrideStoresRequestIff(rows: seq<Row>, c: Command)
    requires WellIndexed(rows) && Check(c).None?
    ensures var row := AfterOverride(rows, c)[c.fromState];
            && c.toState in row.items
            && (row.items[c.toState] == c.probability
                <==> KeepsRequest(Rest(rows[c.fromState], c.toState), c.probability, N_STATES))
  {
    FillKeepsRest(rows[c.fromState], c.toState);
    RequestedProbabilityIff(FillTo(rows[c.fromState], N_STATES), c.toState, c.probability);
  }

  /** Asked for one half where the rest is one, it stores one third. */
  lemma OverrideExample(rows: seq<Row>, c: Command)
    requires WellIndexed(rows) && Check(c).None? && Rest(rows[c.fromState], c.toState) == 1.0 && c.probability == 0.5
    ensures var row := AfterOverride(rows, c)[c.fromState];
            c.toState in row.items && row.items[c.toState] == 1.0 / 3.0 != c.probability
  {
    var filled := FillTo(rows[c.fromState], N_STATES);
    FillKeepsRest(rows[c.fromState], c.toState);
    SumAfterPut(filled, c.toState, 0.0);
    SumAfterPut(filled, c.toState, 0.5);
    assert Total(filled, c.toState, 0.5) == 1.5;
  }

  /** After a session that started from, or overrode, every row, the matrix is row-stochastic and
      every row passes the validation. */
  lemma SessionGivesStochasticMatrix(rows: seq<Row>, commands: seq<Command>)
    requires ValidTable(rows)
    requires forall i | 0 <= i < N_STATES ::
               Stochastic(rows[i]) || exists c | c in commands :: Check(c).None? && c.fromState == i
    ensures ValidTable(AfterAll(rows, commands))
    ensures StochasticMatrix(MatrixOf(AfterAll(rows, commands)), N_STATES)
  {
    forall i | 0 <= i < N_STATES
      ensures ValidTable(AfterAll(rows, commands)) && Distribution(MatrixRow(AfterAll(rows, commands)[i]))
    {
      SessionKeepsStochastic(rows, commands, i);
      MatrixRowSum(AfterAll(rows, commands)[i]);
    }
    assert ValidTable(AfterAll(rows, commands)) by {
      SessionKeepsStochastic(rows, commands, 0);
    }
  }

  /** The steady-state estimate shown for a table. */
  method Inspect(rows: seq<Row>) returns (pi: Vector, ghost k: nat)
    requires WellIndexed(rows)
    ensures k <= 10000 && pi == After(Uniform(N_STATES), MatrixOf(rows), N_STATES, k)
    ensures k < 10000 ==> Steady(pi, MatrixOf(rows), N_STATES)
    ensures UnsteadyUntil(MatrixOf(rows), N_STATES, k)
    ensures StochasticMatrix(MatrixOf(rows), N_STATES) ==> Distribution(pi)
  {
    var matrix := BuildMatrix(rows);
    pi, k := Iterate(matrix, N_STATES, ROUNDS);
  }

  /** Row sums against one, within the tolerance. */
  method ValidateRowSums(matrix: seq<Vector>, tolerance: real) returns (results: seq<(nat, real, bool)>)
    ensures |results| == |matrix|
    ensures forall i | 0 <= i < |matrix| :: results[i] == (i, Sum(matrix[i]), Abs(Sum(matrix[i]) - 1.0) <= tolerance)
  {
    results := [];
    for i := 0 to |matrix|
      invariant |results| == i
      invariant forall k | 0 <= k < i :: results[k] == (k, Sum(matrix[k]), Abs(Sum(matrix[k]) - 1.0) <= tolerance)
    {
      var rowSum := Sum(matrix[i]);
      var passed := Abs(rowSum - 1.0) <= tolerance;
      results := results + [(i, rowSum, passed)];
    }
  }

  /** The validation command passes exactly when the probabilities of every row sum to one within
      the tolerance. */
  method Validate(rows: seq<Row>) returns (allPass: bool)
    requires WellIndexed(rows)
    ensures allPass <==>
              forall i | 0 <= i < N_STATES :: 0.999999999 <= Sum(Values(rows[i])) <= 1.000000001
  {
    var matrix := BuildMatrix(rows);
    var results := ValidateRowSums(matrix, TOLERANCE);
    forall i | 0 <= i < N_STATES
      ensures results[i].2 <==> 0.999999999 <= Sum(Values(rows[i])) <= 1.000000001
    {
      MatrixRowSum(rows[i]);
    }
    allPass := true;
    for i := 0 to |results|
      invariant allPass <==> forall k | 0 <= k < i :: results[k].2
    {
      if !results[i].2 {
        allPass := false;
      }
    }
  }
}
