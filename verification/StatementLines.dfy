/** Statements as lists of rows or dictionaries of lines, and the lines they hold
    (consolidation.py). */
module StatementLines {
  import opened Dicts
  import opened Labels
  import opened Sequences
  import opened Wrappers

  /** A cell of a row: a number, or something that cannot be read as one. */
  datatype Cell = Number(value: real) | Unreadable

  datatype Row =
    | NotARow
    | Row(caption: Label, name: Label, periods: map<nat, Cell>, values: Option<seq<Cell>>)

  datatype Line = Series(values: seq<real>) | NotASeries

  /** A statement as it is passed around. */
  datatype Part = Rows(rows: seq<Row>) | Lines(lines: Dict<Label, Line>) | Nothing

  /** Values per line and period. */
  type LineTable = Dict<Label, seq<real>>

  ghost predicate Fits(data: LineTable, horizon: nat) {
    data.Valid() && forall k | k in data.items :: |data.items[k]| == horizon
  }

  function CellValue(c: Cell): real {
    match c
    case Number(x) => x
    case Unreadable => 0.0
  }

  const NO_LABEL: Label := Label("")

  function LabelOf(row: Row): Label
    requires row.Row?
  {
    if row.caption != NO_LABEL then row.caption else row.name
  }

  /** The value of a row in a period: its own cell, else its list of values, else zero. */
  function ValueAt(row: Row, t: nat): real
    requires row.Row?
  {
    if t in row.periods then CellValue(row.periods[t])
    else if row.values.Some? && t < |row.values.value| then CellValue(row.values.value[t])
    else 0.0
  }

  function RowValues(row: Row, horizon: nat): (r: seq<real>)
    requires row.Row?
    ensures |r| == horizon
  {
    seq(horizon, t requires 0 <= t < horizon => ValueAt(row, t))
  }

  function LineValues(line: Line, horizon: nat): (r: seq<real>)
    ensures |r| == horizon
  {
    if line.Series? && |line.values| >= horizon then line.values[..horizon] else Zeros(horizon)
  }

  /** The lines of the first n rows; a later row with the same label replaces an earlier one. */
  function RowsTo(rows: seq<Row>, horizon: nat, n: nat): LineTable
    requires n <= |rows|
  {
    if n == 0 then Empty()
    else
      var before := RowsTo(rows, horizon, n - 1);
      if rows[n - 1].Row? then Put(before, LabelOf(rows[n - 1]), RowValues(rows[n - 1], horizon)) else before
  }

  function PartValues(part: Part, horizon: nat): LineTable {
    match part
    case Rows(rows) => RowsTo(rows, horizon, |rows|)
    case Lines(lines) => MapValues(lines, (line: Line) => LineValues(line, horizon))
    case Nothing => Empty()
  }

  lemma {:induction false} RowsToFits(rows: seq<Row>, horizon: nat, n: nat)
    requires n <= |rows|
    ensures Fits(RowsTo(rows, horizon, n), horizon)
  {
    if n > 0 {
      RowsToFits(rows, horizon, n - 1);
      if rows[n - 1].Row? {
        PutIsValid(RowsTo(rows, horizon, n - 1), LabelOf(rows[n - 1]), RowValues(rows[n - 1], horizon));
      }
    }
  }

  ghost predicate WellFormed(part: Part) {
    part.Lines? ==> part.lines.Valid()
  }

  lemma PartValuesFit(part: Part, horizon: nat)
    requires WellFormed(part)
    ensures Fits(PartValues(part, horizon), horizon)
  {
    match part
    case Rows(rows) =>
      RowsToFits(rows, horizon, |rows|);
    case Lines(lines) =>
      MapValuesIsValid(lines, (line: Line) => LineValues(line, horizon));
    case Nothing =>
  }

  method GetPeriodValues(part: Part, horizon: nat) returns (out: LineTable)
    ensures out == PartValues(part, horizon)
  {
    out := Empty();
    match part
    case Rows(rows) =>
      for n := 0 to |rows|
        invariant out == RowsTo(rows, horizon, n)
      {
        if rows[n].Row? {
          var vals := ReadRow(rows[n], horizon);
          out := Put(out, LabelOf(rows[n]), vals);
        }
      }
    case Lines(lines) =>
      out := MapValues(lines, (line: Line) => LineValues(line, horizon));
    case Nothing =>
  }

  method ReadRow(row: Row, horizon: nat) returns (vals: seq<real>)
    requires row.Row?
    ensures vals == RowValues(row, horizon)
  {
    vals := [];
    for t := 0 to horizon
      invariant vals == RowValues(row, horizon)[..t]
    {
      if t in row.periods {
        vals := vals + [CellValue(row.periods[t])];
      } else if row.values.Some? && t < |row.values.value| {
        vals := vals + [CellValue(row.values.value[t])];
      } else {
        vals := vals + [0.0];
      }
    }
  }

  // ----- Back to rows -----

  function RowFor(key: Label, values: seq<real>, horizon: nat): Row
    requires |values| == horizon
  {
    Row(key, NO_LABEL, map t: nat | t < horizon :: Number(values[t]), None)
  }

  /** One row per line, labels in alphabetical order. */
  function DictToPeriodSeries(data: LineTable, horizon: nat): Part
    requires Fits(data, horizon)
  {
    SortKeepsNoDup(data.keys);
    var labels := SortLabels(data.keys);
    Rows(seq(|labels|, i requires 0 <= i < |labels| =>
      assert labels[i] in data.items by {
        assert labels[i] in labels;
      }
      RowFor(labels[i], data.items[labels[i]], horizon)))
  }

  /** The two table conversions undo each other up to the order of the lines. */
  lemma RoundTrip(data: LineTable, horizon: nat)
    requires Fits(data, horizon)
    ensures var again := PartValues(DictToPeriodSeries(data, horizon), horizon);
            again.items == data.items && again.keys == SortLabels(data.keys) && again.Valid()
  {
    SortKeepsNoDup(data.keys);
    RoundTripRows(data, horizon, SortLabels(data.keys), DictToPeriodSeries(data, horizon).rows);
  }

  lemma RoundTripRows(data: LineTable, horizon: nat, labels: seq<Label>, rows: seq<Row>)
    requires Fits(data, horizon) && NoDup(labels) && |labels| == |rows|
    requires forall k :: k in labels <==> k in data.keys
    requires forall i | 0 <= i < |labels| ::
               labels[i] in data.items && rows[i] == RowFor(labels[i], data.items[labels[i]], horizon)
    ensures var again := RowsTo(rows, horizon, |rows|);
            again.items == data.items && again.keys == labels && again.Valid()
  {
    RoundTripTo(data, horizon, labels, rows, |labels|);
    assert labels[..|labels|] == labels;
    assert forall k | k in data.items :: k in labels;
  }

  /** The table holds the first n labels with the values of data. */
  ghost predicate HoldsFirst(table: LineTable, data: LineTable, labels: seq<Label>, n: nat)
    requires n <= |labels|
  {
    && table.keys == labels[..n]
    && (forall k :: k in table.items <==> k in labels[..n])
    && (forall k | k in table.items :: k in data.items && table.items[k] == data.items[k])
  }

  lemma {:induction false} RoundTripTo(data: LineTable, horizon: nat, labels: seq<Label>, rows: seq<Row>, n: nat)
    requires Fits(data, horizon) && NoDup(labels) && n <= |labels| == |rows|
    requires forall i | 0 <= i < |labels| ::
               labels[i] in data.items && rows[i] == RowFor(labels[i], data.items[labels[i]], horizon)
    ensures HoldsFirst(RowsTo(rows, horizon, n), data, labels, n)
  {
    if n > 0 {
      RoundTripTo(data, horizon, labels, rows, n - 1);
      RowForReads(labels[n - 1], data.items[labels[n - 1]], horizon);
      NextLabel(RowsTo(rows, horizon, n - 1), data, labels, n);
    }
  }

  lemma NextLabel(table: LineTable, data: LineTable, labels: seq<Label>, n: nat)
    requires 0 < n <= |labels| && NoDup(labels) && labels[n - 1] in data.items && HoldsFirst(table, data, labels, n - 1)
    ensures HoldsFirst(Put(table, labels[n - 1], data.items[labels[n - 1]]), data, labels, n)
  {
    assert labels[..n] == labels[..n - 1] + [labels[n - 1]];
    assert labels[n - 1] !in labels[..n - 1];
  }

  lemma RowForReads(key: Label, values: seq<real>, horizon: nat)
    requires |values| == horizon
    ensures RowFor(key, values, horizon).Row?
    ensures LabelOf(RowFor(key, values, horizon)) == key
    ensures RowValues(RowFor(key, values, horizon), horizon) == values
  {
  }

  // ----- What is read -----

  /** A row has its own number for a period, or else that of its list, or else zero; what cannot be read
      counts as zero. */
  lemma RowReads(row: Row, horizon: nat, t: nat, x: real)
    requires row.Row? && t < horizon
    ensures t in row.periods && row.periods[t] == Number(x) ==> RowValues(row, horizon)[t] == x
    ensures t in row.periods && row.periods[t] == Unreadable ==> RowValues(row, horizon)[t] == 0.0
    ensures t !in row.periods && row.values.Some? && t < |row.values.value| && row.values.value[t] == Number(x) ==>
              RowValues(row, horizon)[t] == x
    ensures t !in row.periods && (row.values.None? || t >= |row.values.value| || row.values.value[t] == Unreadable) ==>
              RowValues(row, horizon)[t] == 0.0
  {
  }

  /** A further row sets the line of its label, which is its caption or, if that is empty, its name, and
      leaves all others as they are. */
  lemma NextRow(rows: seq<Row>, caption: Label, name: Label, periods: map<nat, Cell>, values: Option<seq<Cell>>, horizon: nat)
    ensures var row := Row(caption, name, periods, values);
            var title := if caption == Label("") then name else caption;
            var before, after := PartValues(Rows(rows), horizon), PartValues(Rows(rows + [row]), horizon);
            && title in after.items && after.items[title] == RowValues(row, horizon)
            && forall k | k != title ::
                 (k in after.items <==> k in before.items) && (k in before.items ==> after.items[k] == before.items[k])
  {
    var longer := rows + [Row(caption, name, periods, values)];
    FirstRows(rows, longer, horizon, |rows|);
  }

  lemma {:induction false} FirstRows(rows: seq<Row>, longer: seq<Row>, horizon: nat, n: nat)
    requires n <= |rows| <= |longer| && longer[..|rows|] == rows
    ensures RowsTo(longer, horizon, n) == RowsTo(rows, horizon, n)
  {
    if n > 0 {
      FirstRows(rows, longer, horizon, n - 1);
      assert longer[n - 1] == longer[..|rows|][n - 1];
    }
  }

  /** A line of a dictionary counts up to the horizon if it reaches that far, and as zeros otherwise. */
  lemma LinesAreRead(lines: Dict<Label, Line>, k: Label, horizon: nat)
    requires k in lines.items
    ensures var read := PartValues(Lines(lines), horizon).items;
            && k in read
            && (lines.items[k].Series? && |lines.items[k].values| >= horizon ==> read[k] == lines.items[k].values[..horizon])
            && (lines.items[k].NotASeries? || |lines.items[k].values| < horizon ==> read[k] == Zeros(horizon))
  {
  }
}
