/** Translation told from the tables of rates, and the reserve it leaves (consolidation.py). */
module TranslationLaws {
  import opened FxTranslation
  import opened Labels
  import opened RealArith
  import opened Sequences
  import opened StatementLines
  import opened Wrappers

  // ----- Lines -----

  /** w is v at the quoted rate of period t: a number for all periods; of a list the entry of the period,
      or the last one beyond its end. An empty list quotes nothing. */
  predicate AtQuote(quote: FxRate, t: nat, v: real, w: real) {
    match quote
    case Scalar(r) => w == v * r
    case PerPeriod(rs) =>
      && (t < |rs| ==> w == v * rs[t])
      && (t >= |rs| > 0 ==> w == v * rs[|rs| - 1])
      && (|rs| == 0 ==> w == v)
  }

  /** w at the quoted rate of the way back is v, unless that rate is zero; then w is v itself. */
  predicate AtInverseQuote(quote: FxRate, t: nat, v: real, w: real) {
    AtQuote(quote, t, w, v) || (AtQuote(quote, t, 1.0, 0.0) && w == v)
  }

  /** What the table says about w, translated from v in currency a into currency b. */
  predicate ByTable(table: FxTable, a: Currency, b: Currency, t: nat, v: real, w: real) {
    if a != b && (a, b) in table then AtQuote(table[(a, b)], t, v, w)
    else if a != b && (b, a) in table then AtInverseQuote(table[(b, a)], t, v, w)
    else w == v
  }

  lemma QuotedRate(quote: FxRate, t: nat, v: real, w: real)
    ensures AtQuote(quote, t, v, w) <==> w == Times(v, RateAt(quote, t))
  {
  }

  lemma InverseTimes(v: real, r: real)
    requires r != 0.0
    ensures Times(Times(v, Inverse(r)), r) == v
  {
    assert Inverse(r) * r == 1.0;
    TimesLaws(v, Inverse(r), r);
  }

  lemma ConvertedByTable(table: FxTable, a: Currency, b: Currency, t: nat, v: real)
    ensures ByTable(table, a, b, t, v, ConvertedAt(v, GetRate(table, a, b), t))
  {
    var rate := GetRate(table, a, b);
    var w := Times(v, RateAt(rate, t));
    if a != b && (a, b) in table {
      QuotedRate(table[(a, b)], t, v, w);
    } else if a != b && (b, a) in table {
      var quote := table[(b, a)];
      InverseRateAt(quote, t);
      QuotedRate(quote, t, w, v);
      QuotedRate(quote, t, 1.0, 0.0);
      if RateAt(quote, t) != 0.0 {
        InverseTimes(v, RateAt(quote, t));
      }
    }
  }

  /** The lines of was, translated by the table. */
  ghost predicate LinesByTable(now: LineTable, was: LineTable, table: FxTable, a: Currency, b: Currency, horizon: nat) {
    && Fits(now, horizon) && Fits(was, horizon)
    && (forall k :: k in now.items <==> k in was.items)
    && (forall k, t: nat | k in was.items && t < horizon :: ByTable(table, a, b, t, was.items[k][t], now.items[k][t]))
  }

  lemma ScaledByTable(now: LineTable, was: LineTable, table: FxTable, a: Currency, b: Currency, horizon: nat)
    requires ScaledLines(now, was, GetRate(table, a, b), horizon)
    ensures LinesByTable(now, was, table, a, b, horizon)
  {
    forall k, t: nat | k in was.items && t < horizon
      ensures ByTable(table, a, b, t, was.items[k][t], now.items[k][t])
    {
      ConvertedByTable(table, a, b, t, was.items[k][t]);
    }
  }

  /** Every line of income statement and cash flow is translated by the table of average rates, every
      line of the balance sheet by that of closing rates. */
  lemma TranslatedByTables(s: Statements, a: Currency, b: Currency, market: Market, words: Keywords, horizon: nat)
    requires WellFormedParts(s)
    ensures var r := Translate(s, a, b, market, words, horizon);
            && WellFormedParts(r)
            && LinesByTable(LinesOf(r.income, horizon), LinesOf(s.income, horizon), market.avg, a, b, horizon)
            && LinesByTable(LinesOf(r.cash, horizon), LinesOf(s.cash, horizon), market.avg, a, b, horizon)
            && LinesByTable(LinesOf(r.balance, horizon), LinesOf(s.balance, horizon), market.closing, a, b, horizon)
  {
    var r := Translate(s, a, b, market, words, horizon);
    TranslatedLines(s, a, b, market, words, horizon);
    ScaledByTable(LinesOf(r.income, horizon), LinesOf(s.income, horizon), market.avg, a, b, horizon);
    ScaledByTable(LinesOf(r.cash, horizon), LinesOf(s.cash, horizon), market.avg, a, b, horizon);
    ScaledByTable(LinesOf(r.balance, horizon), LinesOf(s.balance, horizon), market.closing, a, b, horizon);
  }

  /** Two average rates: each period has its own. */
  lemma TwoRatesExample(a: Currency, b: Currency, table: FxTable, v: real)
    requires a != b && (a, b) in table && table[(a, b)] == PerPeriod([2.0, 3.0])
    ensures ApplyRate([v, v, v], GetRate(table, a, b)) == [2.0 * v, 3.0 * v, 3.0 * v]
  {
  }

  // ----- The line of a label -----

  /** The line whose label passes the test is the first one that does. */
  lemma {:induction false} FirstLineIs(data: LineTable, test: Label -> bool, n: nat, k: nat)
    requires n <= k < |data.keys| && test(data.keys[k]) && forall j | n <= j < k :: !test(data.keys[j])
    ensures FirstLine(data, test, n) == Some(data.keys[k])
    decreases k - n
  {
    if n < k {
      FirstLineIs(data, test, n + 1, k);
    }
  }

  lemma {:induction false} NoLineIs(data: LineTable, test: Label -> bool, n: nat)
    requires n <= |data.keys| && forall j | n <= j < |data.keys| :: !test(data.keys[j])
    ensures FirstLine(data, test, n) == None
    decreases |data.keys| - n
  {
    if n < |data.keys| {
      NoLineIs(data, test, n + 1);
    }
  }

  /** The equity or the net income of a statement is its first line with a fitting label, zeros without
      one. */
  lemma KeyLine(data: LineTable, test: Label -> bool, horizon: nat)
    requires Fits(data, horizon)
    ensures forall k | 0 <= k < |data.keys| && test(data.keys[k]) && (forall j | 0 <= j < k :: !test(data.keys[j])) ::
              data.keys[k] in data.items && LineOrZeros(data, test, horizon) == data.items[data.keys[k]]
    ensures (forall j | 0 <= j < |data.keys| :: !test(data.keys[j])) ==> LineOrZeros(data, test, horizon) == Zeros(horizon)
  {
    forall k | 0 <= k < |data.keys| && test(data.keys[k]) && (forall j | 0 <= j < k :: !test(data.keys[j]))
      ensures data.keys[k] in data.items && LineOrZeros(data, test, horizon) == data.items[data.keys[k]]
    {
      FirstLineIs(data, test, 0, k);
    }
    if forall j | 0 <= j < |data.keys| :: !test(data.keys[j]) {
      NoLineIs(data, test, 0);
    }
  }

  // ----- The reserve -----

  /** The translation reserve, added up to any period, is the translated equity then less all translated
      net income until then. */
  lemma ReserveAccumulates(s: Statements, a: Currency, b: Currency, market: Market, words: Keywords, horizon: nat, n: nat)
    requires WellFormedParts(s) && 0 < n <= horizon
    requires !Untranslated(AvgRate(market, a, b), ClosingRate(market, a, b))
    ensures var r := Translate(s, a, b, market, words, horizon);
            var equity := LineOrZeros(LinesOf(r.balance, horizon), words.isEquity, horizon);
            var netIncome := LineOrZeros(LinesOf(r.income, horizon), words.isNetIncome, horizon);
            && r.reserve.Some? && |r.reserve.value| == horizon
            && SumTo(r.reserve.value, n) == equity[n - 1] - SumTo(netIncome, n)
  {
    var r := Translate(s, a, b, market, words, horizon);
    var equity := LineOrZeros(LinesOf(r.balance, horizon), words.isEquity, horizon);
    var netIncome := LineOrZeros(LinesOf(r.income, horizon), words.isNetIncome, horizon);
    AdjustmentsAccumulate(equity, netIncome, n);
  }
}
