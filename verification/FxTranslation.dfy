/** Translating statements between currencies (consolidation.py). */
module FxTranslation {
  import opened Dicts
  import opened Labels
  import opened RealArith
  import opened Sequences
  import opened StatementLines
  import opened Wrappers

  datatype Currency = Currency(code: string)

  /** One rate for all periods, or one per period. */
  datatype FxRate = Scalar(rate: real) | PerPeriod(rates: seq<real>)

  type FxTable = map<(Currency, Currency), FxRate>

  const UNIT: FxRate := Scalar(1.0)

  // ----- Rates -----

  function Inverse(r: real): real {
    if r != 0.0 then 1.0 / r else 1.0
  }

  function InverseRate(rate: FxRate): FxRate {
    match rate
    case Scalar(r) => Scalar(Inverse(r))
    case PerPeriod(rs) => PerPeriod(Map(Inverse, rs))
  }

  /** Neither direction of the pair is in the table; the code warns and uses one. */
  predicate MissingRate(table: FxTable, fromCcy: Currency, toCcy: Currency) {
    fromCcy != toCcy && (fromCcy, toCcy) !in table && (toCcy, fromCcy) !in table
  }

  function GetRate(table: FxTable, fromCcy: Currency, toCcy: Currency): FxRate {
    if fromCcy == toCcy then UNIT
    else if (fromCcy, toCcy) in table then table[(fromCcy, toCcy)]
    else if (toCcy, fromCcy) in table then InverseRate(table[(toCcy, fromCcy)])
    else UNIT
  }

  /** The rate of a period: the last one of a list that is too short, one for an empty list. */
  function RateAt(rate: FxRate, t: nat): real {
    match rate
    case Scalar(r) => r
    case PerPeriod(rs) => if t < |rs| then rs[t] else if rs != [] then rs[|rs| - 1] else 1.0
  }

  function ConvertedAt(v: real, rate: FxRate, t: nat): real {
    v * RateAt(rate, t)
  }

  function ApplyRate(vals: seq<real>, rate: FxRate): (r: seq<real>)
    ensures |r| == |vals|
  {
    seq(|vals|, t requires 0 <= t < |vals| => ConvertedAt(vals[t], rate, t))
  }

  lemma InverseRateAt(rate: FxRate, t: nat)
    ensures RateAt(InverseRate(rate), t) == Inverse(RateAt(rate, t))
  {
    match rate
    case Scalar(r) =>
    case PerPeriod(rs) =>
      assert rs != [] ==> Map(Inverse, rs)[|rs| - 1] == Inverse(rs[|rs| - 1]);
  }

  /** The table knows the pair in one direction only, or not at all. */
  predicate OneDirection(table: FxTable, a: Currency, b: Currency) {
    (a, b) !in table || (b, a) !in table
  }

  /** The rate used for a to b, from whichever side the table holds it, is not zero. */
  predicate UsableAt(table: FxTable, a: Currency, b: Currency, t: nat) {
    RateAt(GetRate(table, a, b), t) != 0.0 && RateAt(GetRate(table, b, a), t) != 0.0
  }

  /** Going there and back multiplies by one exactly when the rate is not zero; with a zero rate
      everything is lost. */
  lemma ThereAndBack(table: FxTable, a: Currency, b: Currency, t: nat)
    requires OneDirection(table, a, b)
    ensures var product := RateAt(GetRate(table, a, b), t) * RateAt(GetRate(table, b, a), t);
            && (UsableAt(table, a, b, t) ==> product == 1.0)
            && (!UsableAt(table, a, b, t) ==> product == 0.0)
  {
    if a != b {
      if (a, b) in table {
        InverseRateAt(table[(a, b)], t);
      } else if (b, a) in table {
        InverseRateAt(table[(b, a)], t);
      }
    }
  }

  // ----- Statements -----

  datatype Statements = Statements(
    income: Option<Part>, balance: Option<Part>, cash: Option<Part>, reserve: Option<seq<real>>)

  ghost predicate WellFormedParts(s: Statements) {
    && (s.income.Some? ==> WellFormed(s.income.value))
    && (s.balance.Some? ==> WellFormed(s.balance.value))
    && (s.cash.Some? ==> WellFormed(s.cash.value))
  }

  function PartOr(part: Option<Part>, otherwise: Part): Part {
    if part.Some? then part.value else otherwise
  }

  /** The lines of a statement; none when it is missing. */
  function LinesOf(part: Option<Part>, horizon: nat): LineTable {
    PartValues(PartOr(part, Nothing), horizon)
  }

  function Scale(data: LineTable, rate: FxRate): LineTable {
    MapValues(data, (vals: seq<real>) => ApplyRate(vals, rate))
  }

  lemma ScaleFits(data: LineTable, rate: FxRate, horizon: nat)
    requires Fits(data, horizon)
    ensures Fits(Scale(data, rate), horizon)
  {
    MapValuesIsValid(data, (vals: seq<real>) => ApplyRate(vals, rate));
  }

  function TranslatePart(part: Option<Part>, rate: FxRate, horizon: nat): Part
    requires part.Some? ==> WellFormed(part.value)
  {
    if part.None? then Rows([])
    else
      PartValuesFit(part.value, horizon);
      ScaleFits(PartValues(part.value, horizon), rate, horizon);
      DictToPeriodSeries(Scale(PartValues(part.value, horizon), rate), horizon)
  }

  /** Both rates are the number one: nothing is translated. */
  predicate Untranslated(avgRate: FxRate, closingRate: FxRate) {
    avgRate == UNIT && closingRate == UNIT
  }

  datatype Market = Market(avg: FxTable, closing: FxTable)

  function AvgRate(market: Market, a: Currency, b: Currency): FxRate {
    GetRate(market.avg, a, b)
  }

  function ClosingRate(market: Market, a: Currency, b: Currency): FxRate {
    GetRate(market.closing, a, b)
  }

  /** The first line whose label passes the test, in the order of the table. */
  function FirstLine(data: LineTable, test: Label -> bool, n: nat): Option<Label>
    requires n <= |data.keys|
    decreases |data.keys| - n
  {
    if n == |data.keys| then None
    else if test(data.keys[n]) then Some(data.keys[n])
    else FirstLine(data, test, n + 1)
  }

  function LineOrZeros(data: LineTable, test: Label -> bool, horizon: nat): (r: seq<real>)
    ensures |r| == horizon
  {
    var line := FirstLine(data, test, 0);
    if line.Some? && line.value in data.items && |data.items[line.value]| == horizon then data.items[line.value]
    else Zeros(horizon)
  }

  /** What the closing equity has above the opening equity and the net income, all translated. */
  function Adjustment(equity: seq<real>, netIncome: seq<real>): (r: seq<real>)
    requires |equity| == |netIncome|
    ensures |r| == |equity|
  {
    seq(|equity|, t requires 0 <= t < |equity| =>
      equity[t] - ((if t > 0 then equity[t - 1] else 0.0) + netIncome[t]))
  }

  /** The tests that pick the equity and the net-income line by their labels. */
  datatype Keywords = Keywords(isEquity: Label -> bool, isNetIncome: Label -> bool)

  function Translate(s: Statements, a: Currency, b: Currency, market: Market, words: Keywords, horizon: nat): Statements
    requires WellFormedParts(s)
  {
    var avgRate, closingRate := AvgRate(market, a, b), ClosingRate(market, a, b);
    if Untranslated(avgRate, closingRate) then
      s.(reserve := Some(if s.reserve.Some? then s.reserve.value else Zeros(horizon)))
    else
      var income, cash := TranslatePart(s.income, avgRate, horizon), TranslatePart(s.cash, avgRate, horizon);
      var balance := TranslatePart(s.balance, closingRate, horizon);
      PartValuesFit(income, horizon);
      PartValuesFit(balance, horizon);
      var equity := LineOrZeros(PartValues(balance, horizon), words.isEquity, horizon);
      var netIncome := LineOrZeros(PartValues(income, horizon), words.isNetIncome, horizon);
      Statements(Some(income), Some(balance), Some(cash), Some(Adjustment(equity, netIncome)))
  }

  method TranslateStatements(s: Statements, a: Currency, b: Currency, market: Market, words: Keywords, horizon: nat)
    returns (out: Statements, warnings: nat)
    requires WellFormedParts(s)
    ensures out == Translate(s, a, b, market, words, horizon)
    ensures warnings == (if MissingRate(market.avg, a, b) then 1 else 0) + (if MissingRate(market.closing, a, b) then 1 else 0)
  {
    var avgRate, closingRate := GetRate(market.avg, a, b), GetRate(market.closing, a, b);
    warnings := 0;
    if MissingRate(market.avg, a, b) {
      warnings := warnings + 1;
    }
    if MissingRate(market.closing, a, b) {
      warnings := warnings + 1;
    }
    if avgRate == UNIT && closingRate == UNIT {
      out := s.(reserve := Some(if s.reserve.Some? then s.reserve.value else Zeros(horizon)));
      return;
    }
    var income, cash := TranslatePart(s.income, avgRate, horizon), TranslatePart(s.cash, avgRate, horizon);
    var balance := TranslatePart(s.balance, closingRate, horizon);
    var isData := GetPeriodValues(income, horizon);
    var bsData := GetPeriodValues(balance, horizon);
    PartValuesFit(income, horizon);
    PartValuesFit(balance, horizon);
    var equity := LineOrZeros(bsData, words.isEquity, horizon);
    var netIncome := LineOrZeros(isData, words.isNetIncome, horizon);
    var cta := AccumulateAdjustment(equity, netIncome);
    out := Statements(Some(income), Some(balance), Some(cash), Some(cta));
  }

  method AccumulateAdjustment(equity: seq<real>, netIncome: seq<real>) returns (cta: seq<real>)
    requires |equity| == |netIncome|
    ensures cta == Adjustment(equity, netIncome)
  {
    cta := [];
    for t := 0 to |equity|
      invariant cta == Adjustment(equity, netIncome)[..t]
    {
      var opening := if t > 0 then equity[t - 1] else 0.0;
      cta := cta + [equity[t] - (opening + netIncome[t])];
    }
  }

  // ----- Translation, line by line -----

  /** Translating multiplies every line of a statement by its rate of the period. */
  lemma TranslatedPart(part: Option<Part>, rate: FxRate, horizon: nat)
    requires part.Some? ==> WellFormed(part.value)
    ensures var was, now := LinesOf(part, horizon), PartValues(TranslatePart(part, rate, horizon), horizon);
            && Fits(was, horizon) && Fits(now, horizon)
            && now.items == Scale(was, rate).items
            && now.keys == SortLabels(was.keys)
  {
    PartValuesFit(PartOr(part, Nothing), horizon);
    if part.Some? {
      var data := Scale(PartValues(part.value, horizon), rate);
      ScaleFits(PartValues(part.value, horizon), rate, horizon);
      RoundTrip(data, horizon);
      PartValuesFit(TranslatePart(part, rate, horizon), horizon);
    }
  }

  lemma UnitScale(data: LineTable, horizon: nat)
    requires Fits(data, horizon)
    ensures Scale(data, UNIT).items == data.items
  {
    forall k | k in data.items
      ensures ApplyRate(data.items[k], UNIT) == data.items[k]
    {
    }
  }

  /** now holds the lines of was, each multiplied by the rate of the period. */
  ghost predicate ScaledLines(now: LineTable, was: LineTable, rate: FxRate, horizon: nat) {
    && Fits(now, horizon)
    && Fits(was, horizon)
    && (forall k :: k in now.items <==> k in was.items)
    && forall k, t: nat | k in was.items && t < horizon :: now.items[k][t] == ConvertedAt(was.items[k][t], rate, t)
  }

  lemma ScaleMeans(now: LineTable, was: LineTable, rate: FxRate, horizon: nat)
    requires Fits(now, horizon) && Fits(was, horizon) && now.items == Scale(was, rate).items
    ensures ScaledLines(now, was, rate, horizon)
  {
  }

  /** Income statement and cash flow are translated at the average rate, the balance sheet at the
      closing rate, whether or not the shortcut for two rates of one is taken. */
  lemma TranslatedLines(s: Statements, a: Currency, b: Currency, market: Market, words: Keywords, horizon: nat)
    requires WellFormedParts(s)
    ensures var r := Translate(s, a, b, market, words, horizon);
            && WellFormedParts(r)
            && ScaledLines(LinesOf(r.income, horizon), LinesOf(s.income, horizon), AvgRate(market, a, b), horizon)
            && ScaledLines(LinesOf(r.cash, horizon), LinesOf(s.cash, horizon), AvgRate(market, a, b), horizon)
            && ScaledLines(LinesOf(r.balance, horizon), LinesOf(s.balance, horizon), ClosingRate(market, a, b), horizon)
  {
    var avgRate, closingRate := AvgRate(market, a, b), ClosingRate(market, a, b);
    if Untranslated(avgRate, closingRate) {
      SameLines(s.income, horizon);
      SameLines(s.cash, horizon);
      SameLines(s.balance, horizon);
    } else {
      PartLines(s.income, avgRate, horizon);
      PartLines(s.cash, avgRate, horizon);
      PartLines(s.balance, closingRate, horizon);
    }
  }

  lemma SameLines(part: Option<Part>, horizon: nat)
    requires part.Some? ==> WellFormed(part.value)
    ensures ScaledLines(LinesOf(part, horizon), LinesOf(part, horizon), UNIT, horizon)
  {
    PartValuesFit(PartOr(part, Nothing), horizon);
    UnitScale(LinesOf(part, horizon), horizon);
    ScaleMeans(LinesOf(part, horizon), LinesOf(part, horizon), UNIT, horizon);
  }

  lemma PartLines(part: Option<Part>, rate: FxRate, horizon: nat)
    requires part.Some? ==> WellFormed(part.value)
    ensures WellFormed(TranslatePart(part, rate, horizon))
    ensures ScaledLines(LinesOf(Some(TranslatePart(part, rate, horizon)), horizon), LinesOf(part, horizon), rate, horizon)
  {
    TranslatedPart(part, rate, horizon);
    ScaleMeans(PartValues(TranslatePart(part, rate, horizon), horizon), LinesOf(part, horizon), rate, horizon);
  }

  // ----- There and back -----

  /** Exactly the values of zero and those of periods with a usable rate survive. */
  ghost predicate SurvivesIff(again: LineTable, was: LineTable, table: FxTable, a: Currency, b: Currency, horizon: nat) {
    && Fits(again, horizon)
    && Fits(was, horizon)
    && (forall k :: k in again.items <==> k in was.items)
    && forall k, t: nat | k in was.items && t < horizon ::
         again.items[k][t] == was.items[k][t] <==> UsableAt(table, a, b, t) || was.items[k][t] == 0.0
  }

  lemma LinesThereAndBack(again: LineTable, middle: LineTable, was: LineTable, table: FxTable, a: Currency, b: Currency,
                          horizon: nat)
    requires OneDirection(table, a, b)
    requires ScaledLines(middle, was, GetRate(table, a, b), horizon)
    requires ScaledLines(again, middle, GetRate(table, b, a), horizon)
    ensures SurvivesIff(again, was, table, a, b, horizon)
  {
    forall k, t: nat | k in was.items && t < horizon
      ensures again.items[k][t] == was.items[k][t] <==> UsableAt(table, a, b, t) || was.items[k][t] == 0.0
    {
      ValueThereAndBack(table, a, b, t, was.items[k][t], middle.items[k][t], again.items[k][t]);
    }
  }

  lemma ValueThereAndBack(table: FxTable, a: Currency, b: Currency, t: nat, v: real, x: real, y: real)
    requires OneDirection(table, a, b)
    requires x == ConvertedAt(v, GetRate(table, a, b), t) && y == ConvertedAt(x, GetRate(table, b, a), t)
    ensures y == v <==> UsableAt(table, a, b, t) || v == 0.0
  {
    var there, back := RateAt(GetRate(table, a, b), t), RateAt(GetRate(table, b, a), t);
    ThereAndBack(table, a, b, t);
    MulAssoc(v, there, back);
  }

  /** Translating from a to b and back with tables that hold one direction of the pair returns
      every line of all three statements, exactly as far as the rates are not zero. */
  lemma TranslationRoundTrip(s: Statements, a: Currency, b: Currency, market: Market, words: Keywords, horizon: nat)
    requires WellFormedParts(s) && OneDirection(market.avg, a, b) && OneDirection(market.closing, a, b)
    ensures var there := Translate(s, a, b, market, words, horizon);
            WellFormedParts(there) &&
            var again := Translate(there, b, a, market, words, horizon);
            && SurvivesIff(LinesOf(again.income, horizon), LinesOf(s.income, horizon), market.avg, a, b, horizon)
            && SurvivesIff(LinesOf(again.cash, horizon), LinesOf(s.cash, horizon), market.avg, a, b, horizon)
            && SurvivesIff(LinesOf(again.balance, horizon), LinesOf(s.balance, horizon), market.closing, a, b, horizon)
  {
    var there := Translate(s, a, b, market, words, horizon);
    TranslatedLines(s, a, b, market, words, horizon);
    TranslatedLines(there, b, a, market, words, horizon);
    var again := Translate(there, b, a, market, words, horizon);
    LinesThereAndBack(LinesOf(again.income, horizon), LinesOf(there.income, horizon), LinesOf(s.income, horizon),
                      market.avg, a, b, horizon);
    LinesThereAndBack(LinesOf(again.cash, horizon), LinesOf(there.cash, horizon), LinesOf(s.cash, horizon),
                      market.avg, a, b, horizon);
    LinesThereAndBack(LinesOf(again.balance, horizon), LinesOf(there.balance, horizon), LinesOf(s.balance, horizon),
                      market.closing, a, b, horizon);
  }

  /** A zero rate is inverted to one: a value translated with it comes back as zero. */
  lemma ZeroRateExample()
    ensures var eur, usd := Currency("EUR"), Currency("USD");
            var table: FxTable := map[(eur, usd) := Scalar(0.0)];
            && OneDirection(table, eur, usd)
            && RateAt(GetRate(table, eur, usd), 0) == 0.0 && RateAt(GetRate(table, usd, eur), 0) == 1.0
            && ApplyRate(ApplyRate([5.0], GetRate(table, eur, usd)), GetRate(table, usd, eur)) == [0.0]
  {
    var eur, usd := Currency("EUR"), Currency("USD");
    assert eur.code[0] != usd.code[0];
  }

  // ----- The translation adjustment -----

  function SumTo(s: seq<real>, n: nat): real
    requires n <= |s|
  {
    if n == 0 then 0.0 else SumTo(s, n - 1) + s[n - 1]
  }

  /** Accumulated adjustments are what the translated equity has above all translated income. */
  lemma {:induction false} AdjustmentsAccumulate(equity: seq<real>, netIncome: seq<real>, n: nat)
    requires |equity| == |netIncome| && 0 < n <= |equity|
    ensures SumTo(Adjustment(equity, netIncome), n) == equity[n - 1] - SumTo(netIncome, n)
  {
    if n > 1 {
      AdjustmentsAccumulate(equity, netIncome, n - 1);
    } else {
      assert SumTo(netIncome, 0) == 0.0 && SumTo(Adjustment(equity, netIncome), 0) == 0.0;
      assert SumTo(netIncome, 1) == SumTo(netIncome, 0) + netIncome[0];
      assert SumTo(Adjustment(equity, netIncome), 1) == SumTo(Adjustment(equity, netIncome), 0) + Adjustment(equity, netIncome)[0];
    }
  }

  /** Equity before translation, at the end of the period before t. */
  function OpeningEquity(equity: seq<real>, t: nat): real
    requires t < |equity|
  {
    if t > 0 then equity[t - 1] else 0.0
  }

  /** When equity only changes by the profit (no dividends, no new capital), the adjustment of a
      period is the opening equity times the change of the closing rate plus the profit times the
      distance between closing and average rate. */
  lemma AdjustmentDecomposes(equity: seq<real>, netIncome: seq<real>, avgRate: FxRate, closingRate: FxRate, t: nat)
    requires |equity| == |netIncome| && t < |equity|
    requires equity[t] == OpeningEquity(equity, t) + netIncome[t]
    ensures var before := if t > 0 then RateAt(closingRate, t - 1) else RateAt(closingRate, t);
            Adjustment(ApplyRate(equity, closingRate), ApplyRate(netIncome, avgRate))[t]
            == OpeningEquity(equity, t) * (RateAt(closingRate, t) - before)
               + netIncome[t] * (RateAt(closingRate, t) - RateAt(avgRate, t))
  {
    var o, p := OpeningEquity(equity, t), netIncome[t];
    var c, m := RateAt(closingRate, t), RateAt(avgRate, t);
    if t > 0 {
      DecompositionAlgebra(o, p, c, RateAt(closingRate, t - 1), m);
    } else {
      DecompositionAlgebra(o, p, c, c, m);
    }
  }

  lemma DecompositionAlgebra(o: real, p: real, c: real, before: real, m: real)
    ensures (o + p) * c - (o * before + p * m) == o * (c - before) + p * (c - m)
  {
  }
}
