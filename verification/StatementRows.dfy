/** The three statements as functions of their inputs and of the waterfall debt and interest
    accumulated so far (statements.py). */
module StatementRows {
  import opened IncomeTax
  import opened Sequences
  import opened Wrappers

  datatype DividendPolicy = NoDividends | FixedAmount(value: Option<real>) | PayoutRatio(value: Option<real>)

  /** Everything period t contributes. */
  datatype PeriodInput = PeriodInput(
    revenue: real, cogs: real, fixedOpex: real, da: real, interest: real,
    ar: real, ap: real, inv: real, ppeGross: real, accDepr: real,
    debtCurrent: real, debtNonCurrent: real, draws: real, repayments: real, equityRaise: real)

  datatype Inputs = Inputs(
    periods: seq<PeriodInput>,
    taxRate: real,
    nolEnabled: bool,
    policy: DividendPolicy,
    initialCash: real,
    initialEquity: real)

  /** Waterfall debt and interest accumulated over the passes made so far, per period. */
  datatype Cumul = Cumul(debt: seq<real>, interest: seq<real>)

  predicate Fits(inp: Inputs, c: Cumul) {
    |c.debt| == |c.interest| == |inp.periods|
  }

  datatype IncomeRow = IncomeRow(
    revenue: real, cogs: real, grossProfit: real, operatingExpenses: real, ebitda: real, depreciation: real,
    ebit: real, interestExpense: real, ebt: real, nolOffset: real, taxableIncome: real, tax: real,
    netIncome: real, nolBalance: real, dividends: real)

  datatype BalanceRow = BalanceRow(
    cash: real, accountsReceivable: real, inventory: real, totalCurrentAssets: real,
    ppeGross: real, accumulatedDepreciation: real, ppeNet: real, totalAssets: real,
    accountsPayable: real, debtCurrent: real, debtNonCurrent: real, totalCurrentLiabilities: real,
    totalLiabilities: real, totalEquity: real, totalLiabilitiesEquity: real)

  datatype CashRow = CashRow(
    operating: real, investing: real, debtDraws: real, debtRepayments: real, dividendsPaid: real,
    equityRaised: real, financing: real, netCf: real, openingCash: real, closingCash: real)

  // ----- Income statement -----

  function Ebit(p: PeriodInput): real {
    p.revenue - p.cogs - p.fixedOpex - p.da
  }

  /** Earnings before tax when extra interest is charged on top of the scheduled one. */
  function EbtAt(inp: Inputs, extra: seq<real>, t: nat): real
    requires t < |inp.periods| == |extra|
  {
    Ebit(inp.periods[t]) - (inp.periods[t].interest + extra[t])
  }

  function Ebts(inp: Inputs, extra: seq<real>): seq<real>
    requires |inp.periods| == |extra|
  {
    seq(|extra|, t requires 0 <= t < |extra| => EbtAt(inp, extra, t))
  }

  function Dividend(policy: DividendPolicy, netIncome: real): real {
    match policy
    case NoDividends => 0.0
    case FixedAmount(value) => ValueOr0(value)
    case PayoutRatio(value) => Max(0.0, netIncome * ValueOr0(value))
  }

  function IncomeRowFrom(inp: Inputs, p: PeriodInput, interest: real, line: TaxLine): IncomeRow {
    var gross := p.revenue - p.cogs;
    var ebitda := gross - p.fixedOpex;
    var ebit := ebitda - p.da;
    var ebt := ebit - interest;
    var tax := line.taxable * inp.taxRate;
    IncomeRow(p.revenue, p.cogs, gross, p.fixedOpex, ebitda, p.da, ebit, interest, ebt,
              line.used, line.taxable, tax, ebt - tax, line.nolBalance, Dividend(inp.policy, ebt - tax))
  }

  function IncomeAt(inp: Inputs, extra: seq<real>, t: nat): IncomeRow
    requires t < |inp.periods| == |extra|
  {
    IncomeRowFrom(inp, inp.periods[t], inp.periods[t].interest + extra[t],
                  TaxLineAt(inp.nolEnabled, Ebts(inp, extra), t))
  }

  function IncomeTo(inp: Inputs, extra: seq<real>, n: nat): (rows: seq<IncomeRow>)
    requires n <= |inp.periods| == |extra|
    ensures |rows| == n
  {
    if n == 0 then [] else IncomeTo(inp, extra, n - 1) + [IncomeAt(inp, extra, n - 1)]
  }

  lemma {:induction false} IncomeToAt(inp: Inputs, extra: seq<real>, n: nat, t: nat)
    requires t < n <= |inp.periods| == |extra|
    ensures IncomeTo(inp, extra, n)[t] == IncomeAt(inp, extra, t)
  {
    if t < n - 1 {
      IncomeToAt(inp, extra, n - 1, t);
      assert IncomeTo(inp, extra, n)[t] == IncomeTo(inp, extra, n - 1)[t];
    }
  }

  // ----- Equity, balance sheet -----

  /** Equity after the first n periods. */
  function EquityAfter(inp: Inputs, extra: seq<real>, n: nat): real
    requires n <= |inp.periods| == |extra|
  {
    if n == 0 then inp.initialEquity
    else
      var row := IncomeAt(inp, extra, n - 1);
      EquityAfter(inp, extra, n - 1) + row.netIncome - row.dividends + inp.periods[n - 1].equityRaise
  }

  function AssetsExCash(p: PeriodInput): real {
    p.ar + p.inv + (p.ppeGross - p.accDepr)
  }

  function Liabilities(p: PeriodInput, waterfallDebt: real): real {
    p.ap + p.debtCurrent + p.debtNonCurrent + waterfallDebt
  }

  function BalanceRowFrom(p: PeriodInput, waterfallDebt: real, equity: real): BalanceRow {
    var liab := Liabilities(p, waterfallDebt);
    var cash := liab + equity - AssetsExCash(p);
    BalanceRow(cash, p.ar, p.inv, cash + p.ar + p.inv,
               p.ppeGross, p.accDepr, p.ppeGross - p.accDepr, AssetsExCash(p) + cash,
               p.ap, p.debtCurrent, p.debtNonCurrent, p.ap + p.debtCurrent,
               liab, equity, liab + equity)
  }

  function BalanceAt(inp: Inputs, c: Cumul, t: nat): BalanceRow
    requires Fits(inp, c) && t < |inp.periods|
  {
    BalanceRowFrom(inp.periods[t], c.debt[t], EquityAfter(inp, c.interest, t + 1))
  }

  function BalanceTo(inp: Inputs, c: Cumul, n: nat): (rows: seq<BalanceRow>)
    requires Fits(inp, c) && n <= |inp.periods|
    ensures |rows| == n
  {
    if n == 0 then [] else BalanceTo(inp, c, n - 1) + [BalanceAt(inp, c, n - 1)]
  }

  lemma {:induction false} BalanceToAt(inp: Inputs, c: Cumul, n: nat, t: nat)
    requires Fits(inp, c) && t < n <= |inp.periods|
    ensures BalanceTo(inp, c, n)[t] == BalanceAt(inp, c, t)
  {
    if t < n - 1 {
      BalanceToAt(inp, c, n - 1, t);
      assert BalanceTo(inp, c, n)[t] == BalanceTo(inp, c, n - 1)[t];
    }
  }

  /** Closing cash, the balancing item. */
  function CashAt(inp: Inputs, c: Cumul, t: nat): real
    requires Fits(inp, c) && t < |inp.periods|
  {
    BalanceAt(inp, c, t).cash
  }

  // ----- Cash flow -----

  const NOTHING: PeriodInput :=
    PeriodInput(0.0, 0.0, 0.0, 0.0, 0.0, 0.0, 0.0, 0.0, 0.0, 0.0, 0.0, 0.0, 0.0, 0.0, 0.0)

  function Before(inp: Inputs, t: nat): PeriodInput
    requires t < |inp.periods|
  {
    if t > 0 then inp.periods[t - 1] else NOTHING
  }

  function OpeningCash(inp: Inputs, c: Cumul, t: nat): real
    requires Fits(inp, c) && t < |inp.periods|
  {
    if t > 0 then CashAt(inp, c, t - 1) else inp.initialCash
  }

  function Operating(p: PeriodInput, prev: PeriodInput, netIncome: real): real {
    netIncome + p.da - (p.ar - prev.ar) - (p.inv - prev.inv) + (p.ap - prev.ap)
  }

  function Investing(p: PeriodInput, prev: PeriodInput): real {
    -(p.ppeGross - prev.ppeGross)
  }

  /** Financing is the balancing item; dividends is the figure of the first build. */
  function CashRowFrom(p: PeriodInput, prev: PeriodInput, netIncome: real, dividends: real, opening: real, closing: real):
    CashRow
  {
    var operating, investing := Operating(p, prev, netIncome), Investing(p, prev);
    var financing := closing - opening - operating - investing;
    CashRow(operating, investing, p.draws, p.repayments, dividends, p.equityRaise, financing,
            operating + investing + financing, opening, closing)
  }

  function NoExtra(inp: Inputs): seq<real> {
    seq(|inp.periods|, _ => 0.0)
  }

  function CashFlowAt(inp: Inputs, c: Cumul, t: nat): CashRow
    requires Fits(inp, c) && t < |inp.periods|
  {
    CashRowFrom(inp.periods[t], Before(inp, t), IncomeAt(inp, c.interest, t).netIncome,
                IncomeAt(inp, NoExtra(inp), t).dividends, OpeningCash(inp, c, t), CashAt(inp, c, t))
  }

  function CashFlowTo(inp: Inputs, c: Cumul, n: nat): (rows: seq<CashRow>)
    requires Fits(inp, c) && n <= |inp.periods|
    ensures |rows| == n
  {
    if n == 0 then [] else CashFlowTo(inp, c, n - 1) + [CashFlowAt(inp, c, n - 1)]
  }

  lemma {:induction false} CashFlowToAt(inp: Inputs, c: Cumul, n: nat, t: nat)
    requires Fits(inp, c) && t < n <= |inp.periods|
    ensures CashFlowTo(inp, c, n)[t] == CashFlowAt(inp, c, t)
  {
    SnocAt(CashFlowTo(inp, c, n - 1), CashFlowAt(inp, c, n - 1), t);
    if t < n - 1 {
      CashFlowToAt(inp, c, n - 1, t);
    }
  }

  // ----- Identities, for any debt and interest accumulated -----

  /** Accumulated depreciation is the running total of the charges. */
  predicate DepreciationAccumulates(inp: Inputs) {
    forall t: nat | t < |inp.periods| :: inp.periods[t].accDepr == Before(inp, t).accDepr + inp.periods[t].da
  }

  /** All interest-bearing debt at the end of period t. */
  function DebtAt(inp: Inputs, c: Cumul, t: nat): real
    requires Fits(inp, c) && t < |inp.periods|
  {
    inp.periods[t].debtCurrent + inp.periods[t].debtNonCurrent + c.debt[t]
  }

  /** Debt and the opening gap between equity and cash before period t. */
  function OpeningClaims(inp: Inputs, c: Cumul, t: nat): real
    requires Fits(inp, c) && t < |inp.periods|
  {
    if t > 0 then DebtAt(inp, c, t - 1) else inp.initialCash - inp.initialEquity
  }

  /** The balancing item of the cash flow statement is the real financing: change in debt plus
      equity raised less dividends, with the opening equity net of opening cash in period 0. */
  lemma FinancingIsFlows(inp: Inputs, c: Cumul, t: nat)
    requires Fits(inp, c) && t < |inp.periods| && DepreciationAccumulates(inp)
    ensures CashFlowAt(inp, c, t).financing
         == DebtAt(inp, c, t) - OpeningClaims(inp, c, t) + inp.periods[t].equityRaise
            - IncomeAt(inp, c.interest, t).dividends
  {
    var p, prev, row := inp.periods[t], Before(inp, t), IncomeAt(inp, c.interest, t);
    assert p.accDepr == prev.accDepr + p.da;
    assert EquityAfter(inp, c.interest, t + 1)
        == EquityAfter(inp, c.interest, t) + row.netIncome - row.dividends + p.equityRaise;
    if t > 0 {
      assert CashAt(inp, c, t - 1)
          == Liabilities(prev, c.debt[t - 1]) + EquityAfter(inp, c.interest, t) - AssetsExCash(prev);
    }
  }

  /** Assets equal liabilities plus equity, and closing cash equals opening cash plus net flow,
      with each opening balance the previous closing one. */
  lemma StatementsTie(inp: Inputs, c: Cumul, t: nat)
    requires Fits(inp, c) && t < |inp.periods|
    ensures var b, f := BalanceAt(inp, c, t), CashFlowAt(inp, c, t);
            && b.totalAssets == b.totalLiabilitiesEquity
            && b.totalAssets == b.totalCurrentAssets + b.ppeNet
            && f.closingCash == b.cash == f.openingCash + f.netCf
            && (t > 0 ==> f.openingCash == CashFlowAt(inp, c, t - 1).closingCash)
  {
  }

  /** Totals over the first n periods. */
  function FinancingTo(inp: Inputs, c: Cumul, n: nat): real
    requires Fits(inp, c) && n <= |inp.periods|
  {
    if n == 0 then 0.0 else FinancingTo(inp, c, n - 1) + CashFlowAt(inp, c, n - 1).financing
  }

  function NetCashTo(inp: Inputs, c: Cumul, n: nat): real
    requires Fits(inp, c) && n <= |inp.periods|
  {
    if n == 0 then 0.0 else NetCashTo(inp, c, n - 1) + CashFlowAt(inp, c, n - 1).netCf
  }

  function RaisedTo(inp: Inputs, n: nat): real
    requires n <= |inp.periods|
  {
    if n == 0 then 0.0 else RaisedTo(inp, n - 1) + inp.periods[n - 1].equityRaise
  }

  function DividendsTo(inp: Inputs, extra: seq<real>, n: nat): real
    requires n <= |inp.periods| == |extra|
  {
    if n == 0 then 0.0 else DividendsTo(inp, extra, n - 1) + IncomeAt(inp, extra, n - 1).dividends
  }

  /** Over a whole run: cash moved by the net flows, and financing brought in the closing debt,
      the equity raised and the opening gap, less all dividends. */
  lemma {:induction false} RunTotals(inp: Inputs, c: Cumul, n: nat)
    requires Fits(inp, c) && 0 < n <= |inp.periods| && DepreciationAccumulates(inp)
    ensures CashAt(inp, c, n - 1) == inp.initialCash + NetCashTo(inp, c, n)
    ensures FinancingTo(inp, c, n)
         == DebtAt(inp, c, n - 1) + inp.initialEquity - inp.initialCash + RaisedTo(inp, n)
            - DividendsTo(inp, c.interest, n)
  {
    FinancingIsFlows(inp, c, n - 1);
    StatementsTie(inp, c, n - 1);
    if n > 1 {
      RunTotals(inp, c, n - 1);
    }
  }

  /** Taxable income of the statements: the high-water mark of cumulative earnings. */
  function TaxedTo(inp: Inputs, extra: seq<real>, n: nat): real
    requires n <= |inp.periods| == |extra|
  {
    if n == 0 then 0.0 else TaxedTo(inp, extra, n - 1) + IncomeAt(inp, extra, n - 1).taxableIncome
  }

  lemma {:induction false} TaxedIsTaxable(inp: Inputs, extra: seq<real>, n: nat)
    requires n <= |inp.periods| == |extra|
    ensures TaxedTo(inp, extra, n) == TaxableTo(inp.nolEnabled, Ebts(inp, extra), n)
  {
    if n > 0 {
      TaxedIsTaxable(inp, extra, n - 1);
    }
  }

  lemma TaxedIsHighWater(inp: Inputs, extra: seq<real>, t: nat)
    requires t < |inp.periods| == |extra| && inp.nolEnabled
    ensures TaxedTo(inp, extra, t + 1) == HighWater(Ebts(inp, extra), t + 1)
    ensures IncomeAt(inp, extra, t).nolBalance == HighWater(Ebts(inp, extra), t + 1) - EarnedTo(Ebts(inp, extra), t + 1)
  {
    TaxedIsTaxable(inp, extra, t + 1);
    CarryForwardClosedForm(Ebts(inp, extra), t + 1);
  }
}
