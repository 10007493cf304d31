/** Reconciling the shown statements with what went into them, over whole runs (statements.py). */
module Reconciliation {
  import opened IncomeTax
  import opened RealArith
  import opened Sequences
  import opened StatementRows
  import opened Wrappers

  /** What one kind of input amounts to over the first n periods. */
  function TotalOf(inp: Inputs, part: PeriodInput -> real, n: nat): real
    requires n <= |inp.periods|
  {
    if n == 0 then 0.0 else TotalOf(inp, part, n - 1) + part(inp.periods[n - 1])
  }

  /** What one line of the income statement amounts to over the first n periods. */
  function ShownTo(inp: Inputs, extra: seq<real>, line: IncomeRow -> real, n: nat): real
    requires n <= |inp.periods| == |extra|
  {
    if n == 0 then 0.0 else ShownTo(inp, extra, line, n - 1) + line(IncomeAt(inp, extra, n - 1))
  }

  const REVENUE: PeriodInput -> real := (p: PeriodInput) => p.revenue
  const COSTS: PeriodInput -> real := (p: PeriodInput) => p.cogs
  const OPEX: PeriodInput -> real := (p: PeriodInput) => p.fixedOpex
  const CHARGES: PeriodInput -> real := (p: PeriodInput) => p.da
  const INTEREST: PeriodInput -> real := (p: PeriodInput) => p.interest
  const RAISES: PeriodInput -> real := (p: PeriodInput) => p.equityRaise
  const TAXES: IncomeRow -> real := (r: IncomeRow) => r.tax
  const DIVIDENDS: IncomeRow -> real := (r: IncomeRow) => r.dividends

  // ----- The income statement -----

  /** Each line of the income statement is the one above it less what lies between them. */
  lemma IncomeAddsUp(inp: Inputs, extra: seq<real>, t: nat)
    requires t < |inp.periods| == |extra|
    ensures var p, r := inp.periods[t], IncomeAt(inp, extra, t);
            && r.revenue == p.revenue == r.grossProfit + p.cogs
            && r.grossProfit == r.ebitda + p.fixedOpex
            && r.ebitda == r.ebit + p.da
            && r.ebit == r.ebt + p.interest + extra[t]
            && r.ebt == r.netIncome + r.tax
            && r.cogs == p.cogs && r.operatingExpenses == p.fixedOpex && r.depreciation == p.da
            && r.interestExpense == p.interest + extra[t]
  {
  }

  /** Earnings before tax over n periods: revenue less all costs and all interest. */
  lemma {:induction false} EarningsAre(inp: Inputs, extra: seq<real>, n: nat)
    requires n <= |inp.periods| == |extra|
    ensures EarnedTo(Ebts(inp, extra), n)
         == TotalOf(inp, REVENUE, n) - TotalOf(inp, COSTS, n) - TotalOf(inp, OPEX, n) - TotalOf(inp, CHARGES, n)
            - TotalOf(inp, INTEREST, n) - Sum(extra[..n])
  {
    if n > 0 {
      EarningsAre(inp, extra, n - 1);
      TakeSnoc(extra, n - 1);
      SumSnoc(extra[..n - 1], extra[n - 1]);
    }
  }

  lemma TaxAdds(rate: real, x: real, y: real)
    ensures Tax(x + y, rate) == Tax(x, rate) + Tax(y, rate)
  {
  }

  lemma {:induction false} TaxesAre(inp: Inputs, extra: seq<real>, n: nat)
    requires n <= |inp.periods| == |extra|
    ensures ShownTo(inp, extra, TAXES, n) == Tax(TaxableTo(inp.nolEnabled, Ebts(inp, extra), n), inp.taxRate)
  {
    if n > 0 {
      TaxesAre(inp, extra, n - 1);
      TaxAdds(inp.taxRate, TaxableTo(inp.nolEnabled, Ebts(inp, extra), n - 1),
              TaxLineAt(inp.nolEnabled, Ebts(inp, extra), n - 1).taxable);
      TaxOfRow(inp, extra, n - 1);
    }
  }

  lemma TaxIsTimes(taxable: real, rate: real)
    ensures Tax(taxable, rate) == Times(taxable, rate)
  {
  }

  lemma TaxOfRow(inp: Inputs, extra: seq<real>, t: nat)
    requires t < |inp.periods| == |extra|
    ensures TAXES(IncomeAt(inp, extra, t)) == Tax(TaxLineAt(inp.nolEnabled, Ebts(inp, extra), t).taxable, inp.taxRate)
  {
  }

  /** m is the largest of zero and the earnings before tax of the first k periods, k up to n. */
  ghost predicate IsPeak(inp: Inputs, extra: seq<real>, n: nat, m: real)
    requires n <= |inp.periods| == |extra|
  {
    && m >= 0.0
    && (forall k: nat | k <= n :: EarnedTo(Ebts(inp, extra), k) <= m)
    && exists k: nat :: k <= n && EarnedTo(Ebts(inp, extra), k) == m
  }

  lemma {:induction false} HighWaterIsPeak(inp: Inputs, extra: seq<real>, n: nat)
    requires n <= |inp.periods| == |extra|
    ensures IsPeak(inp, extra, n, HighWater(Ebts(inp, extra), n))
  {
    var ebts := Ebts(inp, extra);
    if n == 0 {
      assert EarnedTo(ebts, 0) == 0.0;
    } else {
      HighWaterIsPeak(inp, extra, n - 1);
      var k: nat :| k <= n - 1 && EarnedTo(ebts, k) == HighWater(ebts, n - 1);
      assert EarnedTo(ebts, k) == HighWater(ebts, n) || EarnedTo(ebts, n) == HighWater(ebts, n);
    }
  }

  /** With carry-forward all tax shown until a period is the rate on the highest point that cumulative
      earnings have reached. */
  lemma TaxReconciles(inp: Inputs, extra: seq<real>, n: nat) returns (peak: real)
    requires n <= |inp.periods| == |extra| && inp.nolEnabled
    ensures IsPeak(inp, extra, n, peak) && ShownTo(inp, extra, TAXES, n) == Times(peak, inp.taxRate)
  {
    peak := HighWater(Ebts(inp, extra), n);
    HighWaterIsPeak(inp, extra, n);
    TaxesAre(inp, extra, n);
    CarryForwardClosedForm(Ebts(inp, extra), n);
    TaxIsTimes(peak, inp.taxRate);
  }

  /** Without it the tax of a period is the rate on its own profit. */
  lemma TaxOnProfit(inp: Inputs, extra: seq<real>, t: nat)
    requires t < |inp.periods| == |extra| && !inp.nolEnabled
    ensures var r := IncomeAt(inp, extra, t); r.tax == (if r.ebt > 0.0 then r.ebt else 0.0) * inp.taxRate
  {
    TaxOfRow(inp, extra, t);
    TaxableIsProfitBeyondLosses(false, Ebts(inp, extra), t);
    NoCarriedLoss(Ebts(inp, extra), t);
  }

  /** Nothing, the fixed amount, or the ratio of a profit. */
  lemma DividendsFollowPolicy(inp: Inputs, extra: seq<real>, t: nat, w: real)
    requires t < |inp.periods| == |extra|
    ensures var r := IncomeAt(inp, extra, t);
            && (inp.policy == NoDividends ==> r.dividends == 0.0)
            && (inp.policy == FixedAmount(Some(w)) ==> r.dividends == w)
            && (inp.policy == PayoutRatio(Some(w)) && w >= 0.0 ==>
                  r.dividends == if r.netIncome > 0.0 then r.netIncome * w else 0.0)
  {
    SignOfProduct(IncomeAt(inp, extra, t).netIncome, w);
  }

  // ----- Equity -----

  /** Closing equity is the opening one, all revenue and all raises, less all costs, operating expenses,
      depreciation, interest scheduled and charged by the waterfall, tax and dividends. */
  lemma {:induction false} EquityIsReconciled(inp: Inputs, extra: seq<real>, n: nat)
    requires n <= |inp.periods| == |extra|
    ensures EquityAfter(inp, extra, n)
         == inp.initialEquity + TotalOf(inp, REVENUE, n) + TotalOf(inp, RAISES, n)
            - TotalOf(inp, COSTS, n) - TotalOf(inp, OPEX, n) - TotalOf(inp, CHARGES, n)
            - TotalOf(inp, INTEREST, n) - Sum(extra[..n])
            - ShownTo(inp, extra, TAXES, n) - ShownTo(inp, extra, DIVIDENDS, n)
  {
    if n > 0 {
      EquityIsReconciled(inp, extra, n - 1);
      TakeSnoc(extra, n - 1);
      SumSnoc(extra[..n - 1], extra[n - 1]);
      IncomeAddsUp(inp, extra, n - 1);
    }
  }

  /** The equity the balance sheet shows. */
  lemma EquityReconciles(inp: Inputs, c: Cumul, t: nat)
    requires Fits(inp, c) && t < |inp.periods|
    ensures BalanceAt(inp, c, t).totalEquity
         == inp.initialEquity + TotalOf(inp, REVENUE, t + 1) + TotalOf(inp, RAISES, t + 1)
            - TotalOf(inp, COSTS, t + 1) - TotalOf(inp, OPEX, t + 1) - TotalOf(inp, CHARGES, t + 1)
            - TotalOf(inp, INTEREST, t + 1) - Sum(c.interest[..t + 1])
            - ShownTo(inp, c.interest, TAXES, t + 1) - ShownTo(inp, c.interest, DIVIDENDS, t + 1)
  {
    EquityIsReconciled(inp, c.interest, t + 1);
  }

  // ----- Cash -----

  /** Cash collected from customers in a period: revenue less what they owe more. */
  function Collected(inp: Inputs, t: nat): real
    requires t < |inp.periods|
  {
    inp.periods[t].revenue - (inp.periods[t].ar - (if t > 0 then inp.periods[t - 1].ar else 0.0))
  }

  /** Cash paid for goods: their cost and what was put into stock, less what is owed more for them. */
  function PaidForGoods(inp: Inputs, t: nat): real
    requires t < |inp.periods|
  {
    var before := if t > 0 then inp.periods[t - 1] else NOTHING;
    inp.periods[t].cogs + (inp.periods[t].inv - before.inv) - (inp.periods[t].ap - before.ap)
  }

  /** The indirect operating cash flow is the direct one: collected, less paid for goods, operating
      expenses, interest and tax. */
  lemma OperatingIsDirect(inp: Inputs, c: Cumul, t: nat)
    requires Fits(inp, c) && t < |inp.periods|
    ensures CashFlowAt(inp, c, t).operating
         == Collected(inp, t) - PaidForGoods(inp, t) - inp.periods[t].fixedOpex
            - (inp.periods[t].interest + c.interest[t]) - IncomeAt(inp, c.interest, t).tax
  {
    IncomeAddsUp(inp, c.interest, t);
  }

  function OperatingTo(inp: Inputs, c: Cumul, n: nat): real
    requires Fits(inp, c) && n <= |inp.periods|
  {
    if n == 0 then 0.0 else OperatingTo(inp, c, n - 1) + CashFlowAt(inp, c, n - 1).operating
  }

  function InvestingTo(inp: Inputs, c: Cumul, n: nat): real
    requires Fits(inp, c) && n <= |inp.periods|
  {
    if n == 0 then 0.0 else InvestingTo(inp, c, n - 1) + CashFlowAt(inp, c, n - 1).investing
  }

  /** Over n periods operations bring in revenue not owed by customers any more, less costs paid for and
      stock, and investing takes what has been bought. */
  lemma {:induction false} OperationsReconcile(inp: Inputs, c: Cumul, n: nat)
    requires Fits(inp, c) && 0 < n <= |inp.periods|
    ensures var last := inp.periods[n - 1];
            && OperatingTo(inp, c, n)
               == TotalOf(inp, REVENUE, n) - last.ar
                  - (TotalOf(inp, COSTS, n) + last.inv - last.ap) - TotalOf(inp, OPEX, n)
                  - TotalOf(inp, INTEREST, n) - Sum(c.interest[..n]) - ShownTo(inp, c.interest, TAXES, n)
            && InvestingTo(inp, c, n) == -last.ppeGross
  {
    OperatingIsDirect(inp, c, n - 1);
    TakeSnoc(c.interest, n - 1);
    SumSnoc(c.interest[..n - 1], c.interest[n - 1]);
    if n > 1 {
      OperationsReconcile(inp, c, n - 1);
    } else {
      FirstPeriod(inp, c);
    }
  }

  lemma FirstPeriod(inp: Inputs, c: Cumul)
    requires Fits(inp, c) && |inp.periods| > 0
    ensures OperatingTo(inp, c, 0) == InvestingTo(inp, c, 0) == 0.0
    ensures TotalOf(inp, REVENUE, 0) == TotalOf(inp, COSTS, 0) == TotalOf(inp, OPEX, 0) == TotalOf(inp, INTEREST, 0) == 0.0
    ensures ShownTo(inp, c.interest, TAXES, 0) == 0.0 && Sum(c.interest[..0]) == 0.0
  {
  }

  // ----- The balance sheet -----

  /** The subtotals of the balance sheet; waterfall debt is in the total liabilities only. */
  lemma BalanceAddsUp(inp: Inputs, c: Cumul, t: nat)
    requires Fits(inp, c) && t < |inp.periods|
    ensures var p, b := inp.periods[t], BalanceAt(inp, c, t);
            && b.totalCurrentAssets == b.cash + p.ar + p.inv
            && b.ppeNet == p.ppeGross - p.accDepr
            && b.totalCurrentLiabilities == p.ap + p.debtCurrent
            && b.totalLiabilities == b.totalCurrentLiabilities + p.debtNonCurrent + c.debt[t]
            && b.totalLiabilitiesEquity == b.totalLiabilities + b.totalEquity
            && b.accountsReceivable == p.ar && b.inventory == p.inv && b.accountsPayable == p.ap
            && b.debtCurrent == p.debtCurrent && b.debtNonCurrent == p.debtNonCurrent
  {
  }

  /** The lines of the cash flow statement are the scheduled draws, repayments and raises, and the
      dividends of the first build. */
  lemma CashLinesAre(inp: Inputs, c: Cumul, t: nat)
    requires Fits(inp, c) && t < |inp.periods|
    ensures var p, f := inp.periods[t], CashFlowAt(inp, c, t);
            && f.debtDraws == p.draws && f.debtRepayments == p.repayments && f.equityRaised == p.equityRaise
            && f.dividendsPaid == IncomeAt(inp, NoExtra(inp), t).dividends
            && f.netCf == f.operating + f.investing + f.financing
            && (t == 0 ==> f.openingCash == inp.initialCash)
  {
  }

  /** A profit is taxed but for the losses it uses, which leave the balance carried forward; a loss
      enters it. */
  lemma LossesAre(inp: Inputs, extra: seq<real>, t: nat)
    requires t < |inp.periods| == |extra| && inp.nolEnabled
    ensures var r := IncomeAt(inp, extra, t);
            var opening := if t > 0 then IncomeAt(inp, extra, t - 1).nolBalance else 0.0;
            && r.taxableIncome + r.nolOffset == (if r.ebt > 0.0 then r.ebt else 0.0)
            && r.nolBalance == opening - r.nolOffset + (if r.ebt < 0.0 then -r.ebt else 0.0)
            && 0.0 <= r.nolOffset <= opening
            && (r.taxableIncome > 0.0 ==> r.nolBalance == 0.0)
  {
    CarryForwardClosedForm(Ebts(inp, extra), t);
  }
}
