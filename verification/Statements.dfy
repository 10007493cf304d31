/** Building the three statements and rewriting them in place as the funding waterfall adds
    debt and interest (statements.py). */
module Statements {
  import opened Facilities
  import opened FundingWaterfall
  import opened IncomeTax
  import opened PlugDebts
  import opened Sequences
  import opened StatementRows
  import opened WaterfallPasses
  import opened Wrappers

  class StatementLists {
    var isList: seq<IncomeRow>
    var bsList: seq<BalanceRow>
    var cfList: seq<CashRow>

    /** The lists are the statements for the given waterfall debt and interest. */
    ghost predicate Show(inp: Inputs, c: Cumul)
      reads this
    {
      && Fits(inp, c)
      && isList == IncomeTo(inp, c.interest, |inp.periods|)
      && bsList == BalanceTo(inp, c, |inp.periods|)
      && cfList == CashFlowTo(inp, c, |inp.periods|)
    }

    /** The first build. The cash-flow check against the balance sheet can never fail. */
    constructor (inp: Inputs)
      ensures Show(inp, NoCumul(inp))
    {
      var rows := BuildIncomeStatement(inp);
      var equity := AccumulateRe(inp, rows, NoExtra(inp));
      var sheet := BuildBalanceSheet(inp, equity);
      var flows := BuildCashFlow(inp, rows, sheet);
      isList, bsList, cfList := rows, sheet, flows;
    }

    static method BuildIncomeStatement(inp: Inputs) returns (rows: seq<IncomeRow>)
      ensures rows == IncomeTo(inp, NoExtra(inp), |inp.periods|)
    {
      ghost var extra := NoExtra(inp);
      var nolBalance := 0.0;
      rows := [];
      for t := 0 to |inp.periods|
        invariant nolBalance == NolAfter(inp.nolEnabled, Ebts(inp, extra), t)
        invariant rows == IncomeTo(inp, extra, t)
      {
        var p := inp.periods[t];
        var row := IncomeStep(inp, p, p.interest, nolBalance);
        nolBalance := row.nolBalance;
        rows := rows + [row];
      }
    }

    /** One period of the income statement. */
    static method IncomeStep(inp: Inputs, p: PeriodInput, interest: real, nol: real) returns (row: IncomeRow)
      ensures row == IncomeRowFrom(inp, p, interest, Offset(inp.nolEnabled, Ebit(p) - interest, nol))
    {
      var nolBalance := nol;
      var gross := p.revenue - p.cogs;
      var ebitda := gross - p.fixedOpex;
      var ebit := ebitda - p.da;
      var ebt := ebit - interest;
      var nolUsed := 0.0;
      if inp.nolEnabled && ebt > 0.0 && nolBalance > 0.0 {
        nolUsed := Min(nolBalance, ebt);
        nolBalance := nolBalance - nolUsed;
      }
      var taxable := Max(0.0, ebt - nolUsed);
      var tax := taxable * inp.taxRate;
      if inp.nolEnabled && ebt < 0.0 {
        nolBalance := nolBalance + Abs(ebt);
      }
      var ni := ebt - tax;
      row := IncomeRow(p.revenue, p.cogs, gross, p.fixedOpex, ebitda, p.da, ebit, interest, ebt,
                       nolUsed, taxable, tax, ni, nolBalance, Dividend(inp.policy, ni));
    }

    static method AccumulateRe(inp: Inputs, rows: seq<IncomeRow>, ghost extra: seq<real>) returns (re: seq<real>)
      requires |extra| == |inp.periods| && rows == IncomeTo(inp, extra, |inp.periods|)
      ensures EquityUpTo(inp, extra, re, |inp.periods|)
    {
      re := [inp.initialEquity];
      for t := 0 to |inp.periods|
        invariant EquityUpTo(inp, extra, re, t)
      {
        EquityStep(inp, extra, t);
        var next := re[t] + rows[t].netIncome - rows[t].dividends + inp.periods[t].equityRaise;
        EquitySnoc(inp, extra, re, t, next);
        re := re + [next];
      }
    }

    /** re is the equity before each of the first n periods and after the last of them. */
    static ghost predicate EquityUpTo(inp: Inputs, extra: seq<real>, re: seq<real>, n: nat)
      requires n <= |inp.periods| == |extra|
    {
      |re| == n + 1 && forall k: nat | k <= n :: re[k] == EquityAfter(inp, extra, k)
    }

    static lemma EquitySnoc(inp: Inputs, extra: seq<real>, re: seq<real>, t: nat, next: real)
      requires t < |inp.periods| == |extra| && EquityUpTo(inp, extra, re, t) && next == EquityAfter(inp, extra, t + 1)
      ensures EquityUpTo(inp, extra, re + [next], t + 1)
    {
    }

    static lemma EquityStep(inp: Inputs, extra: seq<real>, t: nat)
      requires t < |inp.periods| == |extra|
      ensures var row := IncomeTo(inp, extra, |inp.periods|)[t];
              EquityAfter(inp, extra, t + 1)
              == EquityAfter(inp, extra, t) + row.netIncome - row.dividends + inp.periods[t].equityRaise
    {
      IncomeToAt(inp, extra, |inp.periods|, t);
    }

    static method BuildBalanceSheet(inp: Inputs, re: seq<real>) returns (rows: seq<BalanceRow>)
      requires |re| == |inp.periods| + 1
      requires forall n: nat | n <= |inp.periods| :: re[n] == EquityAfter(inp, NoExtra(inp), n)
      ensures rows == BalanceTo(inp, NoCumul(inp), |inp.periods|)
    {
      rows := [];
      for t := 0 to |inp.periods|
        invariant rows == BalanceTo(inp, NoCumul(inp), t)
      {
        rows := rows + [BalanceRowFrom(inp.periods[t], 0.0, re[t + 1])];
      }
    }

    static method BuildCashFlow(inp: Inputs, isRows: seq<IncomeRow>, bsRows: seq<BalanceRow>) returns (rows: seq<CashRow>)
      requires isRows == IncomeTo(inp, NoExtra(inp), |inp.periods|)
      requires bsRows == BalanceTo(inp, NoCumul(inp), |inp.periods|)
      ensures rows == CashFlowTo(inp, NoCumul(inp), |inp.periods|)
    {
      rows := [];
      for t := 0 to |inp.periods|
        invariant rows == CashFlowTo(inp, NoCumul(inp), t)
      {
        IncomeToAt(inp, NoExtra(inp), |inp.periods|, t);
        BalanceToAt(inp, NoCumul(inp), |inp.periods|, t);
        var opening := OpeningFrom(inp, NoCumul(inp), bsRows, t);
        var row := CashRowFrom(inp.periods[t], Before(inp, t), isRows[t].netIncome, isRows[t].dividends, opening,
                               bsRows[t].cash);
        if Abs(row.closingCash - (row.openingCash + row.netCf)) > 0.01 {
          assert false;
        }
        rows := rows + [row];
      }
    }

    // ----- The waterfall loop -----

    /** Passes the waterfall over the statements until it settles, at most five times. */
    method ApplyWaterfallLoop(plan: Plan)
      requires Show(plan.inp, NoCumul(plan.inp))
      modifies this
      ensures Show(plan.inp, LoopFrom(plan, NoCumul(plan.inp), MAX_PASSES))
    {
      var originalInterest := ScheduledInterest(plan.inp);
      RunPasses(plan, NoCumul(plan.inp), originalInterest, MAX_PASSES);
    }

    method RunPasses(plan: Plan, c0: Cumul, originalInterest: seq<real>, passes: nat)
      requires Show(plan.inp, c0) && originalInterest == InterestColumn(plan.inp)
      modifies this
      ensures Show(plan.inp, LoopFrom(plan, c0, passes))
    {
      var c, left := c0, passes;
      while left > 0
        invariant Show(plan.inp, c)
        invariant LoopFrom(plan, c0, passes) == LoopFrom(plan, c, left)
      {
        var setup := ReadSetup(plan, c);
        var waterfall := ApplyFundingWaterfall(setup);
        if Settled(setup) {
          break;
        }
        var next := AddDebt(c, waterfall.rows);
        var rest := left - 1;
        LoopStep(plan, c, left, waterfall, next, rest);
        Recompute(plan.inp, c, originalInterest, next);
        c, left := next, rest;
      }
    }

    static lemma LoopStep(plan: Plan, c: Cumul, passes: nat, waterfall: WaterfallResult, next: Cumul, rest: nat)
      requires Fits(plan.inp, c) && passes == rest + 1 && !Settled(SetupOf(plan, c))
      requires waterfall == Waterfall(SetupOf(plan, c)) && next == AddDebt(c, waterfall.rows)
      ensures Fits(plan.inp, next)
      ensures LoopFrom(plan, c, passes) == LoopFrom(plan, next, rest)
    {
      assert next == NextCumul(plan, c);
      LoopUnfolds(plan, c, next, rest);
    }

    /** Income statement, balance sheet and cash flow for the new debt and interest. */
    method Recompute(inp: Inputs, ghost c: Cumul, originalInterest: seq<real>, next: Cumul)
      requires Show(inp, c) && Fits(inp, next) && originalInterest == InterestColumn(inp)
      modifies this
      ensures Show(inp, next)
    {
      RecomputeIncome(inp, c, originalInterest, next.interest);
      var re := AccumulateRe(inp, isList, next.interest);
      RecomputeBalance(inp, c, next, re);
      RecomputeCashFlow(inp, c, next);
    }

    /** Closing cash and assets as the balance sheet shows them. */
    method ReadSetup(plan: Plan, ghost c: Cumul) returns (setup: Setup)
      requires Show(plan.inp, c)
      ensures setup == SetupOf(plan, c) && Supported(setup)
    {
      var horizon := |bsList|;
      forall t: nat | t < horizon {
        BalanceToAt(plan.inp, c, horizon, t);
      }
      var sheet := bsList;
      var cash := seq(horizon, t requires 0 <= t < horizon => sheet[t].cash);
      var ar := seq(horizon, t requires 0 <= t < horizon => sheet[t].accountsReceivable);
      var inv := seq(horizon, t requires 0 <= t < horizon => sheet[t].inventory);
      assert cash == CashColumn(plan.inp, c);
      assert ar == seq(horizon, t requires 0 <= t < |plan.inp.periods| => plan.inp.periods[t].ar);
      assert inv == seq(horizon, t requires 0 <= t < |plan.inp.periods| => plan.inp.periods[t].inv);
      setup := Setup(cash, plan.plugs, plan.minimumCash, map[Receivables := ar, Inventory := inv]);
    }

    /** The interest expense before any waterfall pass. */
    method ScheduledInterest(inp: Inputs) returns (interest: seq<real>)
      requires Show(inp, NoCumul(inp))
      ensures interest == InterestColumn(inp)
    {
      var rows := isList;
      forall t: nat | t < |inp.periods| {
        IncomeToAt(inp, NoExtra(inp), |inp.periods|, t);
      }
      interest := seq(|rows|, t requires 0 <= t < |rows| => rows[t].interestExpense);
    }

    static function InterestColumn(inp: Inputs): seq<real> {
      seq(|inp.periods|, t requires 0 <= t < |inp.periods| => inp.periods[t].interest)
    }

    method RecomputeIncome(inp: Inputs, ghost c: Cumul, original: seq<real>, interest: seq<real>)
      requires Show(inp, c) && |interest| == |inp.periods| && original == InterestColumn(inp)
      modifies this`isList
      ensures isList == IncomeTo(inp, interest, |inp.periods|)
    {
      forall t: nat | t < |inp.periods| {
        IncomeToAt(inp, c.interest, |inp.periods|, t);
      }
      var rows := ReviseAll(inp, c, isList, original, interest);
      IncomeToIs(inp, interest, rows);
      isList := rows;
    }

    static method ReviseAll(inp: Inputs, ghost c: Cumul, was: seq<IncomeRow>, original: seq<real>, interest: seq<real>)
      returns (rows: seq<IncomeRow>)
      requires Fits(inp, c) && |interest| == |was| == |inp.periods| && original == InterestColumn(inp)
      requires forall u: nat | u < |was| :: was[u] == IncomeAt(inp, c.interest, u)
      ensures |rows| == |was| && forall u: nat | u < |rows| :: rows[u] == IncomeAt(inp, interest, u)
    {
      var nolBalance := 0.0;
      rows := was;
      for t := 0 to |was|
        invariant |rows| == |was|
        invariant nolBalance == NolAfter(inp.nolEnabled, Ebts(inp, interest), t)
        invariant forall u: nat | u < t :: rows[u] == IncomeAt(inp, interest, u)
        invariant forall u: nat | t <= u < |was| :: rows[u] == was[u]
      {
        var row := ReviseAt(inp, c, rows[t], original[t] + interest[t], interest, nolBalance, t);
        nolBalance := row.nolBalance;
        rows := rows[t := row];
      }
    }

    static method ReviseAt(inp: Inputs, ghost c: Cumul, was: IncomeRow, charged: real, ghost interest: seq<real>, nol: real,
                           ghost t: nat)
      returns (row: IncomeRow)
      requires Fits(inp, c) && t < |inp.periods| == |interest|
      requires was == IncomeAt(inp, c.interest, t) && charged == inp.periods[t].interest + interest[t]
      requires nol == NolAfter(inp.nolEnabled, Ebts(inp, interest), t)
      ensures row == IncomeAt(inp, interest, t)
      ensures row.nolBalance == NolAfter(inp.nolEnabled, Ebts(inp, interest), t + 1)
    {
      assert Ebts(inp, interest)[t] == Ebit(inp.periods[t]) - charged;
      row := ReviseIncome(inp, was, inp.periods[t], charged, nol, inp.periods[t].interest + c.interest[t],
                          TaxLineAt(inp.nolEnabled, Ebts(inp, c.interest), t));
    }

    /** One period's figures after a change of interest; ebit and the lines above it stay. */
    static method ReviseIncome(inp: Inputs, was: IncomeRow, ghost p: PeriodInput, interest: real, nol: real,
                               ghost interest0: real, ghost line0: TaxLine)
      returns (row: IncomeRow)
      requires was == IncomeRowFrom(inp, p, interest0, line0)
      ensures row == IncomeRowFrom(inp, p, interest, Offset(inp.nolEnabled, Ebit(p) - interest, nol))
    {
      var nolBalance := nol;
      var ebt := was.ebit - interest;
      var nolUsed := 0.0;
      if inp.nolEnabled && ebt > 0.0 && nolBalance > 0.0 {
        nolUsed := Min(nolBalance, ebt);
        nolBalance := nolBalance - nolUsed;
      }
      var taxable := Max(0.0, ebt - nolUsed);
      if inp.nolEnabled && ebt < 0.0 {
        nolBalance := nolBalance + Abs(ebt);
      }
      var tax := taxable * inp.taxRate;
      row := was.(interestExpense := interest, ebt := ebt, nolOffset := nolUsed, taxableIncome := taxable,
                  tax := tax, nolBalance := nolBalance, netIncome := ebt - tax);
      if inp.policy.PayoutRatio? {
        row := row.(dividends := Max(0.0, row.netIncome * ValueOr0(inp.policy.value)));
      }
    }

    static lemma IncomeToIs(inp: Inputs, extra: seq<real>, rows: seq<IncomeRow>)
      requires |extra| == |inp.periods| == |rows|
      requires forall u: nat | u < |rows| :: rows[u] == IncomeAt(inp, extra, u)
      ensures rows == IncomeTo(inp, extra, |inp.periods|)
    {
      forall u: nat | u < |rows|
        ensures rows[u] == IncomeTo(inp, extra, |inp.periods|)[u]
      {
        IncomeToAt(inp, extra, |inp.periods|, u);
      }
    }

    method RecomputeBalance(inp: Inputs, ghost c: Cumul, next: Cumul, re: seq<real>)
      requires Fits(inp, c) && Fits(inp, next) && bsList == BalanceTo(inp, c, |inp.periods|)
      requires |re| == |inp.periods| + 1
      requires forall n: nat | n <= |inp.periods| :: re[n] == EquityAfter(inp, next.interest, n)
      modifies this`bsList
      ensures bsList == BalanceTo(inp, next, |inp.periods|)
    {
      forall t: nat | t < |inp.periods| {
        BalanceToAt(inp, c, |inp.periods|, t);
      }
      var rows := bsList;
      for t := 0 to |inp.periods|
        invariant |rows| == |inp.periods|
        invariant forall u: nat | u < t :: rows[u] == BalanceAt(inp, next, u)
        invariant forall u: nat | t <= u < |inp.periods| :: rows[u] == BalanceAt(inp, c, u)
      {
        var row := ReviseBalance(inp, c, next, rows[t], re[t + 1], t);
        rows := rows[t := row];
      }
      bsList := rows;
      forall u: nat | u < |inp.periods|
        ensures rows[u] == BalanceTo(inp, next, |inp.periods|)[u]
      {
        BalanceToAt(inp, next, |inp.periods|, u);
      }
    }

    /** One period's balance sheet; assets other than cash and the scheduled debt lines stay. */
    static method ReviseBalance(inp: Inputs, ghost c: Cumul, next: Cumul, was: BalanceRow, equity: real, t: nat)
      returns (row: BalanceRow)
      requires Fits(inp, c) && Fits(inp, next) && t < |inp.periods|
      requires was == BalanceAt(inp, c, t) && equity == EquityAfter(inp, next.interest, t + 1)
      ensures row == BalanceAt(inp, next, t)
    {
      var p := inp.periods[t];
      var liab := p.ap + p.debtCurrent + p.debtNonCurrent + next.debt[t];
      var assets := p.ar + p.inv + (p.ppeGross - p.accDepr);
      var cash := liab + equity - assets;
      row := was.(cash := cash, totalLiabilities := liab, totalEquity := equity,
                  totalAssets := assets + cash, totalCurrentAssets := cash + p.ar + p.inv,
                  totalLiabilitiesEquity := liab + equity);
    }

    method RecomputeCashFlow(inp: Inputs, ghost c: Cumul, ghost next: Cumul)
      requires Fits(inp, c) && Fits(inp, next)
      requires isList == IncomeTo(inp, next.interest, |inp.periods|)
      requires bsList == BalanceTo(inp, next, |inp.periods|)
      requires cfList == CashFlowTo(inp, c, |inp.periods|)
      modifies this`cfList
      ensures cfList == CashFlowTo(inp, next, |inp.periods|)
    {
      forall t: nat | t < |inp.periods| {
        CashFlowToAt(inp, c, |inp.periods|, t);
      }
      var flows, sheet, income := cfList, bsList, isList;
      for t := 0 to |inp.periods|
        invariant |flows| == |inp.periods|
        invariant forall u: nat | u < t :: flows[u] == CashFlowAt(inp, next, u)
        invariant forall u: nat | t <= u < |inp.periods| :: flows[u] == CashFlowAt(inp, c, u)
      {
        IncomeToAt(inp, next.interest, |inp.periods|, t);
        BalanceToAt(inp, next, |inp.periods|, t);
        var opening := OpeningFrom(inp, next, sheet, t);
        var row := ReviseCash(inp, c, next, flows[t], income[t].netIncome, opening, sheet[t].cash, t);
        flows := flows[t := row];
      }
      cfList := flows;
      forall u: nat | u < |inp.periods|
        ensures flows[u] == CashFlowTo(inp, next, |inp.periods|)[u]
      {
        CashFlowToAt(inp, next, |inp.periods|, u);
      }
    }

    static method OpeningFrom(inp: Inputs, ghost c: Cumul, sheet: seq<BalanceRow>, t: nat) returns (opening: real)
      requires Fits(inp, c) && t < |inp.periods| && sheet == BalanceTo(inp, c, |inp.periods|)
      ensures opening == OpeningCash(inp, c, t)
    {
      if t == 0 {
        return inp.initialCash;
      }
      BalanceToAt(inp, c, |inp.periods|, t - 1);
      return sheet[t - 1].cash;
    }

    /** One period's flows; scheduled draws, dividends and equity lines stay. */
    static method ReviseCash(inp: Inputs, ghost c: Cumul, ghost next: Cumul, was: CashRow, netIncome: real, opening: real,
                             closing: real, t: nat)
      returns (row: CashRow)
      requires Fits(inp, c) && Fits(inp, next) && t < |inp.periods|
      requires was == CashFlowAt(inp, c, t)
      requires netIncome == IncomeAt(inp, next.interest, t).netIncome
      requires opening == OpeningCash(inp, next, t) && closing == CashAt(inp, next, t)
      ensures row == CashFlowAt(inp, next, t)
    {
      var p, prev := inp.periods[t], Before(inp, t);
      var operating := Operating(p, prev, netIncome);
      var investing := Investing(p, prev);
      var financing := closing - opening - operating - investing;
      row := was.(operating := operating, financing := financing, closingCash := closing,
                  openingCash := opening, netCf := operating + investing + financing);
    }
  }
}
