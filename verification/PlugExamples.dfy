/** Concrete plans in which repeated waterfall passes overdraw, or leave the dividends line stale
    (statements.py). */
module PlugExamples {
  import opened Facilities
  import opened FundingWaterfall
  import opened IncomeTax
  import opened InterestEffects
  import opened PlugDebts
  import opened PlugLimits
  import opened RealArith
  import opened Sequences
  import opened StaleDividends
  import opened StatementRows
  import opened WaterfallPasses
  import opened Wrappers

  /** The one period and the one plug facility of the examples. */
  ghost predicate OnePeriod(plan: Plan, p: PeriodInput, limit: real, rate: real) {
    && plan.inp.periods == [p]
    && limit > 0.0 && 0.0 <= rate <= 1.0
    && plan.plugs == [FacilityRecord(FacilityId("od"), Overdraft, limit, rate, [], [], true, 0.0, 0, None, None, 1.0)]
  }

  lemma OneOverdraft(plan: Plan, p: PeriodInput, limit: real, rate: real)
    requires OnePeriod(plan, p, limit, rate)
    ensures UniqueIds(plan.plugs) && Unbound(plan)
    ensures TotalLimit(plan.plugs) == limit == Lendable(SetupOf(plan, NoCumul(plan.inp)), 0)
  {
    SumOverOne(plan.plugs[0], LIMIT);
    LendableIsLimit(SetupOf(plan, NoCumul(plan.inp)), 0);
  }

  /** One pass over the one period, from statements with the given cash. */
  lemma OnePass(plan: Plan, c: Cumul, p: PeriodInput, limit: real, rate: real, cash: real)
    requires OnePeriod(plan, p, limit, rate) && Fits(plan.inp, c) && CashAt(plan.inp, c, 0) == cash
    ensures var next, drawn := NextCumul(plan, c), Clamp(plan.minimumCash - cash, 0.0, limit);
            && next.debt[0] == c.debt[0] + drawn
            && next.interest[0] == c.interest[0] + MonthlyInterest(plan.plugs[0], drawn)
  {
    var f, s := plan.plugs[0], SetupOf(plan, c);
    OneOverdraft(plan, p, limit, rate);
    PassIsPooled(plan, c, 0);
    PassRaisesDebt(plan, c, 0);
    PassCharges(plan, c, 0);
    SumOverOne(f, FacilityInterest(After(s, 1)));
    SumOverOne(f, OnBalance(After(s, 1)));
    PooledOnce(CashColumn(plan.inp, c), plan.minimumCash, limit);
    InterestSign(f, 0.0);
  }

  lemma PooledOnce(cash: seq<real>, minimumCash: real, limit: real)
    requires |cash| == 1
    ensures PooledDebt(cash, minimumCash, limit, 1) == Clamp(minimumCash - cash[0], 0.0, limit)
  {
    assert PooledDebt(cash, minimumCash, limit, 0) == 0.0;
  }

  /** Closing cash of the one period, from its net income. */
  lemma OnePeriodCash(inp: Inputs, c: Cumul, p: PeriodInput, netIncome: real)
    requires inp.periods == [p] && Fits(inp, c) && NetLine(inp, c.interest)[0] == netIncome
    ensures CashAt(inp, c, 0)
         == Liabilities(p, c.debt[0]) + inp.initialEquity + Kept(inp.policy, netIncome) + p.equityRaise - AssetsExCash(p)
  {
    NetLineAt(inp, c.interest, 0);
    assert EquityAfter(inp, c.interest, 0) == inp.initialEquity;
  }

  lemma UntaxedNetIncome(inp: Inputs, extra: seq<real>, t: nat)
    requires t < |inp.periods| == |extra| && inp.taxRate == 0.0
    ensures NetLine(inp, extra)[t] == EbtAt(inp, extra, t)
  {
  }

  /** Untaxed, nothing paid out, and a loss. */
  ghost predicate Loss(inp: Inputs, loss: real) {
    && inp.periods == [NOTHING.(cogs := loss)] && loss >= 0.0
    && inp.taxRate == 0.0 && inp.policy == NoDividends && inp.initialEquity == 0.0
  }

  lemma LossCash(inp: Inputs, loss: real, c: Cumul)
    requires Loss(inp, loss) && Fits(inp, c)
    ensures CashAt(inp, c, 0) == c.debt[0] - loss - c.interest[0]
  {
    UntaxedNetIncome(inp, c.interest, 0);
    OnePeriodCash(inp, c, inp.periods[0], -loss - c.interest[0]);
  }

  /** A loss beyond the limit of the only overdraft leaves more than the limit drawn on it, at any
      rate. */
  lemma OverdrawnExample(plan: Plan, loss: real, limit: real, rate: real)
    requires OnePeriod(plan, NOTHING.(cogs := loss), limit, rate) && Loss(plan.inp, loss)
    requires limit < loss && plan.minimumCash > 0.0
    ensures TotalLimit(plan.plugs) == limit < PlugDebt(plan, 0)
  {
    OneOverdraft(plan, plan.inp.periods[0], limit, rate);
    LossCash(plan.inp, loss, NoCumul(plan.inp));
    SecondPassOverdraws(plan, 0);
  }

  /** With interest a limit that just covers the shortfall is not enough: a second pass borrows for
      the interest of the first. */
  lemma InterestOverdrawsExample(plan: Plan, loss: real, limit: real, rate: real)
    requires OnePeriod(plan, NOTHING.(cogs := loss), limit, rate) && Loss(plan.inp, loss) && rate > 0.0
    requires plan.minimumCash == limit - loss
    ensures LimitsSuffice(plan)
    ensures TotalLimit(plan.plugs) == limit < PlugDebt(plan, 0)
  {
    var c0, p := NoCumul(plan.inp), plan.inp.periods[0];
    var c1 := NextCumul(plan, c0);
    OneOverdraft(plan, p, limit, rate);
    LossCash(plan.inp, loss, c0);
    OnePass(plan, c0, p, limit, rate, -loss);
    InterestSign(plan.plugs[0], limit);
    LossCash(plan.inp, loss, c1);
    LinksAreTheSame(plan, c1, 0);
    NotYetSettled(plan, c0, 0);
    NotYetSettled(plan, c1, 0);
    ShortPassAdds(plan, c1, 0);
    TwoPasses(plan, c0, c1, NextCumul(plan, c1), 0);
  }

  // ----- How far the passes can go -----

  /** A further pass over a short period without interest. */
  lemma FreePassOver(plan: Plan, c: Cumul, p: PeriodInput, limit: real)
    requires OnePeriod(plan, p, limit, 0.0) && Fits(plan.inp, c) && CashAt(plan.inp, c, 0) < plan.minimumCash
    ensures var next, drawn := NextCumul(plan, c), Min(limit, plan.minimumCash - CashAt(plan.inp, c, 0));
            && !Settled(SetupOf(plan, c))
            && next.debt[0] == c.debt[0] + drawn
            && CashAt(plan.inp, next, 0) == CashAt(plan.inp, c, 0) + drawn
  {
    OneOverdraft(plan, p, limit, 0.0);
    LinksAreTheSame(plan, c, 0);
    NotYetSettled(plan, c, 0);
    OnePass(plan, c, p, limit, 0.0, CashAt(plan.inp, c, 0));
    FreePass(plan, c);
    PassAdds(plan, c, 0);
    PassMovesCash(plan, c, 0);
  }

  lemma ClampedInTurns(short: real, limit: real, k: nat)
    requires short > 0.0 && limit > 0.0
    ensures Clamp(short, 0.0, Manyfold(k + 1, limit))
         == Min(limit, short) + Clamp(short - Min(limit, short), 0.0, Manyfold(k, limit))
  {
    OneMore(k, limit);
    ManyfoldSign(k, limit);
  }

  lemma {:induction false} FreePassesAdd(plan: Plan, c: Cumul, p: PeriodInput, limit: real, passes: nat)
    requires OnePeriod(plan, p, limit, 0.0) && Fits(plan.inp, c)
    ensures LoopFrom(plan, c, passes).debt[0]
         == c.debt[0] + Clamp(plan.minimumCash - CashAt(plan.inp, c, 0), 0.0, Manyfold(passes, limit))
    decreases passes
  {
    ManyfoldSign(passes, limit);
    if CashAt(plan.inp, c, 0) >= plan.minimumCash {
      OneOverdraft(plan, p, limit, 0.0);
      SettledMeansFunded(plan, c);
      LoopStops(plan, c, passes);
    } else if passes > 0 {
      FreePassOver(plan, c, p, limit);
      FreePassesAdd(plan, NextCumul(plan, c), p, limit, passes - 1);
      LoopUnfolds(plan, c, NextCumul(plan, c), passes - 1);
      ClampedInTurns(plan.minimumCash - CashAt(plan.inp, c, 0), limit, passes - 1);
    }
  }

  /** One period and one overdraft without interest, whatever the statements: plug debt is the
      shortfall of the first build, up to five times the limit. */
  lemma FiveTimesTheLimit(plan: Plan, p: PeriodInput, limit: real)
    requires OnePeriod(plan, p, limit, 0.0)
    ensures TotalLimit(plan.plugs) == limit
    ensures PlugDebt(plan, 0) == Clamp(plan.minimumCash - FirstCash(plan, 0), 0.0, 5.0 * limit)
    ensures FirstCash(plan, 0) + 5.0 * limit <= plan.minimumCash ==> PlugDebt(plan, 0) == 5.0 * TotalLimit(plan.plugs)
  {
    OneOverdraft(plan, p, limit, 0.0);
    FreePassesAdd(plan, NoCumul(plan.inp), p, limit, MAX_PASSES);
  }

  // ----- Payouts beyond the profit -----

  /** Untaxed, and a profit of which the ratio w, above one, is paid out. */
  ghost predicate Overpaid(inp: Inputs, profit: real, w: real) {
    && inp.periods == [NOTHING.(revenue := profit)]
    && inp.taxRate == 0.0 && inp.policy == PayoutRatio(Some(w)) && w > 1.0
  }

  lemma OverpaidKept(w: real, netIncome: real)
    requires netIncome >= 0.0 && w > 1.0
    ensures Kept(PayoutRatio(Some(w)), netIncome) == -Share(w - 1.0, netIncome)
  {
    PayoutIs(w, netIncome);
    SplitProduct(w, 1.0, netIncome);
  }

  lemma OverpaidCash(inp: Inputs, c: Cumul, profit: real, w: real, interest: real)
    requires Overpaid(inp, profit, w) && Fits(inp, c) && c.interest[0] == interest <= profit
    ensures CashAt(inp, c, 0) == c.debt[0] + inp.initialEquity - Share(w - 1.0, profit - interest)
  {
    UntaxedNetIncome(inp, c.interest, 0);
    OverpaidKept(w, profit - interest);
    OnePeriodCash(inp, c, inp.periods[0], profit - interest);
  }

  lemma OverpaidPass(plan: Plan, p: PeriodInput, limit: real, rate: real, profit: real, w: real, interest: real)
    requires OnePeriod(plan, p, limit, rate) && Overpaid(plan.inp, profit, w)
    requires interest == MonthlyInterest(plan.plugs[0], limit) <= profit && interest >= 0.0
    requires FirstCash(plan, 0) + limit < plan.minimumCash
    ensures var c1 := NextCumul(plan, NoCumul(plan.inp));
            c1.debt[0] == limit && CashAt(plan.inp, c1, 0) == FirstCash(plan, 0) + limit + Share(w - 1.0, interest)
  {
    OnePass(plan, NoCumul(plan.inp), p, limit, rate, FirstCash(plan, 0));
    OverpaidCash(plan.inp, NoCumul(plan.inp), profit, w, 0.0);
    OverpaidCash(plan.inp, NextCumul(plan, NoCumul(plan.inp)), profit, w, interest);
    ShareOfSum(w - 1.0, profit - interest, interest);
  }

  lemma OnePassOnly(plan: Plan, t: nat)
    requires UniqueIds(plan.plugs) && t < |plan.inp.periods| == 1
    requires FirstCash(plan, 0) < plan.minimumCash && Lendable(SetupOf(plan, NoCumul(plan.inp)), 0) > 0.0
    requires CashAt(plan.inp, NextCumul(plan, NoCumul(plan.inp)), 0) >= plan.minimumCash
    ensures PlugDebt(plan, t) == NextCumul(plan, NoCumul(plan.inp)).debt[t]
  {
    var c0 := NoCumul(plan.inp);
    NotYetSettled(plan, c0, 0);
    SettledMeansFunded(plan, NextCumul(plan, c0));
    LoopUnfolds(plan, c0, NextCumul(plan, c0), MAX_PASSES - 1);
    LoopStops(plan, NextCumul(plan, c0), MAX_PASSES - 1);
  }

  /** Whatever ratio above one is paid out, interest then saves cash, and a shortfall beyond the limit
      need not overdraw. */
  lemma ExcessPayoutExample(plan: Plan, limit: real, rate: real, profit: real, w: real, interest: real)
    requires OnePeriod(plan, NOTHING.(revenue := profit), limit, rate) && Overpaid(plan.inp, profit, w)
    requires 0.0 < interest == MonthlyInterest(plan.plugs[0], limit) <= profit
    requires plan.minimumCash == FirstCash(plan, 0) + limit + Share(w - 1.0, interest)
    ensures FirstCash(plan, 0) + TotalLimit(plan.plugs) < plan.minimumCash
    ensures PlugDebt(plan, 0) == TotalLimit(plan.plugs)
  {
    OneOverdraft(plan, plan.inp.periods[0], limit, rate);
    SharePositive(w - 1.0, interest);
    OverpaidPass(plan, plan.inp.periods[0], limit, rate, profit, w, interest);
    OnePassOnly(plan, 0);
  }

  // ----- A stale dividends line -----

  /** A profit whose customers have not paid yet, not wholly taxed away, and a payout ratio. */
  ghost predicate Uncollected(inp: Inputs, profit: real, ar: real, w: real) {
    && inp.periods == [NOTHING.(revenue := profit, ar := ar)] && 0.0 < profit <= ar
    && 0.0 <= inp.taxRate < 1.0 && !inp.nolEnabled
    && inp.policy == PayoutRatio(Some(w)) && w > 0.0 && inp.initialEquity == 0.0
  }

  lemma KeptWithinProfit(w: real, profit: real, rate: real)
    requires profit > 0.0 && 0.0 <= rate < 1.0
    ensures Kept(PayoutRatio(Some(w)), AfterTax(profit, rate)) <= profit
  {
    TaxOnLess(profit, profit, rate);
  }

  lemma UncollectedCash(inp: Inputs, profit: real, ar: real, w: real)
    requires Uncollected(inp, profit, ar, w)
    ensures CashAt(inp, NoCumul(inp), 0) <= 0.0
  {
    OwnEarningsOnly(inp, NoExtra(inp), 0);
    KeptWithinProfit(w, profit, inp.taxRate);
    OnePeriodCash(inp, NoCumul(inp), inp.periods[0], AfterTax(profit, inp.taxRate));
  }

  lemma OnePeriodAsks(plan: Plan, p: PeriodInput, limit: real, rate: real)
    requires OnePeriod(plan, p, limit, rate) && FirstCash(plan, 0) < plan.minimumCash
    ensures AskedFor(plan, 1) > 0.0
  {
    OneOverdraft(plan, p, limit, rate);
    PooledOnce(CashColumn(plan.inp, NoCumul(plan.inp)), plan.minimumCash, limit);
  }

  /** The loop leaves the cash flow statement with other dividends than the income statement. */
  lemma StaleDividendsExample(plan: Plan, limit: real, rate: real, profit: real, ar: real, w: real)
    requires OnePeriod(plan, NOTHING.(revenue := profit, ar := ar), limit, rate) && rate > 0.0
    requires Uncollected(plan.inp, profit, ar, w) && plan.minimumCash > 0.0
    ensures Stale(plan.inp, Final(plan), 0)
  {
    OneOverdraft(plan, plan.inp.periods[0], limit, rate);
    UncollectedCash(plan.inp, profit, ar, w);
    OnePeriodAsks(plan, plan.inp.periods[0], limit, rate);
    StaleFromTheStart(plan, 0);
  }

  /** Two periods, a loss and then a profit, with carry-forward and a payout ratio. */
  ghost predicate LossThenProfit(inp: Inputs, loss: real, profit: real, w: real) {
    && |inp.periods| == 2 && loss > 0.0
    && EbtAt(inp, NoExtra(inp), 0) == -loss && EbtAt(inp, NoExtra(inp), 1) == profit
    && 0.0 < inp.taxRate <= 1.0 && inp.nolEnabled && inp.policy == PayoutRatio(Some(w)) && w > 0.0
  }

  lemma CarriedLoss(ebts: seq<real>, loss: real)
    requires |ebts| == 2 && ebts[0] == -loss < 0.0
    ensures NolAfter(true, ebts, 1) == loss
  {
    assert NolAfter(true, ebts, 0) == 0.0;
  }

  /** A later profit is taxed after the loss; a larger loss spares it tax. */
  lemma LaterProfit(ebts: seq<real>, lower: seq<real>, loss: real, interest: real, rate: real)
    requires |ebts| == |lower| == 2 && ebts[0] == -loss < 0.0 && lower[0] == -loss - interest && ebts[1] == lower[1]
    requires interest > 0.0 && ebts[1] > loss + interest && 0.0 < rate <= 1.0
    ensures TaxSpared(true, ebts, lower, rate, 1) == Tax(interest, rate) > 0.0
    ensures NetIncomes(true, ebts, rate)[1] > 0.0
  {
    CarriedLoss(ebts, loss);
    CarriedLoss(lower, loss + interest);
    TaxOnLess(ebts[1] - loss, ebts[1] - loss, rate);
    MulPositive(interest, rate);
  }

  lemma CarriedInterest(inp: Inputs, c: Cumul, loss: real, profit: real, w: real, interest: real)
    requires LossThenProfit(inp, loss, profit, w) && Fits(inp, c) && c.interest == [interest, 0.0]
    requires interest > 0.0 && profit > loss + interest
    ensures Stale(inp, c, 1)
  {
    LaterProfit(Ebts(inp, NoExtra(inp)), Ebts(inp, c.interest), loss, interest, inp.taxRate);
    NetLineAt(inp, NoExtra(inp), 1);
    DividendsLineIsStaleIff(inp, c, 1);
  }

  /** A plan of two periods, short in the first and with ample cash in the second. */
  lemma BorrowedOnlyFirst(plan: Plan, rate: real) returns (c: Cumul)
    requires |plan.inp.periods| == 2 && Steady(plan.inp) && Bounded(plan, rate) && AllCharge(plan.plugs)
    requires FirstCash(plan, 0) < plan.minimumCash && TotalLimit(plan.plugs) > 0.0
    requires Ample(plan, 1, MostCharged(plan, rate))
    ensures c == Final(plan) && c.debt[1] == 0.0
    ensures c.interest == [c.interest[0], 0.0] && 0.0 < c.interest[0] <= MostCharged(plan, rate)
  {
    c := Final(plan);
    AmplePeriodStaysClear(plan, 1, rate);
    ChargedAtFirst(plan);
    LoneCharge(plan, c, MostCharged(plan, rate));
  }

  lemma LoneCharge(plan: Plan, c: Cumul, most: real)
    requires |plan.inp.periods| == 2 && ClearIn(plan, c, 1, most)
    ensures c.interest == [c.interest[0], 0.0] && c.interest[0] <= most
  {
    assert NoExtra(plan.inp)[0] == 0.0;
  }

  /** Being short in the first period leaves interest in it. */
  lemma ChargedAtFirst(plan: Plan)
    requires UniqueIds(plan.plugs) && AllCharge(plan.plugs) && Unbound(plan)
    requires |plan.inp.periods| > 0 && FirstCash(plan, 0) < plan.minimumCash && TotalLimit(plan.plugs) > 0.0
    ensures Final(plan).interest[0] > 0.0
  {
    assert AskedFor(plan, 0) == 0.0;
    AskedForIsOwed(plan, 0);
    FinalInterest(plan);
  }

  /** With carry-forward interest of an earlier period is enough: it spares tax in a later one. The
      loop over a loss that must be borrowed for and a profit that repays it leaves no interest in the
      second period, and its dividends line stale. */
  lemma CarriedInterestExample(plan: Plan, loss: real, profit: real, w: real, rate: real) returns (c: Cumul)
    requires LossThenProfit(plan.inp, loss, profit, w) && w <= 1.0 && Bounded(plan, rate) && AllCharge(plan.plugs)
    requires FirstCash(plan, 0) < plan.minimumCash && TotalLimit(plan.plugs) > 0.0
    requires Ample(plan, 1, MostCharged(plan, rate)) && profit > loss + MostCharged(plan, rate)
    ensures c == Final(plan) && c.interest[0] > 0.0 == c.interest[1] && c.debt[1] == 0.0
    ensures Stale(plan.inp, c, 1)
  {
    c := BorrowedOnlyFirst(plan, rate);
    CarriedInterest(plan.inp, c, loss, profit, w, c.interest[0]);
  }

  /** A period that leaves nothing but cash and equity, and raises none. */
  predicate Bare(p: PeriodInput) {
    AssetsExCash(p) == 0.0 && Liabilities(p, 0.0) == 0.0 && p.equityRaise == 0.0
  }

  /** A loss of 100 and then a profit of 1000, taxed and paid out by half, on no equity. */
  ghost predicate LossYear(inp: Inputs) {
    && LossThenProfit(inp, 100.0, 1000.0, 0.5)
    && Bare(inp.periods[0]) && Bare(inp.periods[1])
    && inp.taxRate == 0.5 && inp.initialEquity == 0.0
  }

  lemma HalfAndHalf(ebts: seq<real>)
    requires |ebts| == 2 && ebts[0] == -100.0 && ebts[1] == 1000.0
    ensures NetIncomes(true, ebts, 0.5)[0] == -100.0 && NetIncomes(true, ebts, 0.5)[1] == 550.0
  {
    CarriedLoss(ebts, 100.0);
    assert NolAfter(true, ebts, 0) == 0.0;
  }

  lemma NextCash(inp: Inputs, t: nat, netIncome: real)
    requires t < |inp.periods| && Bare(inp.periods[t]) && NetLine(inp, NoExtra(inp))[t] == netIncome
    ensures CashAt(inp, NoCumul(inp), t) == EquityAfter(inp, NoExtra(inp), t + 1)
         == EquityAfter(inp, NoExtra(inp), t) + Kept(inp.policy, netIncome)
  {
    NetLineAt(inp, NoExtra(inp), t);
  }

  lemma LossYearCash(inp: Inputs)
    requires LossYear(inp)
    ensures CashAt(inp, NoCumul(inp), 0) == -100.0 && CashAt(inp, NoCumul(inp), 1) == 175.0
  {
    HalfAndHalf(Ebts(inp, NoExtra(inp)));
    NextCash(inp, 0, -100.0);
    NextCash(inp, 1, 550.0);
    assert EquityAfter(inp, NoExtra(inp), 0) == inp.initialEquity;
  }

  lemma OnlyPlug(plan: Plan, f: DebtFacility)
    requires plan.plugs == [f] && f.limit == 120.0 && f.interestRate == 0.12 && f.assetLinked.None? && Steady(plan.inp)
    ensures Bounded(plan, 0.12) && AllCharge(plan.plugs) && TotalLimit(plan.plugs) == 120.0
    ensures MostCharged(plan, 0.12) == 6.0
  {
    SumOverOne(f, LIMIT);
    assert FullCharge(plan, 0.12) == 1.2;
  }

  /** Such a year, an overdraft of 120 at twelve percent and a minimum of 10. */
  lemma LossYearExample(plan: Plan, f: DebtFacility) returns (c: Cumul)
    requires LossYear(plan.inp) && plan.minimumCash == 10.0
    requires plan.plugs == [f] && f.limit == 120.0 && f.interestRate == 0.12 && f.assetLinked.None?
    ensures c == Final(plan) && c.interest[0] > 0.0 == c.interest[1] && Stale(plan.inp, c, 1)
  {
    LossYearCash(plan.inp);
    OnlyPlug(plan, f);
    c := CarriedInterestExample(plan, 100.0, 1000.0, 0.5, 0.12);
  }
}
