/** When the waterfall loop leaves the dividends line of the cash flow statement stale
    (statements.py). */
module StaleDividends {
  import opened Facilities
  import opened FundingWaterfall
  import opened InterestEffects
  import opened Passes
  import opened PlugDebts
  import opened PlugLimits
  import opened RealArith
  import opened Runs
  import opened Sequences
  import opened StatementRows
  import opened WaterfallPasses
  import opened Wrappers

  /** Every facility charges interest. */
  predicate AllCharge(plugs: seq<DebtFacility>) {
    forall f | f in plugs :: f.interestRate > 0.0
  }

  /** What the loop leaves accumulated. */
  function Final(plan: Plan): (c: Cumul)
    ensures Fits(plan.inp, c)
  {
    LoopFrom(plan, NoCumul(plan.inp), MAX_PASSES)
  }

  // ----- Interest is charged where debt is owed -----

  lemma RunInterestIffDebt(s: Setup, n: nat)
    requires UniqueIds(s.facilities) && AllCharge(s.facilities) && n <= |s.closingCash|
    ensures SumOver(s.facilities, FacilityInterest(After(s, n))) >= 0.0
    ensures SumOver(s.facilities, FacilityInterest(After(s, n))) > 0.0 <==> DebtAfter(s, n) > 0.0
  {
    var charged := FacilityInterest(After(s, n));
    BalancesStayWithinLimits(s, n);
    NoDebtMeansNoBalances(s, n);
    forall f | f in s.facilities
      ensures charged(f) >= 0.0 && (charged(f) == 0.0 <==> Bal(After(s, n), f.facilityId) == 0.0)
    {
      InterestSign(f, Bal(After(s, n), f.facilityId));
    }
    SumOverZero(s.facilities, charged);
    SumOverNonNegative(s.facilities, charged);
  }

  /** Neither is negative, and interest is charged exactly where debt is owed. */
  predicate ChargedIffOwed(c: Cumul, t: nat) {
    t < |c.debt| == |c.interest| && 0.0 <= c.debt[t] && 0.0 <= c.interest[t] && (c.interest[t] > 0.0 <==> c.debt[t] > 0.0)
  }

  lemma PassChargesIffOwed(plan: Plan, c: Cumul, t: nat)
    requires Fits(plan.inp, c) && UniqueIds(plan.plugs) && AllCharge(plan.plugs) && ChargedIffOwed(c, t)
    ensures ChargedIffOwed(NextCumul(plan, c), t)
  {
    PassCharges(plan, c, t);
    PassRaisesDebt(plan, c, t);
    RunInterestIffDebt(SetupOf(plan, c), t + 1);
    BalancesStayWithinLimits(SetupOf(plan, c), t + 1);
  }

  function OwedIn(inp: Inputs, t: nat): Cumul -> bool {
    (c: Cumul) => Fits(inp, c) && ChargedIffOwed(c, t)
  }

  lemma LoopChargesIffOwed(plan: Plan, t: nat)
    requires UniqueIds(plan.plugs) && AllCharge(plan.plugs) && t < |plan.inp.periods|
    ensures ChargedIffOwed(Final(plan), t)
  {
    forall c
      ensures KeptFrom(PassOf(plan), StopOf(plan), OwedIn(plan.inp, t), c)
    {
      if OwedIn(plan.inp, t)(c) {
        PassChargesIffOwed(plan, c, t);
      }
    }
    RepeatKeeps(PassOf(plan), StopOf(plan), OwedIn(plan.inp, t), NoCumul(plan.inp), MAX_PASSES);
  }

  lemma FinalInterest(plan: Plan)
    requires UniqueIds(plan.plugs) && AllCharge(plan.plugs)
    ensures NoNegativeInterest(Final(plan))
    ensures forall t: nat | t < |plan.inp.periods| :: Final(plan).interest[t] > 0.0 <==> PlugDebt(plan, t) > 0.0
  {
    forall t: nat | t < |plan.inp.periods|
      ensures Final(plan).interest[t] >= 0.0 && (Final(plan).interest[t] > 0.0 <==> PlugDebt(plan, t) > 0.0)
    {
      LoopChargesIffOwed(plan, t);
    }
  }

  // ----- Periods with ample cash -----

  /** A month's interest on everything the facilities lend together. */
  function FullCharge(plan: Plan, rate: real): real {
    Share(rate / 12.0, TotalLimit(plan.plugs))
  }

  /** The first build has cash in period u for the minimum, for repaying all that can be lent, and for
      interest of i in every period up to it. */
  predicate Ample(plan: Plan, u: nat, i: real)
    requires u < |plan.inp.periods|
  {
    FirstCash(plan, u) >= plan.minimumCash + TotalLimit(plan.plugs) + Share(i, (u + 1) as real)
  }

  /** Nothing owed and nothing charged in period u, and at most i charged in any. */
  ghost predicate ClearIn(plan: Plan, c: Cumul, u: nat, i: real) {
    && Fits(plan.inp, c) && u < |plan.inp.periods|
    && c.debt[u] == 0.0 && c.interest[u] == 0.0
    && Charges(plan.inp, NoExtra(plan.inp), c.interest, i)
  }

  lemma AmpleCash(plan: Plan, c: Cumul, u: nat, i: real)
    requires ClearIn(plan, c, u, i) && i >= 0.0 && Steady(plan.inp) && Ample(plan, u, i)
    ensures CashAt(plan.inp, c, u) >= plan.minimumCash + TotalLimit(plan.plugs)
  {
    CashHolds(plan.inp, NoCumul(plan.inp), c, i, u);
  }

  lemma PooledDebtRepaid(cash: seq<real>, minimumCash: real, limit: real, t: nat)
    requires t < |cash| && limit >= 0.0 && cash[t] >= minimumCash + limit
    ensures PooledDebt(cash, minimumCash, limit, t + 1) == 0.0
  {
    PooledDebtSign(cash, minimumCash, limit, t);
  }

  lemma AmplePass(plan: Plan, c: Cumul, u: nat, i: real, rate: real)
    requires ClearIn(plan, c, u, i) && i >= 0.0 && Steady(plan.inp) && Ample(plan, u, i) && Bounded(plan, rate)
    ensures ClearIn(plan, NextCumul(plan, c), u, i + FullCharge(plan, rate))
  {
    AmpleCash(plan, c, u, i);
    TotalLimitNonNegative(plan.plugs);
    PooledDebtRepaid(CashColumn(plan.inp, c), plan.minimumCash, TotalLimit(plan.plugs), u);
    PassIsPooled(plan, c, u);
    PassRaisesDebt(plan, c, u);
    InterestOnBalances(plan, c, u);
    PassInterestWithin(plan, c, u, rate, 0.0);
    PassChargesAtMost(plan, c, rate);
  }

  lemma PassChargesAtMost(plan: Plan, c: Cumul, rate: real)
    requires Fits(plan.inp, c) && Bounded(plan, rate)
    ensures Charges(plan.inp, c.interest, NextCumul(plan, c).interest, FullCharge(plan, rate))
  {
    forall t: nat | t < |plan.inp.periods|
      ensures PassDebt(plan, c, t) <= TotalLimit(plan.plugs)
    {
      BalancesStayWithinLimits(SetupOf(plan, c), t + 1);
    }
    PassCharge(plan, c, rate, TotalLimit(plan.plugs));
  }

  lemma ShareOfMore(x: real, y: real, z: real)
    requires x <= y && z >= 0.0
    ensures Share(x, z) <= Share(y, z)
  {
    MulMono(x, y, z);
  }

  lemma AmpleLess(plan: Plan, u: nat, i: real, most: real)
    requires u < |plan.inp.periods| && i <= most && Ample(plan, u, most)
    ensures Ample(plan, u, i)
  {
    ShareOfMore(i, most, (u + 1) as real);
  }

  lemma {:induction false} AmplePasses(plan: Plan, c: Cumul, u: nat, i: real, rate: real, passes: nat, most: real)
    requires ClearIn(plan, c, u, i) && i >= 0.0 && Steady(plan.inp) && Bounded(plan, rate)
    requires Ample(plan, u, most) && most == i + Manyfold(passes, FullCharge(plan, rate))
    ensures ClearIn(plan, LoopFrom(plan, c, passes), u, most)
    decreases passes
  {
    var charge := FullCharge(plan, rate);
    TotalLimitNonNegative(plan.plugs);
    ShareSign(rate / 12.0, TotalLimit(plan.plugs));
    ManyfoldSign(passes, charge);
    if passes > 0 && Settled(SetupOf(plan, c)) {
      LoopStops(plan, c, passes);
    } else if passes > 0 {
      AmpleLess(plan, u, i, most);
      AmplePass(plan, c, u, i, rate);
      OneMore(passes - 1, charge);
      AmplePasses(plan, NextCumul(plan, c), u, i + charge, rate, passes - 1, most);
      LoopUnfolds(plan, c, NextCumul(plan, c), passes - 1);
    }
  }

  /** All the interest five passes can charge in a period. */
  function MostCharged(plan: Plan, rate: real): real {
    Manyfold(MAX_PASSES, FullCharge(plan, rate))
  }

  /** Where the first build has ample cash the loop leaves neither plug debt nor interest. */
  lemma AmplePeriodStaysClear(plan: Plan, u: nat, rate: real)
    requires u < |plan.inp.periods| && Steady(plan.inp) && Bounded(plan, rate) && Ample(plan, u, MostCharged(plan, rate))
    ensures ClearIn(plan, Final(plan), u, MostCharged(plan, rate))
  {
    AmplePasses(plan, NoCumul(plan.inp), u, 0.0, rate, MAX_PASSES, MostCharged(plan, rate));
  }

  // ----- The statements the loop leaves -----

  /** Without carry-forward: the periods with plug debt in which a positive payout ratio met a profit
      not wholly taxed away, or a negative one meets a loss. */
  lemma LoopLeavesStale(plan: Plan, t: nat)
    requires UniqueIds(plan.plugs) && AllCharge(plan.plugs) && t < |plan.inp.periods|
    requires 0.0 <= plan.inp.taxRate <= 1.0 && !plan.inp.nolEnabled
    ensures Stale(plan.inp, Final(plan), t) <==>
            && plan.inp.policy.PayoutRatio?
            && PlugDebt(plan, t) > 0.0
            && var w, ebt := ValueOr0(plan.inp.policy.value), EbtAt(plan.inp, NoExtra(plan.inp), t);
               (w > 0.0 && ebt > 0.0 && plan.inp.taxRate < 1.0) || (w < 0.0 && ebt < Final(plan).interest[t])
  {
    FinalInterest(plan);
    DividendsLineIsStale(plan.inp, Final(plan), t);
  }

  /** What the first pass leaves owed stays owed. */
  lemma FirstDebtStays(plan: Plan, t: nat)
    requires UniqueIds(plan.plugs) && t < |plan.inp.periods| && DebtAfter(SetupOf(plan, NoCumul(plan.inp)), t + 1) > 0.0
    ensures PlugDebt(plan, t) > 0.0
  {
    var c0 := NoCumul(plan.inp);
    AskingIsNotSettled(SetupOf(plan, c0), t);
    PassRaisesDebt(plan, c0, t);
    LoopUnfolds(plan, c0, NextCumul(plan, c0), MAX_PASSES - 1);
    LoopDebtBound(plan, NextCumul(plan, c0), MAX_PASSES - 1, t);
  }

  lemma AskedForIsOwed(plan: Plan, t: nat)
    requires UniqueIds(plan.plugs) && Unbound(plan) && t < |plan.inp.periods| && AskedFor(plan, t + 1) > 0.0
    ensures PlugDebt(plan, t) > 0.0
  {
    PassIsPooled(plan, NoCumul(plan.inp), t);
    FirstDebtStays(plan, t);
  }

  lemma AskingIsNotSettled(s: Setup, t: nat)
    requires UniqueIds(s.facilities) && t < |s.closingCash| && DebtAfter(s, t + 1) > 0.0
    ensures !Settled(s)
  {
    SettledIffFunded(s);
    if Settled(s) {
      FundedMeansNoDebt(s, t + 1);
      assert false;
    }
  }

  lemma OwedInSomePeriod(plan: Plan) returns (t: nat)
    requires UniqueIds(plan.plugs)
    requires exists t: nat :: t < |plan.inp.periods| && !FundedAt(plan, NoCumul(plan.inp), t)
    ensures t < |plan.inp.periods| && PlugDebt(plan, t) > 0.0
  {
    var c0 := NoCumul(plan.inp);
    var u: nat :| u < |plan.inp.periods| && !FundedAt(plan, c0, u);
    t := FirstOwed(SetupOf(plan, c0), u);
    FirstDebtStays(plan, t);
  }

  lemma FundedLeavesNothing(plan: Plan)
    requires UniqueIds(plan.plugs) && forall t: nat | t < |plan.inp.periods| :: FundedAt(plan, NoCumul(plan.inp), t)
    ensures Final(plan) == NoCumul(plan.inp)
  {
    SettledMeansFunded(plan, NoCumul(plan.inp));
    LoopStops(plan, NoCumul(plan.inp), MAX_PASSES);
  }

  /** Without carry-forward, a positive payout ratio and in every period a profit not wholly taxed away:
      no period is left stale exactly when every period of the first build is funded. */
  lemma NoneStaleIffFunded(plan: Plan)
    requires UniqueIds(plan.plugs) && AllCharge(plan.plugs)
    requires 0.0 <= plan.inp.taxRate < 1.0 && !plan.inp.nolEnabled
    requires plan.inp.policy.PayoutRatio? && ValueOr0(plan.inp.policy.value) > 0.0
    requires forall t: nat | t < |plan.inp.periods| :: EbtAt(plan.inp, NoExtra(plan.inp), t) > 0.0
    ensures (forall t: nat | t < |plan.inp.periods| :: !Stale(plan.inp, Final(plan), t))
       <==> forall t: nat | t < |plan.inp.periods| :: FundedAt(plan, NoCumul(plan.inp), t)
  {
    forall t: nat | t < |plan.inp.periods|
      ensures Stale(plan.inp, Final(plan), t) <==> PlugDebt(plan, t) > 0.0
    {
      LoopLeavesStale(plan, t);
    }
    if forall t: nat | t < |plan.inp.periods| :: FundedAt(plan, NoCumul(plan.inp), t) {
      FundedLeavesNothing(plan);
    } else {
      var t := OwedInSomePeriod(plan);
    }
  }

  /** What can be told from the first build: a positive payout ratio, a profit not wholly taxed away
      and a shortfall that asks for plug debt make the line stale. */
  lemma StaleFromTheStart(plan: Plan, t: nat)
    requires UniqueIds(plan.plugs) && AllCharge(plan.plugs) && Unbound(plan) && t < |plan.inp.periods|
    requires 0.0 <= plan.inp.taxRate < 1.0 && !plan.inp.nolEnabled
    requires plan.inp.policy.PayoutRatio? && ValueOr0(plan.inp.policy.value) > 0.0
    requires EbtAt(plan.inp, NoExtra(plan.inp), t) > 0.0 && AskedFor(plan, t + 1) > 0.0
    ensures Stale(plan.inp, Final(plan), t)
  {
    AskedForIsOwed(plan, t);
    LoopLeavesStale(plan, t);
  }
}
