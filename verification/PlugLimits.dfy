/** When the plug debt that repeated passes leave stays within the facilities' limits
    (statements.py). */
module PlugLimits {
  import opened Facilities
  import opened FundingWaterfall
  import opened InterestEffects
  import opened Passes
  import opened PlugDebts
  import opened RealArith
  import opened Runs
  import opened Sequences
  import opened StatementRows
  import opened WaterfallPasses

  /** No facility charges interest. */
  predicate Free(plugs: seq<DebtFacility>) {
    forall f | f in plugs :: f.interestRate == 0.0
  }

  /** Tax at a rate between none and all, and no more paid out than earned. */
  predicate Prudent(inp: Inputs) {
    0.0 <= inp.taxRate <= 1.0 && PaysAtMostProfit(inp.policy)
  }

  /** Cash before any pass. */
  function FirstCash(plan: Plan, t: nat): real
    requires t < |plan.inp.periods|
  {
    CashAt(plan.inp, NoCumul(plan.inp), t)
  }

  /** No period's shortfall exceeds what the facilities could lend together. */
  predicate LimitsSuffice(plan: Plan) {
    TotalLimit(plan.plugs) == 0.0
    || forall t: nat | t < |plan.inp.periods| :: FirstCash(plan, t) + TotalLimit(plan.plugs) >= plan.minimumCash
  }

  /** No asset link binds in any period. */
  predicate Unbound(plan: Plan) {
    NoLinkBinds(SetupOf(plan, NoCumul(plan.inp)))
  }

  lemma LinksAreTheSame(plan: Plan, c: Cumul, t: nat)
    requires Fits(plan.inp, c)
    ensures LinksAreSlack(SetupOf(plan, c), t) <==> LinksAreSlack(SetupOf(plan, NoCumul(plan.inp)), t)
    ensures Lendable(SetupOf(plan, c), t) == Lendable(SetupOf(plan, NoCumul(plan.inp)), t)
  {
    var s, s0 := SetupOf(plan, c), SetupOf(plan, NoCumul(plan.inp));
    assert forall f :: EffectiveLimit(s, f, t) == EffectiveLimit(s0, f, t);
    SumOverSame(plan.plugs, OnLendable(s, t), OnLendable(s0, t));
  }

  // ----- Interest and equity over one pass -----

  lemma PassChargesMore(plan: Plan, c: Cumul)
    requires Fits(plan.inp, c) && UniqueIds(plan.plugs)
    ensures ChargesMore(plan.inp, c.interest, NextCumul(plan, c).interest)
  {
    forall t: nat | t < |plan.inp.periods| {
      InterestOnBalances(plan, c, t);
    }
  }

  lemma FreePass(plan: Plan, c: Cumul)
    requires Fits(plan.inp, c) && Free(plan.plugs)
    ensures NextCumul(plan, c).interest == c.interest
  {
    forall t: nat | t < |plan.inp.periods|
      ensures NextCumul(plan, c).interest[t] == c.interest[t]
    {
      PassCharges(plan, c, t);
      NoInterest(plan.plugs, After(SetupOf(plan, c), t + 1));
    }
  }

  lemma {:induction false} NoInterest(plugs: seq<DebtFacility>, balance: BalanceTable)
    requires Free(plugs)
    ensures SumOver(plugs, FacilityInterest(balance)) == 0.0
  {
    if plugs != [] {
      assert forall f | f in plugs[1..] :: f in plugs;
      NoInterest(plugs[1..], balance);
      var f := plugs[0];
      assert f in plugs;
      FreeOfInterest(f, Bal(balance, f.facilityId));
    }
  }

  lemma FreeOfInterest(f: DebtFacility, balance: real)
    requires f.interestRate == 0.0
    ensures MonthlyInterest(f, balance) == 0.0
  {
  }

  lemma EquityDoesNotRise(plan: Plan, c: Cumul, n: nat)
    requires Fits(plan.inp, c) && UniqueIds(plan.plugs) && n <= |plan.inp.periods|
    requires Free(plan.plugs) || Prudent(plan.inp)
    ensures EquityAfter(plan.inp, NextCumul(plan, c).interest, n) <= EquityAfter(plan.inp, c.interest, n)
  {
    if Free(plan.plugs) {
      FreePass(plan, c);
    } else {
      PassChargesMore(plan, c);
      EquityFalls(plan.inp, c.interest, NextCumul(plan, c).interest, n);
    }
  }

  // ----- A shortfall beyond the limits -----

  lemma NotYetSettled(plan: Plan, c: Cumul, t: nat)
    requires Fits(plan.inp, c) && UniqueIds(plan.plugs) && t < |plan.inp.periods|
    requires CashAt(plan.inp, c, t) < plan.minimumCash && Lendable(SetupOf(plan, c), t) > 0.0
    ensures !Settled(SetupOf(plan, c))
  {
    SettledMeansFunded(plan, c);
    SomethingLendable(SetupOf(plan, c), t);
    assert !FundedAt(plan, c, t);
  }

  lemma PassCashAtMost(plan: Plan, c: Cumul, t: nat)
    requires Fits(plan.inp, c) && UniqueIds(plan.plugs) && t < |plan.inp.periods|
    requires Free(plan.plugs) || Prudent(plan.inp)
    ensures CashAt(plan.inp, NextCumul(plan, c), t) <= CashAt(plan.inp, c, t) + DebtAfter(SetupOf(plan, c), t + 1)
  {
    PassMovesCash(plan, c, t);
    EquityDoesNotRise(plan, c, t + 1);
  }

  lemma FirstDebt(plan: Plan, t: nat)
    requires UniqueIds(plan.plugs) && t < |plan.inp.periods|
    ensures NextCumul(plan, NoCumul(plan.inp)).debt[t] == DebtAfter(SetupOf(plan, NoCumul(plan.inp)), t + 1)
  {
    PassAdds(plan, NoCumul(plan.inp), t);
  }

  /** The first pass draws all that may be lent and leaves period t short. */
  lemma FirstPassFills(plan: Plan, t: nat)
    requires UniqueIds(plan.plugs) && t < |plan.inp.periods| && (Free(plan.plugs) || Prudent(plan.inp))
    requires FirstCash(plan, t) + TotalLimit(plan.plugs) < plan.minimumCash
    ensures NextCumul(plan, NoCumul(plan.inp)).debt[t] >= Lendable(SetupOf(plan, NoCumul(plan.inp)), t)
    ensures CashAt(plan.inp, NextCumul(plan, NoCumul(plan.inp)), t) < plan.minimumCash
  {
    FirstDebt(plan, t);
    PassCashAtMost(plan, NoCumul(plan.inp), t);
    ShortPeriodFills(SetupOf(plan, NoCumul(plan.inp)), t);
  }

  /** A pass over a short period adds debt. */
  lemma ShortPassAdds(plan: Plan, c: Cumul, t: nat)
    requires Fits(plan.inp, c) && UniqueIds(plan.plugs) && t < |plan.inp.periods|
    requires CashAt(plan.inp, c, t) < plan.minimumCash && Lendable(SetupOf(plan, c), t) > 0.0
    ensures NextCumul(plan, c).debt[t] > c.debt[t]
  {
    ShortPeriodDraws(SetupOf(plan, c), t);
    PassAdds(plan, c, t);
  }

  /** Two unsettled passes at least. */
  lemma TwoPasses(plan: Plan, c0: Cumul, c1: Cumul, c2: Cumul, t: nat)
    requires Fits(plan.inp, c0) && c1 == NextCumul(plan, c0) && c2 == NextCumul(plan, c1) && c0 == NoCumul(plan.inp)
    requires UniqueIds(plan.plugs) && t < |plan.inp.periods|
    requires !Settled(SetupOf(plan, c0)) && !Settled(SetupOf(plan, c1))
    ensures PlugDebt(plan, t) >= c2.debt[t]
  {
    LoopUnfolds(plan, c0, c1, MAX_PASSES - 1);
    LoopUnfolds(plan, c1, c2, MAX_PASSES - 2);
    LoopDebtBound(plan, c2, MAX_PASSES - 2, t);
  }

  /** A shortfall beyond the limits: a second pass borrows on top of facilities drawn in full, at
      whatever rates, asset links included. */
  lemma SecondPassOverdraws(plan: Plan, t: nat)
    requires UniqueIds(plan.plugs) && t < |plan.inp.periods| && (Free(plan.plugs) || Prudent(plan.inp))
    requires FirstCash(plan, t) + TotalLimit(plan.plugs) < plan.minimumCash
    requires Lendable(SetupOf(plan, NoCumul(plan.inp)), t) > 0.0
    ensures PlugDebt(plan, t) > Lendable(SetupOf(plan, NoCumul(plan.inp)), t)
  {
    var c0 := NoCumul(plan.inp);
    var c1 := NextCumul(plan, c0);
    TotalLimitNonNegative(plan.plugs);
    NotYetSettled(plan, c0, t);
    FirstPassFills(plan, t);
    LinksAreTheSame(plan, c1, t);
    NotYetSettled(plan, c1, t);
    ShortPassAdds(plan, c1, t);
    TwoPasses(plan, c0, c1, NextCumul(plan, c1), t);
  }

  /** Where no asset link binds, that is beyond the limits themselves: they must suffice. */
  lemma LimitsMustSuffice(plan: Plan)
    requires UniqueIds(plan.plugs) && Unbound(plan) && (Free(plan.plugs) || Prudent(plan.inp))
    requires forall t: nat | t < |plan.inp.periods| :: PlugDebt(plan, t) <= TotalLimit(plan.plugs)
    ensures LimitsSuffice(plan)
  {
    TotalLimitNonNegative(plan.plugs);
    if !LimitsSuffice(plan) {
      var t: nat :| t < |plan.inp.periods| && FirstCash(plan, t) + TotalLimit(plan.plugs) < plan.minimumCash;
      LendableIsLimit(SetupOf(plan, NoCumul(plan.inp)), t);
      SecondPassOverdraws(plan, t);
      assert false;
    }
  }

  // ----- Room for five passes of interest -----

  /** 1 + 2 + ... + n */
  function Triangle(n: nat): real {
    if n == 0 then 0.0 else Triangle(n - 1) + n as real
  }

  lemma {:induction false} TriangleRises(m: nat, n: nat)
    requires m <= n
    ensures 0.0 <= Triangle(m) <= Triangle(n)
    decreases n
  {
    if m < n {
      TriangleRises(m, n - 1);
    } else if n > 0 {
      TriangleRises(n - 1, n - 1);
    }
  }

  lemma ShareSign(x: real, y: real)
    requires x >= 0.0 && y >= 0.0
    ensures Share(x, y) >= 0.0
  {
    MulMono(0.0, x, y);
  }

  lemma SharePositive(x: real, y: real)
    requires x > 0.0 && y > 0.0
    ensures Share(x, y) > 0.0
  {
    MulPositive(x, y);
  }

  lemma ShareRises(x: real, y: real, z: real)
    requires x >= 0.0 && y <= z
    ensures Share(x, y) <= Share(x, z)
  {
    MulMono(y, z, x);
  }

  /** Every period is short by at most i for each period up to it. */
  predicate NearlyFunded(cash: seq<real>, minimumCash: real, i: real) {
    forall t: nat | t < |cash| :: cash[t] + Share(i, (t + 1) as real) >= minimumCash
  }

  /** Then pooled debt grows no faster than the triangle numbers ... */
  lemma {:induction false} PooledDebtBound(cash: seq<real>, minimumCash: real, limit: real, i: real, n: nat)
    requires n <= |cash| && NearlyFunded(cash, minimumCash, i) && i >= 0.0
    ensures PooledDebt(cash, minimumCash, limit, n) <= Share(i, Triangle(n))
  {
    TriangleRises(0, n);
    ShareSign(i, Triangle(n));
    if n > 0 {
      PooledDebtBound(cash, minimumCash, limit, i, n - 1);
      ShareOfSum(i, Triangle(n - 1), n as real);
    }
  }

  /** ... and, within the limit, it funds every period. */
  lemma PooledDebtFunds(cash: seq<real>, minimumCash: real, limit: real, t: nat)
    requires t < |cash| && limit >= 0.0 && cash[t] + limit >= minimumCash
    ensures cash[t] + PooledDebt(cash, minimumCash, limit, t + 1) >= minimumCash
  {
    PooledDebtSign(cash, minimumCash, limit, t);
  }

  lemma PooledDebtSign(cash: seq<real>, minimumCash: real, limit: real, n: nat)
    requires n <= |cash| && limit >= 0.0
    ensures 0.0 <= PooledDebt(cash, minimumCash, limit, n) <= limit
  {
  }

  /** The debt of one pass at the end of period t. */
  function PassDebt(plan: Plan, c: Cumul, t: nat): real
    requires Fits(plan.inp, c) && t < |plan.inp.periods|
  {
    DebtAfter(SetupOf(plan, c), t + 1)
  }

  /** What it is in terms of the pool. */
  lemma PassIsPooled(plan: Plan, c: Cumul, t: nat)
    requires Fits(plan.inp, c) && UniqueIds(plan.plugs) && t < |plan.inp.periods| && Unbound(plan)
    ensures PassDebt(plan, c, t)
         == PooledDebt(CashColumn(plan.inp, c), plan.minimumCash, TotalLimit(plan.plugs), t + 1)
  {
    var s, s0 := SetupOf(plan, c), SetupOf(plan, NoCumul(plan.inp));
    forall u: nat | u < |s.closingCash|
      ensures LinksAreSlack(s, u)
    {
      LinksAreTheSame(plan, c, u);
      assert LinksAreSlack(s0, u);
    }
    DebtPathIsPooled(s, t + 1);
  }

  // ----- Interest of one pass -----

  predicate RatesWithin(plugs: seq<DebtFacility>, rate: real) {
    forall f | f in plugs :: f.interestRate <= rate
  }

  lemma {:induction false} InterestWithin(plugs: seq<DebtFacility>, balance: BalanceTable, rate: real)
    requires RatesWithin(plugs, rate) && rate >= 0.0
    requires forall f | f in plugs :: Bal(balance, f.facilityId) >= 0.0
    ensures SumOver(plugs, FacilityInterest(balance)) <= Share(rate / 12.0, TotalBalance(plugs, balance))
  {
    if plugs != [] {
      var f, rest := plugs[0], plugs[1..];
      assert f in plugs;
      assert forall g | g in rest :: g in plugs;
      InterestWithin(rest, balance, rate);
      InterestAtRate(f, Bal(balance, f.facilityId), rate);
      ShareOfSum(rate / 12.0, Bal(balance, f.facilityId), TotalBalance(rest, balance));
    }
  }

  lemma InterestAtRate(f: DebtFacility, balance: real, rate: real)
    requires f.interestRate <= rate && balance >= 0.0
    ensures MonthlyInterest(f, balance) <= Share(rate / 12.0, balance)
  {
    MulMono(f.interestRate, rate, balance / 12.0);
    assert f.interestRate * (balance / 12.0) == MonthlyInterest(f, balance);
    assert rate * (balance / 12.0) == Share(rate / 12.0, balance);
  }

  lemma RunInterestWithin(s: Setup, n: nat, rate: real, d: real)
    requires UniqueIds(s.facilities) && n <= |s.closingCash|
    requires RatesWithin(s.facilities, rate) && rate >= 0.0 && DebtAfter(s, n) <= d
    ensures SumOver(s.facilities, FacilityInterest(After(s, n))) <= Share(rate / 12.0, d)
  {
    BalancesStayWithinLimits(s, n);
    InterestWithin(s.facilities, After(s, n), rate);
    ShareRises(rate / 12.0, DebtAfter(s, n), d);
  }

  lemma PassInterestWithin(plan: Plan, c: Cumul, t: nat, rate: real, d: real)
    requires Fits(plan.inp, c) && UniqueIds(plan.plugs) && t < |plan.inp.periods|
    requires RatesWithin(plan.plugs, rate) && rate >= 0.0 && PassDebt(plan, c, t) <= d
    ensures NextCumul(plan, c).interest[t] <= c.interest[t] + Share(rate / 12.0, d)
  {
    PassCharges(plan, c, t);
    RunInterestWithin(SetupOf(plan, c), t + 1, rate, d);
  }

  /** The pass charges nothing that was charged back, and at most i more a period. */
  lemma PassCharge(plan: Plan, c: Cumul, rate: real, d: real)
    requires Fits(plan.inp, c) && UniqueIds(plan.plugs) && RatesWithin(plan.plugs, rate) && rate >= 0.0
    requires forall t: nat | t < |plan.inp.periods| :: PassDebt(plan, c, t) <= d
    ensures Charges(plan.inp, c.interest, NextCumul(plan, c).interest, Share(rate / 12.0, d))
  {
    PassChargesMore(plan, c);
    forall t: nat | t < |plan.inp.periods| {
      PassInterestWithin(plan, c, t, rate, d);
    }
  }

  lemma PassRaisesDebt(plan: Plan, c: Cumul, t: nat)
    requires Fits(plan.inp, c) && UniqueIds(plan.plugs) && t < |plan.inp.periods|
    ensures NextCumul(plan, c).debt[t] == c.debt[t] + PassDebt(plan, c, t)
  {
    PassAdds(plan, c, t);
  }

  // ----- From pass to pass -----

  /** Every period is funded by the debt of the pass, which is at most d. */
  predicate PassFunds(plan: Plan, c: Cumul, d: real)
    requires Fits(plan.inp, c)
  {
    forall t: nat | t < |plan.inp.periods| ::
      PassDebt(plan, c, t) <= d && CashAt(plan.inp, c, t) + PassDebt(plan, c, t) >= plan.minimumCash
  }

  /** What the interest of a pass leaves short is as much per period as a month's interest on d. */
  lemma NextIsNearlyFunded(plan: Plan, c: Cumul, rate: real, d: real)
    requires Fits(plan.inp, c) && UniqueIds(plan.plugs) && RatesWithin(plan.plugs, rate) && rate >= 0.0 && d >= 0.0
    requires (Free(plan.plugs) || Steady(plan.inp)) && PassFunds(plan, c, d)
    ensures NearlyFunded(CashColumn(plan.inp, NextCumul(plan, c)), plan.minimumCash, Share(rate / 12.0, d))
  {
    var i := Share(rate / 12.0, d);
    ShareSign(rate / 12.0, d);
    PassCharge(plan, c, rate, d);
    if Free(plan.plugs) {
      FreePass(plan, c);
    }
    forall t: nat | t < |plan.inp.periods|
      ensures CashAt(plan.inp, NextCumul(plan, c), t) + Share(i, (t + 1) as real) >= plan.minimumCash
    {
      PassRaisesDebt(plan, c, t);
      CashHolds(plan.inp, c, NextCumul(plan, c), i, t);
    }
  }

  /** A nearly funded start is funded by a pass whose debt is at most d. */
  lemma NearlyFundedPass(plan: Plan, c: Cumul, i: real, d: real)
    requires Fits(plan.inp, c) && UniqueIds(plan.plugs) && Unbound(plan) && i >= 0.0
    requires NearlyFunded(CashColumn(plan.inp, c), plan.minimumCash, i)
    requires d == Share(i, Triangle(|plan.inp.periods|)) <= TotalLimit(plan.plugs)
    ensures PassFunds(plan, c, d)
  {
    forall t: nat | t < |plan.inp.periods|
      ensures PassDebt(plan, c, t) <= d
      ensures CashAt(plan.inp, c, t) + PassDebt(plan, c, t) >= plan.minimumCash
    {
      PassIsPooled(plan, c, t);
      PooledPeriod(CashColumn(plan.inp, c), plan.minimumCash, TotalLimit(plan.plugs), i, d, t);
    }
  }

  lemma PooledPeriod(cash: seq<real>, minimumCash: real, limit: real, i: real, d: real, t: nat)
    requires t < |cash| && NearlyFunded(cash, minimumCash, i) && i >= 0.0
    requires d == Share(i, Triangle(|cash|)) <= limit
    ensures PooledDebt(cash, minimumCash, limit, t + 1) <= d
    ensures cash[t] + PooledDebt(cash, minimumCash, limit, t + 1) >= minimumCash
  {
    PooledDebtBound(cash, minimumCash, limit, i, t + 1);
    TriangleRises(t + 1, |cash|);
    TriangleRises(0, t);
    ShareRises(i, Triangle(t + 1), Triangle(|cash|));
    ShareRises(i, (t + 1) as real, Triangle(t + 1));
    ShareSign(i, Triangle(|cash|));
    PooledDebtFunds(cash, minimumCash, limit, t);
  }

  /** How much of the debt of one pass its interest makes the next one borrow: at the given rate,
      over the whole horizon. */
  function SpillOf(plan: Plan, rate: real): real {
    Share(rate / 12.0, Triangle(|plan.inp.periods|))
  }

  lemma ShareOfShare(x: real, y: real, z: real)
    ensures Share(Share(x, y), z) == Grown(Share(x, z), y)
  {
  }

  /** What the bound is about: plugs whose links do not bind, at most the given rate, and interest
      that lowers equity by no more than itself. */
  ghost predicate Bounded(plan: Plan, rate: real) {
    && UniqueIds(plan.plugs)
    && Unbound(plan)
    && RatesWithin(plan.plugs, rate) && rate >= 0.0
    && (Free(plan.plugs) || Steady(plan.inp))
  }

  lemma FundsAfterInterest(plan: Plan, c: Cumul, rate: real, d: real, i: real, spilled: real)
    requires Bounded(plan, rate) && Fits(plan.inp, c) && d >= 0.0 && PassFunds(plan, c, d)
    requires 0.0 <= i == Share(rate / 12.0, d)
    requires spilled == Share(i, Triangle(|plan.inp.periods|)) <= TotalLimit(plan.plugs)
    ensures PassFunds(plan, NextCumul(plan, c), spilled)
  {
    NextIsNearlyFunded(plan, c, rate, d);
    NearlyFundedPass(plan, NextCumul(plan, c), i, spilled);
  }

  lemma SpilledDebt(plan: Plan, rate: real, d: real) returns (i: real, spilled: real)
    requires rate >= 0.0 && d >= 0.0
    ensures 0.0 <= i == Share(rate / 12.0, d)
    ensures spilled == Share(i, Triangle(|plan.inp.periods|)) == Grown(SpillOf(plan, rate), d)
  {
    i, spilled := Share(rate / 12.0, d), Grown(SpillOf(plan, rate), d);
    ShareSign(rate / 12.0, d);
    ShareOfShare(rate / 12.0, d, Triangle(|plan.inp.periods|));
  }

  /** If a pass funds every period with debt of at most d, the next one does with what d spills. */
  lemma NextPassFunds(plan: Plan, c: Cumul, rate: real, d: real)
    requires Bounded(plan, rate) && Fits(plan.inp, c) && d >= 0.0 && PassFunds(plan, c, d)
    requires Grown(SpillOf(plan, rate), d) <= TotalLimit(plan.plugs)
    ensures PassFunds(plan, NextCumul(plan, c), Grown(SpillOf(plan, rate), d))
  {
    var i, spilled := SpilledDebt(plan, rate, d);
    FundsAfterInterest(plan, c, rate, d, i, spilled);
  }

  function FundedBy(plan: Plan): (Cumul, real) -> bool {
    (c: Cumul, d: real) => Fits(plan.inp, c) && PassFunds(plan, c, d)
  }

  lemma PassesSpill(plan: Plan, rate: real, t: nat)
    requires Bounded(plan, rate) && t < |plan.inp.periods|
    ensures forall c, d ::
              SpillsFrom(PassOf(plan), StopOf(plan), FundedBy(plan), DebtIn(t), SpillOf(plan, rate), TotalLimit(plan.plugs), c, d)
  {
    forall c, d
      ensures SpillsFrom(PassOf(plan), StopOf(plan), FundedBy(plan), DebtIn(t), SpillOf(plan, rate), TotalLimit(plan.plugs), c, d)
    {
      if FundedBy(plan)(c, d) {
        PassRaisesDebt(plan, c, t);
        if 0.0 <= d && Grown(SpillOf(plan, rate), d) <= TotalLimit(plan.plugs) {
          NextPassFunds(plan, c, rate, d);
        }
      }
    }
  }

  lemma SpillSign(plan: Plan, rate: real)
    requires rate >= 0.0
    ensures SpillOf(plan, rate) >= 0.0
  {
    TriangleRises(0, |plan.inp.periods|);
    ShareSign(rate / 12.0, Triangle(|plan.inp.periods|));
  }

  lemma SpilledPasses(plan: Plan, q: real, most: real, t: nat)
    requires forall c, d :: SpillsFrom(PassOf(plan), StopOf(plan), FundedBy(plan), DebtIn(t), q, TotalLimit(plan.plugs), c, d)
    requires t < |plan.inp.periods| && q >= 0.0 && most >= 0.0 && PassFunds(plan, NoCumul(plan.inp), most)
    requires Compounded(q, most, MAX_PASSES) <= TotalLimit(plan.plugs)
    ensures PlugDebt(plan, t) <= Compounded(q, most, MAX_PASSES)
  {
    RepeatSpills(PassOf(plan), StopOf(plan), FundedBy(plan), DebtIn(t), q, TotalLimit(plan.plugs), NoCumul(plan.inp), most,
                 MAX_PASSES);
  }

  /** The debt after n periods that the first build asks one pooled facility for. */
  function AskedFor(plan: Plan, n: nat): real
    requires n <= |plan.inp.periods|
  {
    PooledDebt(CashColumn(plan.inp, NoCumul(plan.inp)), plan.minimumCash, TotalLimit(plan.plugs), n)
  }

  lemma FirstPassFunds(plan: Plan, most: real)
    requires UniqueIds(plan.plugs) && Unbound(plan)
    requires forall n: nat | n <= |plan.inp.periods| :: AskedFor(plan, n) <= most
    requires forall t: nat | t < |plan.inp.periods| :: FirstCash(plan, t) + TotalLimit(plan.plugs) >= plan.minimumCash
    ensures PassFunds(plan, NoCumul(plan.inp), most)
  {
    forall t: nat | t < |plan.inp.periods|
      ensures PassDebt(plan, NoCumul(plan.inp), t) <= most
      ensures FirstCash(plan, t) + PassDebt(plan, NoCumul(plan.inp), t) >= plan.minimumCash
    {
      assert AskedFor(plan, t + 1) <= most;
      FirstPeriodFunded(plan, t);
    }
  }

  lemma FirstPeriodFunded(plan: Plan, t: nat)
    requires UniqueIds(plan.plugs) && Unbound(plan) && t < |plan.inp.periods|
    requires FirstCash(plan, t) + TotalLimit(plan.plugs) >= plan.minimumCash
    ensures PassDebt(plan, NoCumul(plan.inp), t) == AskedFor(plan, t + 1)
    ensures FirstCash(plan, t) + PassDebt(plan, NoCumul(plan.inp), t) >= plan.minimumCash
  {
    PassIsPooled(plan, NoCumul(plan.inp), t);
    TotalLimitNonNegative(plan.plugs);
    PooledDebtFunds(CashColumn(plan.inp, NoCumul(plan.inp)), plan.minimumCash, TotalLimit(plan.plugs), t);
  }

  /** Sufficient at every rate: the limits cover each shortfall of the first build, and beyond the
      debt it asks for they leave room for what five passes of interest borrow on top. */
  lemma RoomForInterest(plan: Plan, rate: real, most: real, t: nat)
    requires Bounded(plan, rate) && LimitsSuffice(plan) && t < |plan.inp.periods|
    requires forall n: nat | n <= |plan.inp.periods| :: AskedFor(plan, n) <= most
    requires Compounded(SpillOf(plan, rate), most, MAX_PASSES) <= TotalLimit(plan.plugs)
    ensures PlugDebt(plan, t) <= TotalLimit(plan.plugs)
    ensures TotalLimit(plan.plugs) > 0.0 ==> PlugDebt(plan, t) <= Compounded(SpillOf(plan, rate), most, MAX_PASSES)
  {
    if TotalLimit(plan.plugs) == 0.0 {
      PlugDebtBound(plan, t);
    } else {
      assert AskedFor(plan, 0) == 0.0;
      FirstPassFunds(plan, most);
      SpillSign(plan, rate);
      PassesSpill(plan, rate, t);
      SpilledPasses(plan, SpillOf(plan, rate), most, t);
    }
  }

  // ----- The exact condition without interest -----

  lemma NothingCompounds(q: real, d: real, passes: nat)
    requires q == 0.0 && passes > 0
    ensures Compounded(q, d, passes) == d
  {
    NothingAtAll(q, passes - 1);
    assert Grown(q, d) == 0.0;
  }

  lemma {:induction false} NothingAtAll(q: real, passes: nat)
    requires q == 0.0
    ensures Compounded(q, 0.0, passes) == 0.0
  {
    if passes > 0 {
      assert Grown(q, 0.0) == 0.0;
      NothingAtAll(q, passes - 1);
    }
  }

  /** Plug debt free of interest stays within the summed limits exactly when no period's shortfall
      exceeds them. */
  lemma PlugDebtWithinLimitsIff(plan: Plan)
    requires UniqueIds(plan.plugs) && Unbound(plan) && Free(plan.plugs)
    ensures (forall t: nat | t < |plan.inp.periods| :: PlugDebt(plan, t) <= TotalLimit(plan.plugs))
       <==> LimitsSuffice(plan)
  {
    if LimitsSuffice(plan) {
      TotalLimitNonNegative(plan.plugs);
      NothingCompounds(SpillOf(plan, 0.0), TotalLimit(plan.plugs), MAX_PASSES);
      forall n: nat | n <= |plan.inp.periods|
        ensures AskedFor(plan, n) <= TotalLimit(plan.plugs)
      {
        PooledDebtSign(CashColumn(plan.inp, NoCumul(plan.inp)), plan.minimumCash, TotalLimit(plan.plugs), n);
      }
      forall t: nat | t < |plan.inp.periods| {
        RoomForInterest(plan, 0.0, TotalLimit(plan.plugs), t);
      }
    } else {
      if forall t: nat | t < |plan.inp.periods| :: PlugDebt(plan, t) <= TotalLimit(plan.plugs) {
        LimitsMustSuffice(plan);
      }
    }
  }
}
