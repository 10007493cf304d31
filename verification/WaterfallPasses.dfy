/** When one more waterfall pass changes nothing, and how far plug debt can go. */
module WaterfallPasses {
  import opened Facilities
  import opened FundingWaterfall
  import opened Passes
  import opened Sequences

  // ----- Settled waterfalls -----

  /** Some facility draws in some period. */
  predicate Injects(s: Setup) {
    exists f | f in s.facilities :: DrawsSomewhere(DrawsAfter(s, |s.closingCash|), f.facilityId, |s.closingCash|)
  }

  predicate DrawsSomewhere(draws: DrawTable<FacilityId>, id: FacilityId, horizon: nat) {
    id in draws && exists t: nat | t < horizon :: t < |draws[id]| && draws[id][t] > 0.0
  }

  predicate ChargesInterest(s: Setup) {
    exists t: nat | t < |s.closingCash| :: RowsTo(s, |s.closingCash|)[t].waterfallInterest > 0.0
  }

  /** The loop over passes stops here. */
  predicate Settled(s: Setup) {
    !Injects(s) && !ChargesInterest(s)
  }

  /** Period t needs no funding, or none is to be had. */
  predicate Funded(s: Setup, t: nat)
    requires t < |s.closingCash|
  {
    !Short(s, t) || forall f | f in s.facilities :: EffectiveLimit(s, f, t) <= 0.0
  }

  lemma NoDebtMeansNoBalances(s: Setup, n: nat)
    requires UniqueIds(s.facilities) && n <= |s.closingCash|
    ensures DebtAfter(s, n) == 0.0 <==> forall f | f in s.facilities :: Bal(After(s, n), f.facilityId) == 0.0
  {
    BalancesStayWithinLimits(s, n);
    SumOverZero(s.facilities, OnBalance(After(s, n)));
    assert forall f | f in s.facilities :: OnBalance(After(s, n))(f) == Bal(After(s, n), f.facilityId);
  }

  /** From no debt, a period leaves no debt exactly when it is funded. */
  lemma FundedStep(s: Setup, t: nat)
    requires UniqueIds(s.facilities) && t < |s.closingCash| && DebtAfter(s, t) == 0.0
    ensures DebtAfter(s, t + 1) == 0.0 <==> Funded(s, t)
  {
    FundingIsExact(s, t);
    NoRoomIff(s, t);
  }

  /** From no debt, there is room unless nobody lends. */
  lemma NoRoomIff(s: Setup, t: nat)
    requires UniqueIds(s.facilities) && t < |s.closingCash| && DebtAfter(s, t) == 0.0
    ensures Room(s, t) >= 0.0
    ensures Room(s, t) == 0.0 <==> forall f | f in s.facilities :: EffectiveLimit(s, f, t) <= 0.0
  {
    NoDebtMeansNoBalances(s, t);
    HeadroomsFromZero(s, After(s, t), t);
    SumOverZero(s.facilities, OnHeadroom(s, After(s, t), t));
    SumOverNonNegative(s.facilities, OnHeadroom(s, After(s, t), t));
  }

  lemma HeadroomsFromZero(s: Setup, balance: BalanceTable, t: nat)
    requires forall f | f in s.facilities :: Bal(balance, f.facilityId) == 0.0
    ensures forall f | f in s.facilities ::
              OnHeadroom(s, balance, t)(f) >= 0.0
              && (OnHeadroom(s, balance, t)(f) == 0.0 <==> EffectiveLimit(s, f, t) <= 0.0)
  {
  }

  /** In a period that is not funded, or before it, some debt is left. */
  lemma FirstOwed(s: Setup, t: nat) returns (u: nat)
    requires UniqueIds(s.facilities) && t < |s.closingCash| && !Funded(s, t)
    ensures u < |s.closingCash| && DebtAfter(s, u + 1) > 0.0
  {
    if DebtAfter(s, t) == 0.0 {
      FundedStep(s, t);
      u := t;
    } else {
      OpeningDebt(s.facilities, After(s, 0));
      u := t - 1;
    }
    DebtSign(s, u + 1);
  }

  lemma DebtSign(s: Setup, n: nat)
    requires UniqueIds(s.facilities) && n <= |s.closingCash|
    ensures DebtAfter(s, n) >= 0.0
  {
    BalancesStayWithinLimits(s, n);
  }

  lemma {:induction false} FundedMeansNoDebt(s: Setup, n: nat)
    requires UniqueIds(s.facilities) && n <= |s.closingCash|
    requires forall t: nat | t < n :: Funded(s, t)
    ensures DebtAfter(s, n) == 0.0
  {
    if n == 0 {
      OpeningDebt(s.facilities, After(s, 0));
    } else {
      FundedMeansNoDebt(s, n - 1);
      FundedStep(s, n - 1);
    }
  }

  lemma NoDebtMeansNoDraw(s: Setup, f: DebtFacility)
    requires UniqueIds(s.facilities) && f in s.facilities
    requires forall n: nat | n <= |s.closingCash| :: DebtAfter(s, n) == 0.0
    ensures !DrawsSomewhere(DrawsAfter(s, |s.closingCash|), f.facilityId, |s.closingCash|)
  {
    var draws, id := DrawsAfter(s, |s.closingCash|), f.facilityId;
    forall t: nat | t < |s.closingCash|
      ensures id in draws && t < |draws[id]| && draws[id][t] == 0.0
    {
      NoDebtMeansNoBalances(s, t);
      NoDebtMeansNoBalances(s, t + 1);
      RecordedDraws(s, f, t);
    }
  }

  lemma NoDebtMeansNoInterest(s: Setup, t: nat)
    requires UniqueIds(s.facilities) && t < |s.closingCash| && DebtAfter(s, t + 1) == 0.0
    ensures RowsTo(s, |s.closingCash|)[t].waterfallInterest == 0.0
  {
    NoDebtMeansNoBalances(s, t + 1);
    RowsToAt(s, |s.closingCash|, t);
    SumOverZero(s.facilities, FacilityInterest(After(s, t + 1)));
  }

  lemma NotDrawnStaysZero(s: Setup, f: DebtFacility, t: nat)
    requires UniqueIds(s.facilities) && f in s.facilities && t < |s.closingCash|
    requires !DrawsSomewhere(DrawsAfter(s, |s.closingCash|), f.facilityId, |s.closingCash|)
    requires Bal(After(s, t), f.facilityId) == 0.0
    ensures Bal(After(s, t + 1), f.facilityId) == 0.0
  {
    RecordedDraws(s, f, t);
    NoNegativeBalance(s, f, t + 1);
  }

  lemma NoNegativeBalance(s: Setup, f: DebtFacility, n: nat)
    requires UniqueIds(s.facilities) && f in s.facilities && n <= |s.closingCash|
    ensures Bal(After(s, n), f.facilityId) >= 0.0
  {
    BalancesStayWithinLimits(s, n);
  }

  ghost predicate Debtless(s: Setup, n: nat)
    requires n <= |s.closingCash|
  {
    DebtAfter(s, n) == 0.0
  }

  lemma NoDrawStep(s: Setup, t: nat)
    requires UniqueIds(s.facilities) && t < |s.closingCash| && !Injects(s)
    requires Debtless(s, t)
    ensures Debtless(s, t + 1)
  {
    NoDebtMeansNoBalances(s, t);
    AllStayZero(s, t);
    NoDebtMeansNoBalances(s, t + 1);
  }

  lemma AllStayZero(s: Setup, t: nat)
    requires UniqueIds(s.facilities) && t < |s.closingCash| && !Injects(s)
    requires forall f | f in s.facilities :: Bal(After(s, t), f.facilityId) == 0.0
    ensures forall f | f in s.facilities :: Bal(After(s, t + 1), f.facilityId) == 0.0
  {
    forall f | f in s.facilities
      ensures Bal(After(s, t + 1), f.facilityId) == 0.0
    {
      NotDrawnStaysZero(s, f, t);
    }
  }

  lemma {:induction false} StaysDebtless(s: Setup, n: nat)
    requires n <= |s.closingCash| && Debtless(s, 0)
    requires forall t: nat | t < |s.closingCash| && Debtless(s, t) :: Debtless(s, t + 1)
    ensures Debtless(s, n)
  {
    if n > 0 {
      StaysDebtless(s, n - 1);
    }
  }

  /** What is never drawn is never owed. */
  lemma SettledMeansNoDebt(s: Setup, n: nat)
    requires UniqueIds(s.facilities) && n <= |s.closingCash| && !Injects(s)
    ensures Debtless(s, n)
  {
    OpeningDebt(s.facilities, After(s, 0));
    forall t: nat | t < |s.closingCash| && Debtless(s, t)
      ensures Debtless(s, t + 1)
    {
      NoDrawStep(s, t);
    }
    StaysDebtless(s, n);
  }

  lemma IdlePeriodIsFunded(s: Setup, t: nat)
    requires UniqueIds(s.facilities) && !Injects(s) && t < |s.closingCash|
    ensures Funded(s, t)
  {
    SettledMeansNoDebt(s, t);
    SettledMeansNoDebt(s, t + 1);
    FundedStep(s, t);
  }

  lemma IdleMeansFunded(s: Setup)
    requires UniqueIds(s.facilities) && !Injects(s)
    ensures forall t: nat | t < |s.closingCash| :: Funded(s, t)
  {
    forall t: nat | t < |s.closingCash| {
      IdlePeriodIsFunded(s, t);
    }
  }

  lemma FundedMeansSettled(s: Setup)
    requires UniqueIds(s.facilities)
    requires forall t: nat | t < |s.closingCash| :: Funded(s, t)
    ensures Settled(s)
  {
    forall n: nat | n <= |s.closingCash|
      ensures DebtAfter(s, n) == 0.0
    {
      FundedMeansNoDebt(s, n);
    }
    forall f | f in s.facilities {
      NoDebtMeansNoDraw(s, f);
    }
    forall t: nat | t < |s.closingCash| {
      NoDebtMeansNoInterest(s, t);
    }
  }

  /** A pass is idle exactly when every period is funded: either cash is at the minimum or
      no facility can lend any more. */
  lemma SettledIffFunded(s: Setup)
    requires UniqueIds(s.facilities)
    ensures Settled(s) <==> forall t: nat | t < |s.closingCash| :: Funded(s, t)
  {
    if Settled(s) {
      IdleMeansFunded(s);
    } else if forall t: nat | t < |s.closingCash| :: Funded(s, t) {
      FundedMeansSettled(s);
    }
  }

  /** The debt column of a pass. */
  lemma DebtColumn(s: Setup, t: nat)
    requires UniqueIds(s.facilities) && t < |s.closingCash|
    ensures RowsTo(s, |s.closingCash|)[t].waterfallDebt == DebtAfter(s, t + 1)
    ensures 0.0 <= RowsTo(s, |s.closingCash|)[t].waterfallDebt <= TotalLimit(s.facilities)
  {
    RowsToAt(s, |s.closingCash|, t);
    SumOfValuesIsTotal(s.facilities, After(s, t + 1));
    BalancesStayWithinLimits(s, t + 1);
  }

  // ----- Short periods -----

  function OnLendable(s: Setup, t: nat): DebtFacility -> real {
    (f: DebtFacility) => Max(0.0, EffectiveLimit(s, f, t))
  }

  /** What the facilities may lend in period t, asset links counted. */
  function Lendable(s: Setup, t: nat): real {
    SumOver(s.facilities, OnLendable(s, t))
  }

  lemma LendableIsLimit(s: Setup, t: nat)
    requires LinksAreSlack(s, t)
    ensures Lendable(s, t) == TotalLimit(s.facilities)
  {
    SumOverSame(s.facilities, OnLendable(s, t), LIMIT);
  }

  lemma SomethingLendable(s: Setup, t: nat)
    requires Lendable(s, t) > 0.0
    ensures exists f | f in s.facilities :: EffectiveLimit(s, f, t) > 0.0
  {
    if forall f | f in s.facilities :: EffectiveLimit(s, f, t) <= 0.0 {
      SumOverZero(s.facilities, OnLendable(s, t));
      assert false;
    }
  }

  lemma RoomAndDebt(s: Setup, t: nat)
    requires UniqueIds(s.facilities) && t < |s.closingCash|
    ensures Room(s, t) + DebtAfter(s, t) >= Lendable(s, t)
    ensures Room(s, t) >= 0.0
  {
    var balance := After(s, t);
    BalancesStayWithinLimits(s, t);
    var both: DebtFacility -> real := (f: DebtFacility) => OnHeadroom(s, balance, t)(f) + OnBalance(balance)(f);
    SumOverAdd(s.facilities, both, OnHeadroom(s, balance, t), OnBalance(balance));
    SumOverMonotone(s.facilities, OnLendable(s, t), both);
    SumOverNonNegative(s.facilities, OnHeadroom(s, balance, t));
  }

  /** A shortfall beyond all limits leaves everything that may be lent drawn. */
  lemma ShortPeriodFills(s: Setup, t: nat)
    requires UniqueIds(s.facilities) && t < |s.closingCash|
    requires s.closingCash[t] + TotalLimit(s.facilities) < s.minimumCash
    ensures Lendable(s, t) <= DebtAfter(s, t + 1) <= TotalLimit(s.facilities)
  {
    BalancesStayWithinLimits(s, t);
    BalancesStayWithinLimits(s, t + 1);
    FundingIsExact(s, t);
    RoomAndDebt(s, t);
  }

  /** A short period in which something may be lent ends with debt. */
  lemma ShortPeriodDraws(s: Setup, t: nat)
    requires UniqueIds(s.facilities) && t < |s.closingCash| && Short(s, t) && Lendable(s, t) > 0.0
    ensures DebtAfter(s, t + 1) > 0.0
  {
    BalancesStayWithinLimits(s, t);
    FundingIsExact(s, t);
    RoomAndDebt(s, t);
  }
}
