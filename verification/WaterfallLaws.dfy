/** Which facility is drawn and repaid first, how much each can lend and what it costs
    (funding_waterfall.py). */
module WaterfallLaws {
  import opened Facilities
  import opened FundingWaterfall
  import opened Passes
  import opened Sequences
  import opened StableSort

  // ----- Order by type -----

  /** Revolvers are drawn first, then trade finance, then term loans, and overdrafts last. */
  predicate DrawnBefore(a: FacilityType, b: FacilityType) {
    match a
    case Revolver => b != Revolver
    case TradeFinance => b == TermLoan || b == Overdraft
    case TermLoan => b == Overdraft
    case Overdraft => false
  }

  /** f is drawn before g: by its type, and among facilities of one type by the list. */
  predicate HasPriority(facilities: seq<DebtFacility>, f: DebtFacility, g: DebtFacility) {
    DrawnBefore(f.facilityType, g.facilityType)
    || (f.facilityType == g.facilityType && ComesBefore(facilities, f, g))
  }

  /** f is repaid before g: the other way round by type, and again by the list. */
  predicate RepaidBefore(facilities: seq<DebtFacility>, f: DebtFacility, g: DebtFacility) {
    DrawnBefore(g.facilityType, f.facilityType)
    || (f.facilityType == g.facilityType && ComesBefore(facilities, f, g))
  }

  lemma UniqueIdsDistinct(facilities: seq<DebtFacility>)
    requires UniqueIds(facilities)
    ensures NoDup(facilities)
  {
    forall i, j | 0 <= i < j < |facilities|
      ensures facilities[i] != facilities[j]
    {
      assert Ids(facilities)[i] != Ids(facilities)[j];
    }
  }

  lemma TypeKeys(f: DebtFacility, g: DebtFacility)
    ensures DrawnBefore(f.facilityType, g.facilityType) ==> DRAW_KEY(f) < DRAW_KEY(g) && REPAY_KEY(g) < REPAY_KEY(f)
    ensures f.facilityType == g.facilityType ==> DRAW_KEY(f) == DRAW_KEY(g) && REPAY_KEY(g) == REPAY_KEY(f)
  {
  }

  /** Balances rise only in short periods and fall only in others. */
  lemma MovesOneWay(s: Setup, t: nat, g: DebtFacility)
    requires UniqueIds(s.facilities) && t < |s.closingCash| && g in s.facilities
    ensures Bal(After(s, t + 1), g.facilityId) > Bal(After(s, t), g.facilityId) ==> s.closingCash[t] < s.minimumCash
    ensures Bal(After(s, t + 1), g.facilityId) < Bal(After(s, t), g.facilityId) ==> s.closingCash[t] > s.minimumCash
  {
    AfterStep(s, t);
    PeriodFacts(s, t);
    var order, p := OrderAt(s, t), PeriodAt(s, t);
    assert g in multiset(s.facilities);
    var i :| 0 <= i < |order| && order[i] == g;
    LinesDistinct(s, order, t);
    LineAt(s, order, t);
    if Short(s, t) {
      DrawDownIsGreedy(p.lines, After(s, t), p.amount, i);
    } else {
      RunIsProper(s);
      BalancesKeepShape(Run(s), Opening(s.facilities), t);
      PayBackIsGreedy(p.lines, After(s, t), p.amount, i);
      if p.amount == 0.0 {
        NothingLeftToRepay(p.lines, After(s, t));
      }
    }
  }

  /** In any period of a run: if a facility's balance rises, every facility of a type that comes before
      its own, and every earlier one of its type, stands at what it can lend in the period, or above. */
  lemma DrawnByPriority(s: Setup, t: nat, f: DebtFacility, g: DebtFacility)
    requires UniqueIds(s.facilities) && t < |s.closingCash| && f in s.facilities && g in s.facilities
    requires HasPriority(s.facilities, f, g)
    requires Bal(After(s, t + 1), g.facilityId) > Bal(After(s, t), g.facilityId)
    ensures Bal(After(s, t + 1), f.facilityId) >= EffectiveLimit(s, f, t)
  {
    MovesOneWay(s, t, g);
    TypeKeys(f, g);
    UniqueIdsDistinct(s.facilities);
    var x, y := PositionsIn(s.facilities, DRAW_KEY, f, g);
    DrawsInOrder(s, t, y);
  }

  /** If a facility's balance falls, every facility of a type that comes after its own, and every
      earlier one of its type, owes nothing any more. */
  lemma RepaidByPriority(s: Setup, t: nat, f: DebtFacility, g: DebtFacility)
    requires UniqueIds(s.facilities) && t < |s.closingCash| && f in s.facilities && g in s.facilities
    requires RepaidBefore(s.facilities, f, g)
    requires Bal(After(s, t + 1), g.facilityId) < Bal(After(s, t), g.facilityId)
    ensures Bal(After(s, t + 1), f.facilityId) == 0.0
  {
    MovesOneWay(s, t, g);
    TypeKeys(f, g);
    TypeKeys(g, f);
    UniqueIdsDistinct(s.facilities);
    var x, y := PositionsIn(s.facilities, REPAY_KEY, f, g);
    RepaysInOrder(s, t, y);
  }

  // ----- How much a facility can lend -----

  /** Its limit, or the advance on its asset if that is less; an asset without a value in the period
      supports nothing. */
  lemma LendsWithinAsset(s: Setup, f: DebtFacility, t: nat, a: Asset)
    requires f.assetLinked.Some? && f.assetLinked.value == a && s.assetValues != map[]
    ensures EffectiveLimit(s, f, t) <= f.limit
    ensures a in s.assetValues && t < |s.assetValues[a]| ==>
              var advance := s.assetValues[a][t] * f.advanceRate;
              EffectiveLimit(s, f, t) <= advance && (EffectiveLimit(s, f, t) == f.limit || EffectiveLimit(s, f, t) == advance)
    ensures a !in s.assetValues || t >= |s.assetValues[a]| ==> EffectiveLimit(s, f, t) == 0.0
  {
  }

  // ----- What it costs -----

  /** The annual interest on the balance, on overdrafts only if asked. */
  function AnnualInterest(balance: BalanceTable, overdraftsOnly: bool): DebtFacility -> real {
    (f: DebtFacility) =>
      if overdraftsOnly && f.facilityType != Overdraft then 0.0 else Yearly(f, Bal(balance, f.facilityId))
  }

  function Yearly(f: DebtFacility, balance: real): real {
    f.interestRate * balance
  }

  /** Twelve times the interest a period charges is the annual interest on the balances it leaves; the
      overdraft interest is the part of it on overdrafts. */
  lemma InterestIsATwelfth(s: Setup, t: nat)
    requires UniqueIds(s.facilities) && t < |s.closingCash|
    ensures var row, balance := RowsTo(s, |s.closingCash|)[t], After(s, t + 1);
            && 12.0 * row.waterfallInterest == SumOver(s.facilities, AnnualInterest(balance, false))
            && 12.0 * row.overdraftInterest == SumOver(s.facilities, AnnualInterest(balance, true))
  {
    RowsToAt(s, |s.closingCash|, t);
    BalancesStayWithinLimits(s, t + 1);
    TwelveTimes(s.facilities, After(s, t + 1));
  }

  lemma {:induction false} TwelveTimes(facilities: seq<DebtFacility>, balance: BalanceTable)
    requires WithinLimits(facilities, balance)
    ensures 12.0 * SumOver(facilities, FacilityInterest(balance)) == SumOver(facilities, AnnualInterest(balance, false))
    ensures 12.0 * SumOver(facilities, OverdraftInterest(balance)) == SumOver(facilities, AnnualInterest(balance, true))
  {
    if facilities != [] {
      var f, rest := facilities[0], facilities[1..];
      assert f in facilities && forall g | g in rest :: g in facilities;
      TwelveTimes(rest, balance);
      TwelveMonths(f, Bal(balance, f.facilityId));
    }
  }

  lemma TwelveMonths(f: DebtFacility, balance: real)
    ensures 12.0 * MonthlyInterest(f, balance) == Yearly(f, balance)
    ensures Yearly(f, 0.0) == 0.0
  {
  }
}
