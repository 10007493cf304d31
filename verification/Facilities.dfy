/** Debt facilities as the input schema admits them (schemas.py). */
module Facilities {
  import opened Passes
  import opened Sequences
  import opened Wrappers

  datatype FacilityId = FacilityId(name: string)

  datatype FacilityType = Revolver | TradeFinance | TermLoan | Overdraft

  datatype Asset = Receivables | Inventory

  datatype DrawRepayPoint = DrawRepayPoint(month: int, amount: real)

  datatype FacilityRecord = FacilityRecord(
    facilityId: FacilityId,
    facilityType: FacilityType,
    limit: real,
    interestRate: real,
    drawSchedule: seq<DrawRepayPoint>,
    repaymentSchedule: seq<DrawRepayPoint>,
    isCashPlug: bool,
    pikRate: real,
    gracePeriodMonths: nat,
    convertsToEquityMonth: Option<nat>,
    assetLinked: Option<Asset>,
    advanceRate: real)

  predicate Admissible(f: FacilityRecord) {
    && f.limit >= 0.0
    && 0.0 <= f.interestRate <= 1.0
    && 0.0 <= f.pikRate <= 1.0
    && 0.0 <= f.advanceRate <= 1.0
    && (f.isCashPlug ==> f.convertsToEquityMonth.None?)
  }

  /** A facility within the schema's ranges. An absent schedule is an empty one. */
  type DebtFacility = f: FacilityRecord | Admissible(f)
    witness FacilityRecord(FacilityId(""), Revolver, 0.0, 0.0, [], [], false, 0.0, 0, None, None, 1.0)

  type BalanceTable = map<FacilityId, real>

  function Ids(facilities: seq<DebtFacility>): seq<FacilityId> {
    Map((f: DebtFacility) => f.facilityId, facilities)
  }

  ghost predicate UniqueIds(facilities: seq<DebtFacility>) {
    NoDup(Ids(facilities))
  }

  lemma UniqueIdsTail(facilities: seq<DebtFacility>)
    requires UniqueIds(facilities) && facilities != []
    ensures UniqueIds(facilities[1..])
    ensures forall f | f in facilities[1..] :: f.facilityId != facilities[0].facilityId
  {
    var ids := Ids(facilities);
    assert Ids(facilities[1..]) == ids[1..];
    forall f | f in facilities[1..]
      ensures f.facilityId != facilities[0].facilityId
    {
      var k :| 0 <= k < |facilities| - 1 && facilities[1..][k] == f;
      assert ids[0] != ids[k + 1];
    }
  }

  lemma UniqueIdsPermutation(a: seq<DebtFacility>, b: seq<DebtFacility>)
    requires UniqueIds(a) && multiset(a) == multiset(b)
    ensures UniqueIds(b)
  {
    MapPermutation((f: DebtFacility) => f.facilityId, a, b);
    NoDupPermutation(Ids(a), Ids(b));
  }

  /** The balance of a facility as a function of the facility. */
  function OnBalance(balance: BalanceTable): DebtFacility -> real {
    (f: DebtFacility) => Bal(balance, f.facilityId)
  }

  const LIMIT: DebtFacility -> real := (f: DebtFacility) => f.limit

  function TotalBalance(facilities: seq<DebtFacility>, balance: BalanceTable): real {
    SumOver(facilities, OnBalance(balance))
  }

  function TotalLimit(facilities: seq<DebtFacility>): real {
    SumOver(facilities, LIMIT)
  }

  lemma TotalLimitNonNegative(facilities: seq<DebtFacility>)
    ensures TotalLimit(facilities) >= 0.0
  {
    SumOverNonNegative(facilities, LIMIT);
  }

  function MonthlyInterest(f: DebtFacility, balance: real): real {
    balance * f.interestRate / 12.0
  }
}
