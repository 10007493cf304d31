/** Covering cash shortfalls with cash-plug facilities and repaying them from surpluses
    (funding_waterfall.py). */
module FundingWaterfall {
  import opened Facilities
  import opened Passes
  import opened Sequences
  import opened StableSort

  function TypeOrder(f: DebtFacility): int {
    match f.facilityType
    case Revolver => 0
    case TradeFinance => 1
    case TermLoan => 2
    case Overdraft => 3
  }

  const DRAW_KEY: DebtFacility -> real := (f: DebtFacility) => TypeOrder(f) as real

  const REPAY_KEY: DebtFacility -> real := (f: DebtFacility) => -TypeOrder(f) as real

  function SortDrawOrder(facilities: seq<DebtFacility>): seq<DebtFacility> {
    Sort(facilities, DRAW_KEY)
  }

  function SortRepayOrder(facilities: seq<DebtFacility>): seq<DebtFacility> {
    Sort(facilities, REPAY_KEY)
  }

  lemma OrdersArePermutations(facilities: seq<DebtFacility>)
    ensures multiset(SortDrawOrder(facilities)) == multiset(facilities)
    ensures multiset(SortRepayOrder(facilities)) == multiset(facilities)
    ensures UniqueIds(facilities) ==> UniqueIds(SortDrawOrder(facilities)) && UniqueIds(SortRepayOrder(facilities))
  {
    SortProperties(facilities, DRAW_KEY);
    SortProperties(facilities, REPAY_KEY);
    if UniqueIds(facilities) {
      UniqueIdsPermutation(facilities, SortDrawOrder(facilities));
      UniqueIdsPermutation(facilities, SortRepayOrder(facilities));
    }
  }

  /** No two facilities are of the same type. */
  predicate TypesDiffer(facilities: seq<DebtFacility>) {
    forall i, j | 0 <= i < j < |facilities| :: facilities[i].facilityType != facilities[j].facilityType
  }

  /** The repayment order is the draw order reversed exactly when the types are all different. */
  lemma RepayReversesDrawIff(facilities: seq<DebtFacility>)
    requires UniqueIds(facilities)
    ensures SortRepayOrder(facilities) == Reversed(SortDrawOrder(facilities)) <==> TypesDiffer(facilities)
  {
    forall i, j | 0 <= i < j < |facilities|
      ensures facilities[i] != facilities[j]
    {
      assert Ids(facilities)[i] != Ids(facilities)[j];
    }
    forall i, j | 0 <= i < j < |facilities|
      ensures Map(DRAW_KEY, facilities)[i] == Map(DRAW_KEY, facilities)[j]
         <==> facilities[i].facilityType == facilities[j].facilityType
    {
    }
    ReversedIffNoTies(facilities, DRAW_KEY, REPAY_KEY);
  }

  /** Two revolvers are drawn and repaid in the same order. */
  lemma TwoRevolversExample(a: DebtFacility, b: DebtFacility)
    requires a.facilityType == b.facilityType == Revolver && a.facilityId != b.facilityId
    ensures SortDrawOrder([a, b]) == SortRepayOrder([a, b]) == [a, b]
    ensures SortRepayOrder([a, b]) != Reversed(SortDrawOrder([a, b]))
  {
    SortPair(a, b, DRAW_KEY);
    SortPair(a, b, REPAY_KEY);
    assert Reversed([a, b])[0] == b;
  }

  /** What the waterfall is given. An empty asset table switches asset linking off. */
  datatype Setup = Setup(
    closingCash: seq<real>,
    facilities: seq<DebtFacility>,
    minimumCash: real,
    assetValues: map<Asset, seq<real>>)

  function AssetBalance(s: Setup, a: Asset, t: nat): real {
    if a in s.assetValues && t < |s.assetValues[a]| then s.assetValues[a][t] else 0.0
  }

  function EffectiveLimit(s: Setup, f: DebtFacility, t: nat): real {
    if f.assetLinked.Some? && s.assetValues != map[] then
      Min(f.limit, AssetBalance(s, f.assetLinked.value, t) * f.advanceRate)
    else
      f.limit
  }

  /** The facilities as credit lines of period t, in the given order. */
  function Lines(s: Setup, order: seq<DebtFacility>, t: nat): seq<Line<FacilityId>> {
    if order == [] then []
    else [Line(order[0].facilityId, EffectiveLimit(s, order[0], t))] + Lines(s, order[1..], t)
  }

  lemma {:induction false} LineAt(s: Setup, order: seq<DebtFacility>, t: nat)
    ensures |Lines(s, order, t)| == |order|
    ensures forall i | 0 <= i < |order| ::
              Lines(s, order, t)[i] == Line(order[i].facilityId, EffectiveLimit(s, order[i], t))
  {
    if order != [] {
      LineAt(s, order[1..], t);
    }
  }

  lemma {:induction false} LinesDistinct(s: Setup, order: seq<DebtFacility>, t: nat)
    requires UniqueIds(order)
    ensures Distinct(Lines(s, order, t))
  {
    if order != [] {
      UniqueIdsTail(order);
      LinesDistinct(s, order[1..], t);
      LineAt(s, order[1..], t);
      assert Lines(s, order, t)[1..] == Lines(s, order[1..], t);
      assert forall j | 0 <= j < |order| - 1 :: order[1..][j] in order[1..];
    }
  }

  function OnHeadroom(s: Setup, balance: BalanceTable, t: nat): DebtFacility -> real {
    (f: DebtFacility) => Max(0.0, EffectiveLimit(s, f, t) - Bal(balance, f.facilityId))
  }

  /** Sums over the lines are sums over the facilities, so their order is immaterial. */
  lemma {:induction false} LineSums(s: Setup, order: seq<DebtFacility>, balance: BalanceTable, t: nat)
    ensures Debt(Lines(s, order, t), balance) == TotalBalance(order, balance)
    ensures Headroom(Lines(s, order, t), balance) == SumOver(order, OnHeadroom(s, balance, t))
  {
    if order != [] {
      LineSums(s, order[1..], balance, t);
      assert Lines(s, order, t)[1..] == Lines(s, order[1..], t);
    }
  }

  // ----- The run, period by period -----

  function DrawLines(s: Setup, t: nat): seq<Line<FacilityId>> {
    Lines(s, SortDrawOrder(s.facilities), t)
  }

  function RepayLines(s: Setup, t: nat): seq<Line<FacilityId>> {
    Lines(s, SortRepayOrder(s.facilities), t)
  }

  predicate Short(s: Setup, t: nat)
    requires t < |s.closingCash|
  {
    s.closingCash[t] < s.minimumCash
  }

  /** Period t: a shortfall to draw or an excess to repay; at exactly the minimum nothing moves. */
  function PeriodAt(s: Setup, t: nat): Period<FacilityId>
    requires t < |s.closingCash|
  {
    if Short(s, t) then Shortfall(DrawLines(s, t), s.minimumCash - s.closingCash[t])
    else Surplus(RepayLines(s, t), s.closingCash[t] - s.minimumCash)
  }

  function Run(s: Setup): seq<Period<FacilityId>> {
    seq(|s.closingCash|, t requires 0 <= t < |s.closingCash| => PeriodAt(s, t))
  }

  function Opening(facilities: seq<DebtFacility>): BalanceTable {
    map id | id in Ids(facilities) :: 0.0
  }

  /** Balances after the first n periods. */
  function After(s: Setup, n: nat): BalanceTable
    requires n <= |s.closingCash|
  {
    Balances(Run(s), Opening(s.facilities), n)
  }

  /** Cash drawn less cash repaid in period t. */
  function NetFunding(s: Setup, t: nat): real
    requires t < |s.closingCash|
  {
    Net(PeriodAt(s, t), After(s, t))
  }

  /** Total plug debt after the first n periods. */
  function DebtAfter(s: Setup, n: nat): real
    requires n <= |s.closingCash|
  {
    TotalBalance(s.facilities, After(s, n))
  }

  lemma AfterStep(s: Setup, t: nat)
    requires t < |s.closingCash|
    ensures After(s, t + 1) == Step(PeriodAt(s, t), After(s, t)).balance
  {
  }

  /** The facilities in the order of period t. */
  function OrderAt(s: Setup, t: nat): seq<DebtFacility>
    requires t < |s.closingCash|
  {
    if Short(s, t) then SortDrawOrder(s.facilities) else SortRepayOrder(s.facilities)
  }

  lemma PeriodFacts(s: Setup, t: nat)
    requires t < |s.closingCash|
    ensures PeriodAt(s, t).lines == Lines(s, OrderAt(s, t), t)
    ensures multiset(OrderAt(s, t)) == multiset(s.facilities)
    ensures UniqueIds(s.facilities) ==> UniqueIds(OrderAt(s, t)) && Distinct(PeriodAt(s, t).lines)
    ensures AllIn(PeriodAt(s, t).lines, Opening(s.facilities).Keys)
  {
    var order := OrderAt(s, t);
    OrdersArePermutations(s.facilities);
    LinesIn(s, order, t);
    if UniqueIds(s.facilities) {
      LinesDistinct(s, order, t);
    }
  }

  lemma LinesIn(s: Setup, order: seq<DebtFacility>, t: nat)
    requires multiset(order) == multiset(s.facilities)
    ensures AllIn(Lines(s, order, t), Opening(s.facilities).Keys)
  {
    LineAt(s, order, t);
    SameElements(order, s.facilities);
    forall j | 0 <= j < |order|
      ensures order[j].facilityId in Ids(s.facilities)
    {
      assert order[j] in s.facilities;
      FacilityListed(s.facilities, order[j]);
    }
  }

  lemma FacilityListed(facilities: seq<DebtFacility>, f: DebtFacility)
    requires f in facilities
    ensures f.facilityId in Ids(facilities)
  {
    var k :| 0 <= k < |facilities| && facilities[k] == f;
    assert Ids(facilities)[k] == f.facilityId;
  }

  lemma SameElements<T>(a: seq<T>, b: seq<T>)
    requires multiset(a) == multiset(b)
    ensures forall x :: x in a <==> x in b
  {
    forall x
      ensures x in a <==> x in b
    {
      assert x in a <==> x in multiset(a);
      assert x in b <==> x in multiset(b);
    }
  }

  lemma RunIsProper(s: Setup)
    ensures Proper(Run(s), Opening(s.facilities).Keys)
    ensures AllNonNegative(Opening(s.facilities))
  {
    forall t | 0 <= t < |Run(s)|
      ensures Run(s)[t].amount >= 0.0 && AllIn(Run(s)[t].lines, Opening(s.facilities).Keys)
    {
      PeriodFacts(s, t);
    }
  }

  // ----- Limits -----

  function LimitOf(facilities: seq<DebtFacility>): FacilityId -> real {
    id => LookupLimit(facilities, id)
  }

  function LookupLimit(facilities: seq<DebtFacility>, id: FacilityId): real {
    if facilities == [] then 0.0
    else if facilities[0].facilityId == id then facilities[0].limit
    else LookupLimit(facilities[1..], id)
  }

  lemma {:induction false} LookupLimitAt(facilities: seq<DebtFacility>, f: DebtFacility)
    requires UniqueIds(facilities) && f in facilities
    ensures LookupLimit(facilities, f.facilityId) == f.limit
  {
    UniqueIdsTail(facilities);
    if f != facilities[0] {
      LookupLimitAt(facilities[1..], f);
    }
  }

  /** Every balance stays between zero and its facility's limit. */
  ghost predicate WithinLimits(facilities: seq<DebtFacility>, balance: BalanceTable) {
    forall f | f in facilities :: 0.0 <= Bal(balance, f.facilityId) <= f.limit
  }

  lemma WithinOnLines(s: Setup, order: seq<DebtFacility>, balance: BalanceTable, t: nat)
    requires UniqueIds(s.facilities) && multiset(order) == multiset(s.facilities)
    ensures WithinLimits(s.facilities, balance) <==> Within(Lines(s, order, t), balance, LimitOf(s.facilities))
    ensures forall j | 0 <= j < |Lines(s, order, t)| ::
              Lines(s, order, t)[j].cap <= LimitOf(s.facilities)(Lines(s, order, t)[j].id)
  {
    LineAt(s, order, t);
    SameElements(order, s.facilities);
    forall f | f in s.facilities
      ensures LookupLimit(s.facilities, f.facilityId) == f.limit
    {
      LookupLimitAt(s.facilities, f);
    }
    assert forall j | 0 <= j < |order| :: order[j] in s.facilities;
    if Within(Lines(s, order, t), balance, LimitOf(s.facilities)) {
      forall f | f in s.facilities
        ensures 0.0 <= Bal(balance, f.facilityId) <= f.limit
      {
        var j :| 0 <= j < |order| && order[j] == f;
        assert Lines(s, order, t)[j].id == f.facilityId;
      }
    }
  }

  lemma StepKeepsLimits(s: Setup, t: nat)
    requires UniqueIds(s.facilities) && t < |s.closingCash|
    requires WithinLimits(s.facilities, After(s, t))
    ensures WithinLimits(s.facilities, After(s, t + 1))
  {
    AfterStep(s, t);
    PeriodFacts(s, t);
    var p, limit := PeriodAt(s, t), LimitOf(s.facilities);
    WithinOnLines(s, OrderAt(s, t), After(s, t), t);
    WithinOnLines(s, OrderAt(s, t), After(s, t + 1), t);
    PassStaysWithin(p, After(s, t), limit);
  }

  lemma PassStaysWithin(p: Period<FacilityId>, balance: BalanceTable, limit: FacilityId -> real)
    requires Distinct(p.lines) && p.amount >= 0.0 && Within(p.lines, balance, limit)
    requires forall j | 0 <= j < |p.lines| :: p.lines[j].cap <= limit(p.lines[j].id)
    ensures Within(p.lines, Step(p, balance).balance, limit)
  {
    if p.Shortfall? {
      DrawingStaysWithin(p.lines, balance, p.amount, limit);
    } else {
      RepayingStaysWithin(p.lines, balance, p.amount, limit);
    }
  }

  /** Over a whole run every balance stays within its limit, and the debt within the total. */
  lemma {:induction false} BalancesStayWithinLimits(s: Setup, n: nat)
    requires UniqueIds(s.facilities) && n <= |s.closingCash|
    ensures WithinLimits(s.facilities, After(s, n))
    ensures 0.0 <= DebtAfter(s, n) <= TotalLimit(s.facilities)
  {
    if n > 0 {
      BalancesStayWithinLimits(s, n - 1);
      StepKeepsLimits(s, n - 1);
    }
    SumOverMonotone(s.facilities, OnBalance(After(s, n)), LIMIT);
    SumOverNonNegative(s.facilities, OnBalance(After(s, n)));
  }

  // ----- Exactness -----

  /** Room left in period t given the balances before it. */
  function Room(s: Setup, t: nat): real
    requires t < |s.closingCash|
  {
    SumOver(s.facilities, OnHeadroom(s, After(s, t), t))
  }

  /** Drawing on all facilities in any order. */
  lemma DrawingIsExact(s: Setup, order: seq<DebtFacility>, balance: BalanceTable, shortfall: real, t: nat)
    requires UniqueIds(order) && multiset(order) == multiset(s.facilities) && shortfall >= 0.0
    ensures var p := DrawDown(Lines(s, order, t), balance, shortfall);
            && shortfall - p.left == Min(shortfall, SumOver(s.facilities, OnHeadroom(s, balance, t)))
            && TotalBalance(s.facilities, p.balance) == TotalBalance(s.facilities, balance) + (shortfall - p.left)
  {
    LinesDistinct(s, order, t);
    DrawDownIsExact(Lines(s, order, t), balance, shortfall);
    var after := DrawDown(Lines(s, order, t), balance, shortfall).balance;
    LineSums(s, order, balance, t);
    LineSums(s, order, after, t);
    SumOverPermutation(order, s.facilities, OnBalance(balance));
    SumOverPermutation(order, s.facilities, OnBalance(after));
    SumOverPermutation(order, s.facilities, OnHeadroom(s, balance, t));
    HeadroomNonNegative(Lines(s, order, t), balance);
  }

  /** Repaying all facilities in any order. */
  lemma RepayingIsExact(s: Setup, order: seq<DebtFacility>, balance: BalanceTable, excess: real, t: nat)
    requires UniqueIds(order) && multiset(order) == multiset(s.facilities) && excess >= 0.0
    requires NonNegative(Lines(s, order, t), balance)
    ensures var p := PayBack(Lines(s, order, t), balance, excess);
            && excess - p.left == Min(excess, TotalBalance(s.facilities, balance))
            && TotalBalance(s.facilities, p.balance) == TotalBalance(s.facilities, balance) - (excess - p.left)
  {
    LinesDistinct(s, order, t);
    PayBackIsExact(Lines(s, order, t), balance, excess);
    var after := PayBack(Lines(s, order, t), balance, excess).balance;
    LineSums(s, order, balance, t);
    LineSums(s, order, after, t);
    SumOverPermutation(order, s.facilities, OnBalance(balance));
    SumOverPermutation(order, s.facilities, OnBalance(after));
    DebtNonNegative(Lines(s, order, t), balance);
  }

  /** Cash moves by exactly the change in plug debt: shortfalls are met up to the room left,
      surpluses repay down to zero debt. */
  lemma FundingIsExact(s: Setup, t: nat)
    requires UniqueIds(s.facilities) && t < |s.closingCash|
    ensures NetFunding(s, t) == DebtAfter(s, t + 1) - DebtAfter(s, t)
    ensures NetFunding(s, t)
         == if Short(s, t)
            then Min(s.minimumCash - s.closingCash[t], Room(s, t))
            else -Min(s.closingCash[t] - s.minimumCash, DebtAfter(s, t))
  {
    AfterStep(s, t);
    PeriodFacts(s, t);
    var p, order := PeriodAt(s, t), OrderAt(s, t);
    if Short(s, t) {
      DrawingIsExact(s, order, After(s, t), p.amount, t);
    } else {
      RunIsProper(s);
      BalancesKeepShape(Run(s), Opening(s.facilities), t);
      RepayingIsExact(s, order, After(s, t), p.amount, t);
    }
  }

  // ----- Greed -----

  /** The first i facilities stand at their effective limit or above. */
  ghost predicate Full(s: Setup, order: seq<DebtFacility>, balance: BalanceTable, t: nat, i: nat)
    requires i <= |order|
  {
    forall h | 0 <= h < i :: Bal(balance, order[h].facilityId) >= EffectiveLimit(s, order[h], t)
  }

  /** The first i facilities owe nothing. */
  ghost predicate Cleared(order: seq<DebtFacility>, balance: BalanceTable, i: nat)
    requires i <= |order|
  {
    forall h | 0 <= h < i :: Bal(balance, order[h].facilityId) == 0.0
  }

  lemma OnLines(s: Setup, order: seq<DebtFacility>, balance: BalanceTable, t: nat, i: nat)
    requires i <= |order|
    ensures |Lines(s, order, t)| == |order|
    ensures FullBefore(Lines(s, order, t), balance, i) ==> Full(s, order, balance, t, i)
    ensures ClearedBefore(Lines(s, order, t), balance, i) ==> Cleared(order, balance, i)
  {
    LineAt(s, order, t);
    var lines := Lines(s, order, t);
    assert forall h | 0 <= h < i :: lines[h].id == order[h].facilityId && lines[h].cap == EffectiveLimit(s, order[h], t);
  }

  lemma DrawingInOrder(s: Setup, order: seq<DebtFacility>, balance: BalanceTable, shortfall: real, t: nat, i: nat)
    requires UniqueIds(order) && shortfall >= 0.0 && i < |order|
    ensures var after := DrawDown(Lines(s, order, t), balance, shortfall).balance;
            Bal(after, order[i].facilityId) > Bal(balance, order[i].facilityId) ==> Full(s, order, after, t, i)
  {
    LinesDistinct(s, order, t);
    LineAt(s, order, t);
    DrawDownIsGreedy(Lines(s, order, t), balance, shortfall, i);
    OnLines(s, order, DrawDown(Lines(s, order, t), balance, shortfall).balance, t, i);
  }

  lemma RepayingInOrder(s: Setup, order: seq<DebtFacility>, balance: BalanceTable, excess: real, t: nat, i: nat)
    requires UniqueIds(order) && excess >= 0.0 && i < |order|
    requires NonNegative(Lines(s, order, t), balance)
    ensures var after := PayBack(Lines(s, order, t), balance, excess).balance;
            Bal(after, order[i].facilityId) < Bal(balance, order[i].facilityId) ==> Cleared(order, after, i)
  {
    LinesDistinct(s, order, t);
    LineAt(s, order, t);
    PayBackIsGreedy(Lines(s, order, t), balance, excess, i);
    OnLines(s, order, PayBack(Lines(s, order, t), balance, excess).balance, t, i);
  }

  /** In a short period the i-th facility in draw order draws only if every earlier one stands
      at its effective limit or above. */
  lemma DrawsInOrder(s: Setup, t: nat, i: nat)
    requires UniqueIds(s.facilities) && t < |s.closingCash| && Short(s, t)
    requires i < |SortDrawOrder(s.facilities)|
    requires var id := SortDrawOrder(s.facilities)[i].facilityId; Bal(After(s, t + 1), id) > Bal(After(s, t), id)
    ensures Full(s, SortDrawOrder(s.facilities), After(s, t + 1), t, i)
  {
    AfterStep(s, t);
    PeriodFacts(s, t);
    DrawingInOrder(s, OrderAt(s, t), After(s, t), PeriodAt(s, t).amount, t, i);
  }

  /** In any other period the i-th facility in repayment order is repaid only if every earlier
      one is cleared. */
  lemma RepaysInOrder(s: Setup, t: nat, i: nat)
    requires UniqueIds(s.facilities) && t < |s.closingCash| && !Short(s, t)
    requires i < |SortRepayOrder(s.facilities)|
    requires var id := SortRepayOrder(s.facilities)[i].facilityId; Bal(After(s, t + 1), id) < Bal(After(s, t), id)
    ensures Cleared(SortRepayOrder(s.facilities), After(s, t + 1), i)
  {
    AfterStep(s, t);
    PeriodFacts(s, t);
    RunIsProper(s);
    BalancesKeepShape(Run(s), Opening(s.facilities), t);
    RepayingInOrder(s, OrderAt(s, t), After(s, t), PeriodAt(s, t).amount, t, i);
  }

  // ----- The pooled facility -----

  /** No asset holds a facility below its limit in period t. */
  predicate LinksAreSlack(s: Setup, t: nat) {
    forall f | f in s.facilities :: EffectiveLimit(s, f, t) == f.limit
  }

  predicate NoLinkBinds(s: Setup) {
    forall t: nat | t < |s.closingCash| :: LinksAreSlack(s, t)
  }

  /** A link is slack exactly when the asset, at the advance rate, covers the limit. */
  lemma SlackIffCovered(s: Setup, f: DebtFacility, t: nat)
    ensures EffectiveLimit(s, f, t) == f.limit
       <==> f.assetLinked.None? || s.assetValues == map[]
            || AssetBalance(s, f.assetLinked.value, t) * f.advanceRate >= f.limit
  {
  }

  /** Refinement: while no asset link binds the facilities together behave like one pooled facility
      with the summed limit. */
  lemma PooledFacility(s: Setup, t: nat)
    requires UniqueIds(s.facilities) && t < |s.closingCash| && LinksAreSlack(s, t)
    ensures DebtAfter(s, t + 1)
         == Clamp(DebtAfter(s, t) + s.minimumCash - s.closingCash[t], 0.0, TotalLimit(s.facilities))
  {
    FundingIsExact(s, t);
    BalancesStayWithinLimits(s, t);
    var balance := After(s, t);
    SumOverAdd(s.facilities, LIMIT, OnHeadroom(s, balance, t), OnBalance(balance));
  }

  lemma LinksStay(s: Setup, s': Setup)
    requires NoLinkBinds(s) && s'.assetValues == s.assetValues && |s'.closingCash| == |s.closingCash|
    requires forall f | f in s'.facilities :: f in s.facilities
    ensures NoLinkBinds(s')
  {
    forall t: nat | t < |s'.closingCash|
      ensures LinksAreSlack(s', t)
    {
      assert LinksAreSlack(s, t);
      assert forall f :: EffectiveLimit(s', f, t) == EffectiveLimit(s, f, t);
    }
  }

  lemma ReorderedSetup(s: Setup, facilities: seq<DebtFacility>)
    requires UniqueIds(s.facilities) && NoLinkBinds(s)
    requires multiset(facilities) == multiset(s.facilities)
    ensures UniqueIds(facilities) && NoLinkBinds(s.(facilities := facilities))
    ensures TotalLimit(facilities) == TotalLimit(s.facilities)
  {
    UniqueIdsPermutation(s.facilities, facilities);
    SameElements(s.facilities, facilities);
    SumOverPermutation(facilities, s.facilities, LIMIT);
    LinksStay(s, s.(facilities := facilities));
  }

  /** The debt path of a single pooled facility. */
  function PooledDebt(cash: seq<real>, minimumCash: real, limit: real, n: nat): real
    requires n <= |cash|
  {
    if n == 0 then 0.0
    else Clamp(PooledDebt(cash, minimumCash, limit, n - 1) + minimumCash - cash[n - 1], 0.0, limit)
  }

  /** The whole debt path is that of the pooled facility. */
  lemma {:induction false} DebtPathIsPooled(s: Setup, n: nat)
    requires UniqueIds(s.facilities) && NoLinkBinds(s) && n <= |s.closingCash|
    ensures DebtAfter(s, n) == PooledDebt(s.closingCash, s.minimumCash, TotalLimit(s.facilities), n)
  {
    if n == 0 {
      OpeningDebt(s.facilities, After(s, 0));
    } else {
      DebtPathIsPooled(s, n - 1);
      PooledFacility(s, n - 1);
    }
  }

  lemma {:induction false} OpeningDebt(facilities: seq<DebtFacility>, balance: BalanceTable)
    requires forall id :: Bal(balance, id) == 0.0
    ensures TotalBalance(facilities, balance) == 0.0
  {
    if facilities != [] {
      OpeningDebt(facilities[1..], balance);
    }
  }

  /** Hence it does not depend on how the facilities are listed, ... */
  lemma DebtIgnoresFacilityOrder(s: Setup, facilities: seq<DebtFacility>, n: nat)
    requires UniqueIds(s.facilities) && NoLinkBinds(s) && n <= |s.closingCash|
    requires multiset(facilities) == multiset(s.facilities)
    ensures DebtAfter(s.(facilities := facilities), n) == DebtAfter(s, n)
  {
    ReorderedSetup(s, facilities);
    DebtPathIsPooled(s, n);
    DebtPathIsPooled(s.(facilities := facilities), n);
  }

  /** ... and less cash never means less debt. */
  lemma LessCashMoreDebt(s: Setup, lower: seq<real>, n: nat)
    requires UniqueIds(s.facilities) && NoLinkBinds(s) && n <= |s.closingCash| == |lower|
    requires forall t | 0 <= t < n :: lower[t] <= s.closingCash[t]
    ensures DebtAfter(s.(closingCash := lower), n) >= DebtAfter(s, n)
  {
    LinksStay(s, s.(closingCash := lower));
    DebtPathIsPooled(s, n);
    DebtPathIsPooled(s.(closingCash := lower), n);
    PooledDebtAntitone(s.closingCash, lower, s.minimumCash, TotalLimit(s.facilities), n);
  }

  lemma {:induction false} PooledDebtAntitone(cash: seq<real>, lower: seq<real>, minimumCash: real, limit: real, n: nat)
    requires n <= |cash| == |lower|
    requires forall t | 0 <= t < n :: lower[t] <= cash[t]
    ensures PooledDebt(lower, minimumCash, limit, n) >= PooledDebt(cash, minimumCash, limit, n)
  {
    if n > 0 {
      PooledDebtAntitone(cash, lower, minimumCash, limit, n - 1);
    }
  }

  // ----- The run as a program -----

  /** One period's entries in the result lists. */
  datatype WaterfallRow = WaterfallRow(
    cashAfterFunding: real,
    overdraftInterest: real,
    waterfallInterest: real,
    waterfallDebt: real)

  datatype WaterfallResult = WaterfallResult(rows: seq<WaterfallRow>, additionalDraws: DrawTable<FacilityId>)

  function FacilityInterest(balance: BalanceTable): DebtFacility -> real {
    (f: DebtFacility) =>
      if Bal(balance, f.facilityId) > 0.0 then MonthlyInterest(f, Bal(balance, f.facilityId)) else 0.0
  }

  function OverdraftInterest(balance: BalanceTable): DebtFacility -> real {
    (f: DebtFacility) => if f.facilityType == Overdraft then FacilityInterest(balance)(f) else 0.0
  }

  /** The sum of the balance table's values: each identifier counts once. */
  function SumOfValues(facilities: seq<DebtFacility>, balance: BalanceTable): real {
    SumOver(Dedup(Ids(facilities)), OnId(balance))
  }

  function OnId(balance: BalanceTable): FacilityId -> real {
    id => Bal(balance, id)
  }

  lemma SumOfValuesIsTotal(facilities: seq<DebtFacility>, balance: BalanceTable)
    requires UniqueIds(facilities)
    ensures SumOfValues(facilities, balance) == TotalBalance(facilities, balance)
  {
    DedupOfNoDup(Ids(facilities));
    SumOverIds(facilities, balance);
  }

  lemma {:induction false} SumOverIds(facilities: seq<DebtFacility>, balance: BalanceTable)
    ensures SumOver(Ids(facilities), OnId(balance)) == TotalBalance(facilities, balance)
  {
    if facilities != [] {
      SumOverIds(facilities[1..], balance);
      assert Ids(facilities)[1..] == Ids(facilities[1..]);
    }
  }

  function NoDraws(facilities: seq<DebtFacility>, horizon: nat): DrawTable<FacilityId> {
    map id | id in Ids(facilities) :: Zeros(horizon)
  }

  /** The asset tables reach the horizon. */
  predicate Supported(s: Setup) {
    forall a | a in s.assetValues :: |s.closingCash| <= |s.assetValues[a]|
  }

  function BookRow(facilities: seq<DebtFacility>, balance: BalanceTable, cash: real): WaterfallRow {
    WaterfallRow(cash,
                 SumOver(facilities, OverdraftInterest(balance)),
                 SumOver(facilities, FacilityInterest(balance)),
                 SumOfValues(facilities, balance))
  }

  function RowAt(s: Setup, t: nat): WaterfallRow
    requires t < |s.closingCash|
  {
    BookRow(s.facilities, After(s, t + 1), s.closingCash[t] + NetFunding(s, t))
  }

  function RowsTo(s: Setup, n: nat): (rows: seq<WaterfallRow>)
    requires n <= |s.closingCash|
    ensures |rows| == n
  {
    if n == 0 then [] else RowsTo(s, n - 1) + [RowAt(s, n - 1)]
  }

  lemma {:induction false} RowsToAt(s: Setup, n: nat, t: nat)
    requires t < n <= |s.closingCash|
    ensures RowsTo(s, n)[t] == RowAt(s, t)
  {
    SnocAt(RowsTo(s, n - 1), RowAt(s, n - 1), t);
    if t < n - 1 {
      RowsToAt(s, n - 1, t);
    }
  }

  function DrawsAfter(s: Setup, n: nat): DrawTable<FacilityId>
    requires n <= |s.closingCash|
  {
    Draws(Run(s), Opening(s.facilities), NoDraws(s.facilities, |s.closingCash|), n)
  }

  /** A recorded draw is the rise of the facility's balance; nothing is recorded on a fall. */
  lemma RecordedDraws(s: Setup, f: DebtFacility, t: nat)
    requires UniqueIds(s.facilities) && f in s.facilities && t < |s.closingCash|
    ensures var draws := DrawsAfter(s, |s.closingCash|);
            && f.facilityId in draws && t < |draws[f.facilityId]|
            && draws[f.facilityId][t] == Rise(Bal(After(s, t), f.facilityId), Bal(After(s, t + 1), f.facilityId))
  {
    var i := LineOf(s, f, t);
    PeriodFacts(s, t);
    RunIsProper(s);
    FacilityListed(s.facilities, f);
    var blank := NoDraws(s.facilities, |s.closingCash|);
    assert blank[f.facilityId][t] == 0.0;
    DrawsRecordRises(Run(s), Opening(s.facilities), blank, |s.closingCash|, t, i, f.facilityId);
  }

  lemma LineOf(s: Setup, f: DebtFacility, t: nat) returns (i: nat)
    requires f in s.facilities && t < |s.closingCash|
    ensures i < |PeriodAt(s, t).lines| && PeriodAt(s, t).lines[i].id == f.facilityId
  {
    PeriodFacts(s, t);
    var order := OrderAt(s, t);
    SameElements(order, s.facilities);
    i :| 0 <= i < |order| && order[i] == f;
    LineAt(s, order, t);
  }

  /** Interest on the balances left after the period's draws and repayments. */
  method InterestLoop(facilities: seq<DebtFacility>, balance: BalanceTable) returns (waterfall: real, overdraft: real)
    requires balance.Keys == Opening(facilities).Keys
    ensures waterfall == SumOver(facilities, FacilityInterest(balance))
    ensures overdraft == SumOver(facilities, OverdraftInterest(balance))
  {
    waterfall, overdraft := 0.0, 0.0;
    for i := 0 to |facilities|
      invariant waterfall == SumOver(facilities[..i], FacilityInterest(balance))
      invariant overdraft == SumOver(facilities[..i], OverdraftInterest(balance))
    {
      var fac := facilities[i];
      FacilityListed(facilities, fac);
      SumOverTake(facilities, i, FacilityInterest(balance));
      SumOverTake(facilities, i, OverdraftInterest(balance));
      var bal := balance[fac.facilityId];
      if bal > 0.0 {
        var interest := MonthlyInterest(fac, bal);
        waterfall := waterfall + interest;
        if fac.facilityType == Overdraft {
          overdraft := overdraft + interest;
        }
      }
    }
    assert facilities[..|facilities|] == facilities;
  }

  method SumValues(ids: seq<FacilityId>, balance: BalanceTable) returns (total: real)
    requires forall id | id in ids :: id in balance
    ensures total == SumOver(ids, OnId(balance))
  {
    total := 0.0;
    for i := 0 to |ids|
      invariant total == SumOver(ids[..i], OnId(balance))
    {
      SumOverTake(ids, i, OnId(balance));
      assert ids[i] in ids;
      total := total + balance[ids[i]];
    }
    assert ids[..|ids|] == ids;
  }

  lemma TablesKeepShape(s: Setup, n: nat)
    requires n <= |s.closingCash|
    ensures After(s, n).Keys == Opening(s.facilities).Keys == DrawsAfter(s, n).Keys
    ensures AllNonNegative(After(s, n))
    ensures forall id | id in DrawsAfter(s, n) :: |DrawsAfter(s, n)[id]| == |s.closingCash|
  {
    RunIsProper(s);
    BalancesKeepShape(Run(s), Opening(s.facilities), n);
    var blank := NoDraws(s.facilities, |s.closingCash|);
    DrawsKeepKeys(Run(s), Opening(s.facilities), blank, n);
    forall id | id in blank {
      DrawsKeepShape(Run(s), Opening(s.facilities), blank, n, id);
    }
  }

  /** The result of the run: its rows and its table of draws. */
  function Waterfall(s: Setup): WaterfallResult {
    WaterfallResult(RowsTo(s, |s.closingCash|), DrawsAfter(s, |s.closingCash|))
  }

  /** The waterfall over the whole horizon. */
  method ApplyFundingWaterfall(s: Setup) returns (r: WaterfallResult)
    requires Supported(s)
    ensures r == Waterfall(s)
  {
    var horizon := |s.closingCash|;
    var draws, balance := NoDraws(s.facilities, horizon), Opening(s.facilities);
    if s.facilities == [] {
      IdleRun(s, horizon);
      return WaterfallResult(IdleRows(s.closingCash), draws);
    }
    var rows: seq<WaterfallRow> := [];
    for t := 0 to horizon
      invariant balance == After(s, t) && draws == DrawsAfter(s, t)
      invariant rows == RowsTo(s, t)
    {
      var row;
      balance, draws, row := FundPeriod(s, balance, draws, t);
      rows := rows + [row];
    }
    r := WaterfallResult(rows, draws);
  }

  lemma ReadyForPeriod(s: Setup, t: nat)
    requires t < |s.closingCash|
    ensures AllIn(PeriodAt(s, t).lines, After(s, t).Keys) && AllIn(PeriodAt(s, t).lines, DrawsAfter(s, t).Keys)
    ensures HasColumn(DrawsAfter(s, t), t) && AllNonNegative(After(s, t))
  {
    TablesKeepShape(s, t);
    PeriodFacts(s, t);
  }

  /** One turn of the period loop. */
  method FundPeriod(s: Setup, balance0: BalanceTable, draws0: DrawTable<FacilityId>, t: nat)
    returns (balance: BalanceTable, draws: DrawTable<FacilityId>, row: WaterfallRow)
    requires t < |s.closingCash| && balance0 == After(s, t) && draws0 == DrawsAfter(s, t)
    ensures balance == After(s, t + 1) && draws == DrawsAfter(s, t + 1)
    ensures row == RowAt(s, t)
  {
    ReadyForPeriod(s, t);
    var drawn, repaid;
    balance, draws, drawn, repaid := PeriodLoop(PeriodAt(s, t), balance0, draws0, t);
    assert balance == After(s, t + 1) by {
      AfterStep(s, t);
    }
    TablesKeepShape(s, t + 1);
    row := CloseBooks(s.facilities, balance, s.closingCash[t] + drawn - repaid);
  }

  /** Interest and total debt at the end of the period. */
  method CloseBooks(facilities: seq<DebtFacility>, balance: BalanceTable, cash: real) returns (row: WaterfallRow)
    requires balance.Keys == Opening(facilities).Keys
    ensures row == BookRow(facilities, balance, cash)
  {
    DedupKeepsElements(Ids(facilities));
    var waterfall, overdraft := InterestLoop(facilities, balance);
    var total := SumValues(Dedup(Ids(facilities)), balance);
    row := WaterfallRow(cash, overdraft, waterfall, total);
  }

  function IdleRows(cash: seq<real>): seq<WaterfallRow> {
    seq(|cash|, t requires 0 <= t < |cash| => WaterfallRow(cash[t], 0.0, 0.0, 0.0))
  }

  lemma NoLines(s: Setup, t: nat)
    requires s.facilities == [] && t < |s.closingCash|
    ensures PeriodAt(s, t).lines == []
  {
    PeriodFacts(s, t);
    assert |multiset(OrderAt(s, t))| == 0;
    assert OrderAt(s, t) == [];
  }

  lemma IdlePeriod(s: Setup, t: nat)
    requires s.facilities == [] && t < |s.closingCash| && After(s, t) == map[]
    ensures After(s, t + 1) == map[] && NetFunding(s, t) == 0.0
    ensures DrawsAfter(s, t + 1) == DrawsAfter(s, t)
  {
    AfterStep(s, t);
    NoLines(s, t);
  }

  lemma IdleRow(s: Setup, t: nat)
    requires s.facilities == [] && t < |s.closingCash| && After(s, t) == map[]
    ensures RowAt(s, t) == IdleRows(s.closingCash)[t]
  {
    IdlePeriod(s, t);
  }

  /** Without facilities nothing moves. */
  lemma {:induction false} IdleRun(s: Setup, n: nat)
    requires s.facilities == [] && n <= |s.closingCash|
    ensures After(s, n) == map[]
    ensures DrawsAfter(s, n) == NoDraws([], |s.closingCash|)
    ensures RowsTo(s, n) == IdleRows(s.closingCash)[..n]
  {
    if n > 0 {
      IdleRun(s, n - 1);
      IdlePeriod(s, n - 1);
      IdleRow(s, n - 1);
      TakeSnoc(IdleRows(s.closingCash), n - 1);
    }
  }
}
