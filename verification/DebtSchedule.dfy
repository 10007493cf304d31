/** Debt balances, interest, draws, repayments and the current/non-current split (debt.py). */
module DebtSchedule {
  import opened Facilities
  import opened RealArith
  import opened Sequences
  import opened Wrappers

  // ----- Schedules -----

  function AmountAt(month: int): DrawRepayPoint -> real {
    (p: DrawRepayPoint) => if p.month == month then p.amount else 0.0
  }

  /** Draws or repayments scheduled for a month. */
  function ScheduledAt(schedule: seq<DrawRepayPoint>, month: int): real {
    SumOver(schedule, AmountAt(month))
  }

  function AmountWithin(first: int, last: int): DrawRepayPoint -> real {
    (p: DrawRepayPoint) => if first <= p.month <= last then p.amount else 0.0
  }

  function WindowEnd(fromMonth: nat, horizon: nat): nat {
    if fromMonth + 12 < horizon then fromMonth + 12 else horizon
  }

  function RepaymentsDueNext12Months(schedule: seq<DrawRepayPoint>, fromMonth: nat, horizon: nat): real {
    SumOver(schedule, AmountWithin(fromMonth + 1, WindowEnd(fromMonth, horizon)))
  }

  // ----- One facility -----

  /** What one period does to a facility. */
  datatype Turn = Turn(balance: real, interest: real, draw: real, repay: real)

  predicate Converted(f: DebtFacility, t: nat) {
    f.convertsToEquityMonth.Some? && t >= f.convertsToEquityMonth.value
  }

  /** Repayment falling due in month t: the schedule is shifted by the grace period. */
  function RepayAt(f: DebtFacility, t: nat): real {
    if t < f.gracePeriodMonths then 0.0 else ScheduledAt(f.repaymentSchedule, t - f.gracePeriodMonths)
  }

  /** The balance before it is clamped. */
  function RawBalance(f: DebtFacility, balance: real, t: nat): real {
    balance + ScheduledAt(f.drawSchedule, t) - RepayAt(f, t)
  }

  /** The part of a month's interest that is added to the balance instead of being paid. */
  function Pik(f: DebtFacility, balance: real): real {
    PartOf(MonthlyInterest(f, balance), f.pikRate)
  }

  function PartOf(charge: real, part: real): real {
    charge * part
  }

  function TakeTurn(f: DebtFacility, balance: real, t: nat): Turn {
    if Converted(f, t) then
      Turn(0.0, 0.0, 0.0, if t == f.convertsToEquityMonth.value then balance else 0.0)
    else
      var clamped := Clamp(RawBalance(f, balance, t), 0.0, f.limit);
      var pik := Pik(f, clamped);
      Turn(clamped + pik, MonthlyInterest(f, clamped) - pik, ScheduledAt(f.drawSchedule, t), RepayAt(f, t))
  }

  /** Balance after the first n periods. */
  function BalanceAfter(f: DebtFacility, n: nat): real {
    if n == 0 then 0.0 else TakeTurn(f, BalanceAfter(f, n - 1), n - 1).balance
  }

  function TurnAt(f: DebtFacility, t: nat): Turn {
    TakeTurn(f, BalanceAfter(f, t), t)
  }

  /** The most a balance can reach: the limit plus one month's capitalised interest on it. */
  function Ceiling(f: DebtFacility): real {
    f.limit * (1.0 + f.interestRate * f.pikRate / 12.0)
  }

  lemma PikIs(balance: real, rate: real, pik: real)
    ensures balance * rate / 12.0 * pik == balance * (rate * pik / 12.0)
  {
  }

  lemma LimitTimes(limit: real, k: real)
    ensures limit * (1.0 + k) == limit + limit * k
  {
  }

  lemma PikBounds(f: DebtFacility, balance: real)
    requires balance >= 0.0
    ensures 0.0 <= Pik(f, balance) <= MonthlyInterest(f, balance)
  {
    InterestNonNegative(f, balance);
    PartIsLess(MonthlyInterest(f, balance), f.pikRate);
  }

  lemma InterestNonNegative(f: DebtFacility, balance: real)
    requires balance >= 0.0
    ensures MonthlyInterest(f, balance) >= 0.0
  {
    MulMono(0.0, balance, f.interestRate);
  }

  lemma PartIsLess(charge: real, part: real)
    requires charge >= 0.0 && 0.0 <= part <= 1.0
    ensures 0.0 <= PartOf(charge, part) <= charge
  {
    MulMono(0.0, part, charge);
    MulMono(part, 1.0, charge);
  }

  lemma BalanceWithPik(f: DebtFacility, balance: real)
    requires 0.0 <= balance <= f.limit
    ensures 0.0 <= balance + Pik(f, balance) <= Ceiling(f)
  {
    var k := f.interestRate * f.pikRate / 12.0;
    PikIs(balance, f.interestRate, f.pikRate);
    MulMono(0.0, f.pikRate, f.interestRate);
    assert Pik(f, balance) == balance * k && Ceiling(f) == f.limit * (1.0 + k);
    Grows(balance, f.limit, k);
  }

  lemma Grows(balance: real, limit: real, k: real)
    requires 0.0 <= balance <= limit && k >= 0.0
    ensures 0.0 <= balance + balance * k <= limit * (1.0 + k)
  {
    LimitTimes(limit, k);
    MulMono(0.0, balance, k);
    MulMono(balance, limit, k);
  }

  lemma TurnBounds(f: DebtFacility, balance: real, t: nat)
    ensures 0.0 <= TakeTurn(f, balance, t).balance <= Ceiling(f)
  {
    if Converted(f, t) {
      BalanceWithPik(f, 0.0);
    } else {
      BalanceWithPik(f, Clamp(RawBalance(f, balance, t), 0.0, f.limit));
    }
  }

  /** Every balance of every facility stays within its ceiling in every period. */
  lemma BalanceBounds(f: DebtFacility, n: nat)
    ensures 0.0 <= BalanceAfter(f, n) <= Ceiling(f)
  {
    if n > 0 {
      TurnBounds(f, BalanceAfter(f, n - 1), n - 1);
    } else {
      TurnBounds(f, 0.0, 0);
    }
  }

  predicate ClampBites(f: DebtFacility, t: nat) {
    !Converted(f, t) && !(0.0 <= RawBalance(f, BalanceAfter(f, t), t) <= f.limit)
  }

  /** The interest capitalised in period t: on what is owed after draws and repayments, if that is
      within the limits. */
  function Capitalised(f: DebtFacility, t: nat): real {
    if Converted(f, t) then 0.0 else Pik(f, Clamp(RawBalance(f, BalanceAfter(f, t), t), 0.0, f.limit))
  }

  /** The balance rolls forward by draws less repayments plus capitalised interest exactly when the
      clamp does not bite, before, at and after a conversion. */
  lemma RollForward(f: DebtFacility, t: nat)
    ensures BalanceAfter(f, t + 1) - BalanceAfter(f, t) == TurnAt(f, t).draw - TurnAt(f, t).repay + Capitalised(f, t)
       <==> !ClampBites(f, t)
  {
    if Converted(f, t) {
      ConvertedIsGone(f, t);
    }
  }

  /** All interest on what is owed is either paid or capitalised. */
  lemma InterestIsSplit(f: DebtFacility, t: nat)
    requires !Converted(f, t) && !ClampBites(f, t)
    ensures var charged := MonthlyInterest(f, RawBalance(f, BalanceAfter(f, t), t));
            TurnAt(f, t).interest + Capitalised(f, t) == charged && 0.0 <= Capitalised(f, t) <= charged
  {
    var owed := RawBalance(f, BalanceAfter(f, t), t);
    assert Clamp(owed, 0.0, f.limit) == owed;
    PikBounds(f, owed);
  }

  /** Twelve times a month's interest is the annual rate on the debt after draws and repayments; the
      capitalised part is its share of that. Nothing is charged from a conversion on. */
  lemma InterestIsATwelfth(f: DebtFacility, t: nat)
    ensures Converted(f, t) ==> TurnAt(f, t).interest == Capitalised(f, t) == 0.0
    ensures !Converted(f, t) ==>
              var year := Times(f.interestRate, BalanceAfter(f, t + 1) - Capitalised(f, t));
              && 12.0 * (TurnAt(f, t).interest + Capitalised(f, t)) == year
              && 12.0 * Capitalised(f, t) == Times(f.pikRate, year)
  {
    if !Converted(f, t) {
      var owed := Clamp(RawBalance(f, BalanceAfter(f, t), t), 0.0, f.limit);
      YearOf(f, owed);
    }
  }

  lemma YearOf(f: DebtFacility, owed: real)
    ensures 12.0 * MonthlyInterest(f, owed) == Times(f.interestRate, owed)
    ensures 12.0 * Pik(f, owed) == Times(f.pikRate, Times(f.interestRate, owed))
  {
    TwelfthOf(MonthlyInterest(f, owed), f.pikRate);
  }

  lemma TwelfthOf(month: real, part: real)
    ensures 12.0 * PartOf(month, part) == Times(part, 12.0 * month)
  {
  }

  lemma {:induction false} ConvertedIsGone(f: DebtFacility, t: nat)
    requires Converted(f, t)
    ensures BalanceAfter(f, t + 1) == 0.0
    ensures t > f.convertsToEquityMonth.value ==> BalanceAfter(f, t) == 0.0
  {
  }

  // ----- Conversion to equity -----

  /** The equity raise booked for a facility's conversion. */
  function ConversionAmount(f: DebtFacility): real
    requires f.convertsToEquityMonth.Some?
  {
    var c := f.convertsToEquityMonth.value;
    if c > 0 then BalanceAfter(f, c) else ScheduledAt(f.drawSchedule, 0)
  }

  /** Converting is cash-neutral - the raise equals both the repayment reported and the debt
      removed - exactly if it happens after month 0 or nothing was to be drawn in month 0. */
  lemma ConversionIsNeutral(f: DebtFacility)
    requires f.convertsToEquityMonth.Some?
    ensures var c := f.convertsToEquityMonth.value;
            && (ConversionAmount(f) == TurnAt(f, c).repay <==> c > 0 || ScheduledAt(f.drawSchedule, 0) == 0.0)
            && (BalanceAfter(f, c + 1) + ConversionAmount(f) == BalanceAfter(f, c)
                <==> c > 0 || ScheduledAt(f.drawSchedule, 0) == 0.0)
  {
    ConvertedIsGone(f, f.convertsToEquityMonth.value);
  }

  /** A facility drawn and converted in month 0 books a raise that no debt backs. */
  lemma MonthZeroConversionExample()
    ensures var f := FacilityRecord(FacilityId("note"), TermLoan, 100.0, 0.0, [DrawRepayPoint(0, 60.0)], [], false, 0.0, 0,
                                    Some(0), None, 1.0);
            && Admissible(f)
            && ConversionAmount(f) == 60.0 && TurnAt(f, 0).repay == 0.0
            && BalanceAfter(f, 0) == BalanceAfter(f, 1) == 0.0
  {
    var schedule := [DrawRepayPoint(0, 60.0)];
    SumOverOne(schedule[0], AmountAt(0));
  }

  // ----- All facilities -----

  /** Totals of one period over all facilities. */
  datatype DebtRow = DebtRow(interest: real, draws: real, repayments: real)

  /** The current and the non-current part of the debt at the end of a period. */
  datatype DebtSplit = DebtSplit(current: real, nonCurrent: real)

  datatype DebtScheduleResult = DebtScheduleResult(
    balancePerPeriod: map<FacilityId, seq<real>>,
    rows: seq<DebtRow>,
    splits: seq<DebtSplit>)

  function AddTurn(row: DebtRow, turn: Turn): DebtRow {
    DebtRow(row.interest + turn.interest, row.draws + turn.draw, row.repayments + turn.repay)
  }

  /** Cash-plug facilities are skipped. */
  function RowOver(facilities: seq<DebtFacility>, t: nat): DebtRow {
    if facilities == [] then DebtRow(0.0, 0.0, 0.0)
    else
      var last, before := facilities[|facilities| - 1], RowOver(facilities[..|facilities| - 1], t);
      if last.isCashPlug then before else AddTurn(before, TurnAt(last, t))
  }

  function BalancesOf(f: DebtFacility, horizon: nat): seq<real> {
    seq(horizon, t requires 0 <= t < horizon => BalanceAfter(f, t + 1))
  }

  function BalanceMap(facilities: seq<DebtFacility>, horizon: nat): map<FacilityId, seq<real>> {
    if facilities == [] then map[]
    else
      var last, before := facilities[|facilities| - 1], BalanceMap(facilities[..|facilities| - 1], horizon);
      if last.isCashPlug then before else before[last.facilityId := BalancesOf(last, horizon)]
  }

  function BalanceIn(table: map<FacilityId, seq<real>>, id: FacilityId, t: nat): real {
    if id in table && t < |table[id]| then table[id][t] else 0.0
  }

  /** The part of a balance due within twelve months. */
  function CurrentOf(f: DebtFacility, balance: real, t: nat, horizon: nat): real {
    Min(balance, RepaymentsDueNext12Months(f.repaymentSchedule, t, horizon))
  }

  function AddSplit(split: DebtSplit, f: DebtFacility, balance: real, t: nat, horizon: nat): DebtSplit {
    var current := CurrentOf(f, balance, t, horizon);
    DebtSplit(split.current + current, split.nonCurrent + (balance - current))
  }

  function SplitOver(facilities: seq<DebtFacility>, table: map<FacilityId, seq<real>>, t: nat, horizon: nat): DebtSplit {
    if facilities == [] then DebtSplit(0.0, 0.0)
    else
      var last, before := facilities[|facilities| - 1], SplitOver(facilities[..|facilities| - 1], table, t, horizon);
      if last.isCashPlug then before else AddSplit(before, last, BalanceIn(table, last.facilityId, t), t, horizon)
  }

  function RowsOver(facilities: seq<DebtFacility>, horizon: nat): seq<DebtRow> {
    seq(horizon, t requires 0 <= t < horizon => RowOver(facilities, t))
  }

  function SplitsOver(facilities: seq<DebtFacility>, horizon: nat): seq<DebtSplit> {
    seq(horizon, t requires 0 <= t < horizon => SplitOver(facilities, BalanceMap(facilities, horizon), t, horizon))
  }

  /** The whole schedule. */
  function Schedule(facilities: seq<DebtFacility>, horizon: nat): DebtScheduleResult {
    DebtScheduleResult(BalanceMap(facilities, horizon), RowsOver(facilities, horizon), SplitsOver(facilities, horizon))
  }

  /** Total debt after the first n periods. */
  function TotalDebt(facilities: seq<DebtFacility>, n: nat): real {
    if facilities == [] then 0.0
    else
      var last, before := facilities[|facilities| - 1], TotalDebt(facilities[..|facilities| - 1], n);
      if last.isCashPlug then before else before + BalanceAfter(last, n)
  }

  lemma UniqueIdsInit(facilities: seq<DebtFacility>)
    requires UniqueIds(facilities) && facilities != []
    ensures UniqueIds(facilities[..|facilities| - 1])
    ensures forall f | f in facilities[..|facilities| - 1] :: f.facilityId != facilities[|facilities| - 1].facilityId
  {
    var n, ids := |facilities| - 1, Ids(facilities);
    assert Ids(facilities[..n]) == ids[..n];
    forall f | f in facilities[..n]
      ensures f.facilityId != facilities[n].facilityId
    {
      var k :| 0 <= k < n && facilities[..n][k] == f;
      assert ids[k] != ids[n];
    }
  }

  lemma {:induction false} BalanceMapAt(facilities: seq<DebtFacility>, horizon: nat, f: DebtFacility)
    requires UniqueIds(facilities) && f in facilities && !f.isCashPlug
    ensures f.facilityId in BalanceMap(facilities, horizon)
    ensures BalanceMap(facilities, horizon)[f.facilityId] == BalancesOf(f, horizon)
  {
    UniqueIdsInit(facilities);
    var last := facilities[|facilities| - 1];
    assert facilities == facilities[..|facilities| - 1] + [last];
    if f != last {
      BalanceMapAt(facilities[..|facilities| - 1], horizon, f);
    }
  }

  /** Current and non-current debt together are the balances, and the non-current part is
      never negative. */
  lemma SplitIsTotalDebt(facilities: seq<DebtFacility>, t: nat, horizon: nat)
    requires UniqueIds(facilities) && t < horizon
    ensures var split := Schedule(facilities, horizon).splits[t];
            && split.current + split.nonCurrent == TotalDebt(facilities, t + 1)
            && split.nonCurrent >= 0.0
  {
    forall f | f in facilities && !f.isCashPlug
      ensures BalanceIn(BalanceMap(facilities, horizon), f.facilityId, t) == BalanceAfter(f, t + 1)
    {
      BalanceMapAt(facilities, horizon, f);
    }
    SplitAdds(facilities, BalanceMap(facilities, horizon), t, horizon);
  }

  lemma {:induction false} SplitAdds(facilities: seq<DebtFacility>, table: map<FacilityId, seq<real>>, t: nat, horizon: nat)
    requires forall f | f in facilities && !f.isCashPlug :: BalanceIn(table, f.facilityId, t) == BalanceAfter(f, t + 1)
    ensures var split := SplitOver(facilities, table, t, horizon);
            && split.current + split.nonCurrent == TotalDebt(facilities, t + 1)
            && split.nonCurrent >= 0.0
  {
    if facilities != [] {
      var last := facilities[|facilities| - 1];
      assert last in facilities;
      assert forall f | f in facilities[..|facilities| - 1] :: f in facilities;
      SplitAdds(facilities[..|facilities| - 1], table, t, horizon);
    }
  }

  /** The interest capitalised in period t on all facilities, cash plugs apart. */
  function TotalCapitalised(facilities: seq<DebtFacility>, t: nat): real {
    if facilities == [] then 0.0
    else
      var last, before := facilities[|facilities| - 1], TotalCapitalised(facilities[..|facilities| - 1], t);
      if last.isCashPlug then before else before + Capitalised(last, t)
  }

  /** Debt in total rolls forward by reported draws less reported repayments plus capitalised interest
      whenever no clamp bites, across grace periods and conversions. */
  lemma {:induction false} TotalRollForward(facilities: seq<DebtFacility>, t: nat)
    requires forall f | f in facilities && !f.isCashPlug :: !ClampBites(f, t)
    ensures TotalDebt(facilities, t + 1) - TotalDebt(facilities, t)
         == RowOver(facilities, t).draws - RowOver(facilities, t).repayments + TotalCapitalised(facilities, t)
  {
    if facilities != [] {
      var last := facilities[|facilities| - 1];
      assert last in facilities;
      assert forall f | f in facilities[..|facilities| - 1] :: f in facilities;
      TotalRollForward(facilities[..|facilities| - 1], t);
      if !last.isCashPlug {
        RollForward(last, t);
      }
    }
  }

  // ----- The current portion: grace periods, conversions and the end of the plan -----

  /** The last period of the twelve-month window that the plan still has: where the window reaches the
      horizon its last month is no period any more. */
  function LastReported(fromMonth: nat, horizon: nat): nat
    requires fromMonth < horizon
  {
    if fromMonth + 12 < horizon then fromMonth + 12 else horizon - 1
  }

  /** What a facility reports as repaid from month first to month last. */
  function RepaidWithin(f: DebtFacility, first: nat, last: nat): real
    decreases last + 1 - first
  {
    if first > last then 0.0 else TurnAt(f, first).repay + RepaidWithin(f, first + 1, last)
  }

  /** The facility with another repayment schedule. */
  function Rescheduled(f: DebtFacility, schedule: seq<DrawRepayPoint>): DebtFacility {
    f.(repaymentSchedule := schedule)
  }

  lemma OnePoint(month: int, amount: real, at: int)
    ensures ScheduledAt([DrawRepayPoint(month, amount)], at) == if at == month then amount else 0.0
  {
    SumOverOne(DrawRepayPoint(month, amount), AmountAt(at));
  }

  /** A turn depends on the repayment schedule only through what falls due in it. */
  lemma SameTurn(f: DebtFacility, schedule: seq<DrawRepayPoint>, schedule': seq<DrawRepayPoint>, balance: real, t: nat)
    requires RepayAt(Rescheduled(f, schedule), t) == RepayAt(Rescheduled(f, schedule'), t)
    ensures TakeTurn(Rescheduled(f, schedule), balance, t) == TakeTurn(Rescheduled(f, schedule'), balance, t)
  {
    var clamped := Clamp(RawBalance(Rescheduled(f, schedule), balance, t), 0.0, f.limit);
    SameInterest(f, schedule, clamped);
    SameInterest(f, schedule', clamped);
  }

  lemma SameInterest(f: DebtFacility, schedule: seq<DrawRepayPoint>, balance: real)
    ensures MonthlyInterest(Rescheduled(f, schedule), balance) == MonthlyInterest(f, balance)
    ensures Pik(Rescheduled(f, schedule), balance) == Pik(f, balance)
  {
  }

  /** A repayment due at the end of the window does not change a balance before. */
  lemma {:induction false} LatePointUnfelt(f: DebtFacility, end: nat, amount: real, n: nat)
    requires n <= end
    ensures BalanceAfter(Rescheduled(f, [DrawRepayPoint(end, amount)]), n) == BalanceAfter(Rescheduled(f, []), n)
  {
    if n > 0 {
      LatePointUnfelt(f, end, amount, n - 1);
      OnePoint(end, amount, n - 1 - f.gracePeriodMonths);
      SameTurn(f, [DrawRepayPoint(end, amount)], [], BalanceAfter(Rescheduled(f, []), n - 1), n - 1);
    }
  }

  /** Put off by grace, overtaken by a conversion or falling due after the last period, it is not
      reported within the window at all. */
  lemma {:induction false} LatePointUnpaid(f: DebtFacility, end: nat, amount: real, first: nat, last: nat)
    requires last <= end && (f.gracePeriodMonths > 0 || Converted(f, end) || last < end)
    ensures RepaidWithin(Rescheduled(f, [DrawRepayPoint(end, amount)]), first, last) == RepaidWithin(Rescheduled(f, []), first, last)
    decreases last + 1 - first
  {
    if first <= last {
      LatePointUnpaid(f, end, amount, first + 1, last);
      LatePointUnfelt(f, end, amount, first);
      OnePoint(end, amount, first - f.gracePeriodMonths);
    }
  }

  lemma PaidLater(f: DebtFacility, month: nat)
    requires !Converted(f, month + f.gracePeriodMonths)
    ensures TurnAt(f, month + f.gracePeriodMonths).repay == ScheduledAt(f.repaymentSchedule, month)
  {
  }

  /** What is scheduled for a window is repaid a grace period later, unless a conversion comes first. */
  lemma {:induction false} PaidAsScheduled(f: DebtFacility, first: nat, last: nat)
    requires !Converted(f, last + f.gracePeriodMonths)
    ensures RepaidWithin(f, first + f.gracePeriodMonths, last + f.gracePeriodMonths)
         == SumOver(f.repaymentSchedule, AmountWithin(first, last))
    decreases last + 1 - first
  {
    if first > last {
      SumOverSame(f.repaymentSchedule, AmountWithin(first, last), (p: DrawRepayPoint) => 0.0);
      NoAmounts(f.repaymentSchedule);
    } else {
      PaidAsScheduled(f, first + 1, last);
      PaidLater(f, first);
      SumOverAdd(f.repaymentSchedule, AmountWithin(first, last), AmountAt(first), AmountWithin(first + 1, last));
    }
  }

  /** What a facility reports as drawn from month first to month last. */
  function DrawnWithin(f: DebtFacility, first: nat, last: nat): real
    decreases last + 1 - first
  {
    if first > last then 0.0 else TurnAt(f, first).draw + DrawnWithin(f, first + 1, last)
  }

  /** Until a conversion everything scheduled for a window is drawn in it. */
  lemma {:induction false} DrawnAsScheduled(f: DebtFacility, first: nat, last: nat)
    requires !Converted(f, last)
    ensures DrawnWithin(f, first, last) == SumOver(f.drawSchedule, AmountWithin(first, last))
    decreases last + 1 - first
  {
    if first > last {
      SumOverSame(f.drawSchedule, AmountWithin(first, last), (p: DrawRepayPoint) => 0.0);
      NoAmounts(f.drawSchedule);
    } else {
      DrawnAsScheduled(f, first + 1, last);
      SumOverAdd(f.drawSchedule, AmountWithin(first, last), AmountAt(first), AmountWithin(first + 1, last));
    }
  }

  lemma {:induction false} NoAmounts(schedule: seq<DrawRepayPoint>)
    ensures SumOver(schedule, (p: DrawRepayPoint) => 0.0) == 0.0
  {
    if schedule != [] {
      NoAmounts(schedule[1..]);
    }
  }

  /** Whether what the window counts as due is what its periods report as repaid, whatever is
      scheduled. */
  ghost predicate DueIsRepaid(f: DebtFacility, fromMonth: nat, horizon: nat)
    requires fromMonth < horizon
  {
    forall schedule :: RepaymentsDueNext12Months(schedule, fromMonth, horizon)
                    == RepaidWithin(Rescheduled(f, schedule), fromMonth + 1, LastReported(fromMonth, horizon))
  }

  /** What the current portion counts as due is what the remaining periods of the window report as
      repaid, for every repayment schedule, exactly when the facility has no grace period, does not
      convert by the end of the window, and the window ends before the plan does. */
  lemma DueIsRepaidIff(f: DebtFacility, fromMonth: nat, horizon: nat)
    requires fromMonth < horizon
    ensures DueIsRepaid(f, fromMonth, horizon)
       <==> f.gracePeriodMonths == 0 && !Converted(f, WindowEnd(fromMonth, horizon)) && fromMonth + 12 < horizon
  {
    var end, last := WindowEnd(fromMonth, horizon), LastReported(fromMonth, horizon);
    if f.gracePeriodMonths == 0 && !Converted(f, end) && fromMonth + 12 < horizon {
      forall schedule
        ensures RepaymentsDueNext12Months(schedule, fromMonth, horizon)
             == RepaidWithin(Rescheduled(f, schedule), fromMonth + 1, last)
      {
        PaidAsScheduled(Rescheduled(f, schedule), fromMonth + 1, end);
      }
    } else {
      var amount := RepaidWithin(Rescheduled(f, []), fromMonth + 1, last) + 1.0;
      LatePointUnpaid(f, end, amount, fromMonth + 1, last);
      SumOverOne(DrawRepayPoint(end, amount), AmountWithin(fromMonth + 1, end));
      assert RepaymentsDueNext12Months([DrawRepayPoint(end, amount)], fromMonth, horizon) == amount;
    }
  }

  /** The current portion shown for one facility. */
  function CurrentPortion(f: DebtFacility, t: nat, horizon: nat): real {
    CurrentOf(f, BalanceAfter(f, t + 1), t, horizon)
  }

  /** Drawn once, in month 0, and to be repaid once. */
  predicate DrawnOnce(f: DebtFacility, drawn: real, month: nat, amount: real) {
    && f.drawSchedule == [DrawRepayPoint(0, drawn)] && 0.0 < drawn <= f.limit
    && f.repaymentSchedule == [DrawRepayPoint(month, amount)]
    && f.pikRate == 0.0
  }

  lemma NoPik(f: DebtFacility, balance: real)
    requires f.pikRate == 0.0
    ensures MonthlyInterest(f, balance) * f.pikRate == 0.0
  {
  }

  /** Until it is repaid or converted, what was drawn is owed. */
  lemma {:induction false} OwedUntil(f: DebtFacility, drawn: real, month: nat, amount: real, n: nat)
    requires DrawnOnce(f, drawn, month, amount) && 0 < n <= month + f.gracePeriodMonths && 0 < month
    requires f.convertsToEquityMonth.Some? ==> n <= f.convertsToEquityMonth.value
    ensures BalanceAfter(f, n) == drawn
  {
    OnePoint(0, drawn, n - 1);
    OnePoint(month, amount, n - 1 - f.gracePeriodMonths);
    NoPik(f, drawn);
    if n > 1 {
      OwedUntil(f, drawn, month, amount, n - 1);
    }
  }

  lemma PortionDue(f: DebtFacility, drawn: real, month: nat, amount: real, horizon: nat)
    requires DrawnOnce(f, drawn, month, amount) && 0 < month <= WindowEnd(0, horizon) && amount <= drawn
    requires f.convertsToEquityMonth.Some? ==> 0 < f.convertsToEquityMonth.value
    ensures CurrentPortion(f, 0, horizon) == amount
  {
    OwedUntil(f, drawn, month, amount, 1);
    SumOverOne(DrawRepayPoint(month, amount), AmountWithin(1, WindowEnd(0, horizon)));
  }

  lemma {:induction false} NothingRepaid(f: DebtFacility, drawn: real, month: nat, amount: real, first: nat, last: nat)
    requires DrawnOnce(f, drawn, month, amount) && f.convertsToEquityMonth.None? && last < month + f.gracePeriodMonths
    ensures RepaidWithin(f, first, last) == 0.0
    decreases last + 1 - first
  {
    if first <= last {
      NothingRepaid(f, drawn, month, amount, first + 1, last);
      OnePoint(month, amount, first - f.gracePeriodMonths);
    }
  }

  /** A repayment that grace puts off beyond the window is shown as current, and not made in it. */
  lemma GraceExample(f: DebtFacility, drawn: real, month: nat, horizon: nat)
    requires DrawnOnce(f, drawn, month, drawn) && f.convertsToEquityMonth.None?
    requires 0 < month <= WindowEnd(0, horizon) < month + f.gracePeriodMonths
    ensures CurrentPortion(f, 0, horizon) == drawn
    ensures RepaidWithin(f, 1, LastReported(0, horizon)) == 0.0
  {
    PortionDue(f, drawn, month, drawn, horizon);
    NothingRepaid(f, drawn, month, drawn, 1, LastReported(0, horizon));
  }

  lemma {:induction false} ConvertedOnce(f: DebtFacility, drawn: real, month: nat, amount: real, first: nat, last: nat)
    requires DrawnOnce(f, drawn, month, amount) && 0 < first
    requires f.convertsToEquityMonth.Some? && 0 < f.convertsToEquityMonth.value < month + f.gracePeriodMonths && 0 < month
    ensures RepaidWithin(f, first, last) == if first <= f.convertsToEquityMonth.value <= last then drawn else 0.0
    decreases last + 1 - first
  {
    var c := f.convertsToEquityMonth.value;
    if first <= last {
      ConvertedOnce(f, drawn, month, amount, first + 1, last);
      OnePoint(month, amount, first - f.gracePeriodMonths);
      OwedUntil(f, drawn, month, amount, c);
    }
  }

  /** A conversion within the window reports all that is owed as repaid, where the current portion
      shows the repayment scheduled for after it, which is never made. */
  lemma ConversionExample(f: DebtFacility, drawn: real, month: nat, amount: real, horizon: nat)
    requires DrawnOnce(f, drawn, month, amount) && f.gracePeriodMonths == 0 && amount < drawn
    requires f.convertsToEquityMonth.Some? && 0 < f.convertsToEquityMonth.value < month <= WindowEnd(0, horizon)
    ensures CurrentPortion(f, 0, horizon) == amount < drawn == RepaidWithin(f, 1, LastReported(0, horizon))
    ensures TurnAt(f, month).repay == 0.0
  {
    PortionDue(f, drawn, month, amount, horizon);
    ConvertedOnce(f, drawn, month, amount, 1, LastReported(0, horizon));
  }

  /** The rows of a schedule of one facility are what it reports. */
  lemma LoneRow(f: DebtFacility, t: nat, horizon: nat)
    requires t < horizon && !f.isCashPlug
    ensures var row, turn := Schedule([f], horizon).rows[t], TurnAt(f, t);
            row.repayments == turn.repay && row.draws == turn.draw && row.interest == turn.interest
  {
    assert [f][..0] == [];
    assert RowOver([f], t) == AddTurn(RowOver([], t), TurnAt(f, t));
  }

  /** A plan of a year or less: what is to be repaid in the month it ends with is shown as current,
      and no period of the plan reports any repayment. */
  lemma EndOfPlanExample(f: DebtFacility, drawn: real, horizon: nat)
    requires DrawnOnce(f, drawn, horizon, drawn) && 0 < horizon <= 12
    requires f.gracePeriodMonths == 0 && f.convertsToEquityMonth.None? && !f.isCashPlug
    ensures CurrentPortion(f, 0, horizon) == RepaymentsDueNext12Months(f.repaymentSchedule, 0, horizon) == drawn
    ensures forall t: nat | t < horizon :: Schedule([f], horizon).rows[t].repayments == 0.0
  {
    PortionDue(f, drawn, horizon, drawn, horizon);
    SumOverOne(DrawRepayPoint(horizon, drawn), AmountWithin(1, horizon));
    forall t: nat | t < horizon
      ensures Schedule([f], horizon).rows[t].repayments == 0.0
    {
      LoneRow(f, t, horizon);
      OnePoint(horizon, drawn, t);
    }
  }

  // ----- The loops -----

  /** The period loop of one facility, adding into the totals in place. */
  method ScheduleFacility(f: DebtFacility, horizon: nat, rows0: seq<DebtRow>)
    returns (balances: seq<real>, rows: seq<DebtRow>)
    requires |rows0| == horizon
    ensures balances == BalancesOf(f, horizon)
    ensures |rows| == horizon
    ensures forall t: nat | t < horizon :: rows[t] == AddTurn(rows0[t], TurnAt(f, t))
  {
    var balance := 0.0;
    balances, rows := [], rows0;
    for t := 0 to horizon
      invariant balance == BalanceAfter(f, t)
      invariant balances == BalancesOf(f, t)
      invariant |rows| == horizon
      invariant forall u: nat | u < t :: rows[u] == AddTurn(rows0[u], TurnAt(f, u))
      invariant forall u: nat | t <= u < horizon :: rows[u] == rows0[u]
    {
      var row;
      balance, row := StepFacility(f, balance, rows[t], t);
      balances := balances + [balance];
      rows := rows[t := row];
    }
  }

  /** One period of one facility. */
  method StepFacility(f: DebtFacility, balance0: real, row0: DebtRow, t: nat) returns (balance: real, row: DebtRow)
    ensures balance == TakeTurn(f, balance0, t).balance
    ensures row == AddTurn(row0, TakeTurn(f, balance0, t))
  {
    if f.convertsToEquityMonth.Some? && t >= f.convertsToEquityMonth.value {
      row := row0;
      if t == f.convertsToEquityMonth.value {
        row := row.(repayments := row.repayments + balance0);
      }
      balance := 0.0;
      return;
    }
    var draw := ScheduledAt(f.drawSchedule, t);
    var repay := if t < f.gracePeriodMonths then 0.0
                 else ScheduledAt(f.repaymentSchedule, t - f.gracePeriodMonths);
    balance := balance0 + draw - repay;
    balance := Max(0.0, Min(f.limit, balance));
    var interest := MonthlyInterest(f, balance);
    var pik := interest * f.pikRate;
    balance := balance + pik;
    row := DebtRow(row0.interest + (interest - pik), row0.draws + draw, row0.repayments + repay);
  }

  lemma RowsSnoc(facilities: seq<DebtFacility>, i: nat, horizon: nat, rows: seq<DebtRow>)
    requires i < |facilities| && !facilities[i].isCashPlug && |rows| == horizon
    requires forall t: nat | t < horizon :: rows[t] == AddTurn(RowOver(facilities[..i], t), TurnAt(facilities[i], t))
    ensures rows == RowsOver(facilities[..i + 1], horizon)
  {
    assert facilities[..i + 1][..i] == facilities[..i];
  }

  method CalculateDebtSchedule(facilities: seq<DebtFacility>, horizon: nat) returns (result: DebtScheduleResult)
    ensures result == Schedule(facilities, horizon)
  {
    var table: map<FacilityId, seq<real>> := map[];
    var rows := seq(horizon, _ => DebtRow(0.0, 0.0, 0.0));
    for i := 0 to |facilities|
      invariant table == BalanceMap(facilities[..i], horizon)
      invariant rows == RowsOver(facilities[..i], horizon)
    {
      var fac := facilities[i];
      assert facilities[..i + 1][..i] == facilities[..i];
      if fac.isCashPlug {
        continue;
      }
      var balances, updated := ScheduleFacility(fac, horizon, rows);
      RowsSnoc(facilities, i, horizon, updated);
      rows := updated;
      table := table[fac.facilityId := balances];
    }
    assert facilities[..|facilities|] == facilities;
    var splits := seq(horizon, _ => DebtSplit(0.0, 0.0));
    for t := 0 to horizon
      invariant |splits| == horizon
      invariant forall u: nat | u < t :: splits[u] == SplitOver(facilities, table, u, horizon)
    {
      var split := SplitPeriod(facilities, table, t, horizon);
      splits := splits[t := split];
    }
    result := DebtScheduleResult(table, rows, splits);
  }

  method SplitPeriod(facilities: seq<DebtFacility>, table: map<FacilityId, seq<real>>, t: nat, horizon: nat)
    returns (split: DebtSplit)
    requires t < horizon && table == BalanceMap(facilities, horizon)
    ensures split == SplitOver(facilities, table, t, horizon)
  {
    split := DebtSplit(0.0, 0.0);
    for i := 0 to |facilities|
      invariant split == SplitOver(facilities[..i], table, t, horizon)
    {
      var fac := facilities[i];
      assert facilities[..i + 1][..i] == facilities[..i];
      if fac.isCashPlug {
        continue;
      }
      TableHas(facilities, horizon, i);
      var balance := table[fac.facilityId][t];
      split := AddSplit(split, fac, balance, t, horizon);
    }
    assert facilities[..|facilities|] == facilities;
  }

  lemma {:induction false} TableHas(facilities: seq<DebtFacility>, horizon: nat, i: nat)
    requires i < |facilities| && !facilities[i].isCashPlug
    ensures facilities[i].facilityId in BalanceMap(facilities, horizon)
    ensures forall id | id in BalanceMap(facilities, horizon) :: |BalanceMap(facilities, horizon)[id]| == horizon
  {
    BalanceMapLengths(facilities, horizon);
    if i < |facilities| - 1 {
      TableHas(facilities[..|facilities| - 1], horizon, i);
    }
  }

  lemma {:induction false} BalanceMapLengths(facilities: seq<DebtFacility>, horizon: nat)
    ensures forall id | id in BalanceMap(facilities, horizon) :: |BalanceMap(facilities, horizon)[id]| == horizon
  {
    if facilities != [] {
      BalanceMapLengths(facilities[..|facilities| - 1], horizon);
    }
  }
}
