/** From a model configuration to the three statements (statements.py). */
module GeneratedStatements {
  import opened Capex
  import opened DebtSchedule
  import opened Facilities
  import opened PlugDebts
  import opened Sequences
  import opened StatementRows
  import opened Statements
  import opened Wrappers

  datatype EquityRaise = EquityRaise(month: int, amount: real)

  /** Days of receivables, payables and inventory. */
  datatype WorkingDays = WorkingDays(ar: real, ap: real, inv: real)

  /** What one period of the engine's output and of the drivers provides. */
  datatype Operations = Operations(revenue: real, cogs: real, fixedOpex: real, days: WorkingDays)

  datatype Config = Config(
    operations: seq<Operations>,
    monthly: bool,
    capex: seq<CapexItem>,
    facilities: seq<DebtFacility>,
    raises: seq<EquityRaise>,
    taxRate: real,
    nolEnabled: bool,
    policy: DividendPolicy,
    initialCash: real,
    initialEquity: real,
    minimumCash: real)

  function DaysPerPeriod(cfg: Config): real {
    if cfg.monthly then 30.0 else 365.0
  }

  function Select(facilities: seq<DebtFacility>, plugs: bool): seq<DebtFacility> {
    if facilities == [] then []
    else (if facilities[0].isCashPlug == plugs then [facilities[0]] else []) + Select(facilities[1..], plugs)
  }

  function Scheduled(cfg: Config): seq<DebtFacility> {
    Select(cfg.facilities, false)
  }

  function DebtOf(cfg: Config): DebtScheduleResult {
    Schedule(Scheduled(cfg), |cfg.operations|)
  }

  // ----- Equity raises -----

  function OnRaise(t: nat): EquityRaise -> real {
    (r: EquityRaise) => if r.month == t then r.amount else 0.0
  }

  /** The equity a facility converting in month t brings. */
  function ConversionAt(f: DebtFacility, table: map<FacilityId, seq<real>>, t: nat): real {
    if f.convertsToEquityMonth != Some(t) then 0.0
    else if t > 0 then BalanceIn(table, f.facilityId, t - 1)
    else ScheduledAt(f.drawSchedule, 0)
  }

  function OnConversion(table: map<FacilityId, seq<real>>, t: nat): DebtFacility -> real {
    (f: DebtFacility) => ConversionAt(f, table, t)
  }

  function FreshEquity(cfg: Config, t: nat): real {
    SumOver(cfg.raises, OnRaise(t))
  }

  function ConvertedDebt(cfg: Config, t: nat): real {
    SumOver(cfg.facilities, OnConversion(DebtOf(cfg).balancePerPeriod, t))
  }

  method ComputeEquityRaises(cfg: Config, table: map<FacilityId, seq<real>>) returns (raises: seq<real>)
    requires table == DebtOf(cfg).balancePerPeriod
    ensures |raises| == |cfg.operations|
    ensures forall t: nat | t < |raises| :: raises[t] == FreshEquity(cfg, t) + ConvertedDebt(cfg, t)
  {
    var horizon := |cfg.operations|;
    raises := seq(horizon, _ => 0.0);
    for i := 0 to |cfg.raises|
      invariant |raises| == horizon
      invariant forall t: nat | t < horizon :: raises[t] == SumOver(cfg.raises[..i], OnRaise(t))
    {
      var er := cfg.raises[i];
      forall t: nat | t < horizon
        ensures SumOver(cfg.raises[..i + 1], OnRaise(t)) == raises[t] + OnRaise(t)(er)
      {
        SumOverTake(cfg.raises, i, OnRaise(t));
      }
      if 0 <= er.month < horizon {
        raises := raises[er.month := raises[er.month] + er.amount];
      }
    }
    assert cfg.raises[..|cfg.raises|] == cfg.raises;
    raises := AddConversions(cfg, table, raises);
  }

  method AddConversions(cfg: Config, table: map<FacilityId, seq<real>>, was: seq<real>) returns (raises: seq<real>)
    requires table == DebtOf(cfg).balancePerPeriod && |was| == |cfg.operations|
    ensures |raises| == |was|
    ensures forall t: nat | t < |was| :: raises[t] == was[t] + ConvertedDebt(cfg, t)
  {
    raises := was;
    for i := 0 to |cfg.facilities|
      invariant |raises| == |was|
      invariant forall t: nat | t < |was| ::
                  raises[t] == was[t] + SumOver(cfg.facilities[..i], OnConversion(table, t))
    {
      var fac := cfg.facilities[i];
      forall t: nat | t < |was|
        ensures SumOver(cfg.facilities[..i + 1], OnConversion(table, t))
             == SumOver(cfg.facilities[..i], OnConversion(table, t)) + ConversionAt(fac, table, t)
      {
        SumOverTake(cfg.facilities, i, OnConversion(table, t));
      }
      if fac.convertsToEquityMonth.Some? && fac.convertsToEquityMonth.value < |was| {
        var month := fac.convertsToEquityMonth.value;
        var amount := if month > 0 then BalanceIn(table, fac.facilityId, month - 1) else ScheduledAt(fac.drawSchedule, 0);
        raises := raises[month := raises[month] + amount];
      }
    }
    assert cfg.facilities[..|cfg.facilities|] == cfg.facilities;
  }

  // ----- The inputs of the statements -----

  /** Working capital from days, and everything else as it comes. */
  function Assemble(o: Operations, daysPerPeriod: real, da: real, gross: real, acc: real, row: DebtRow, split: DebtSplit,
                    raised: real): PeriodInput
    requires daysPerPeriod != 0.0
  {
    var revenuePerDay, cogsPerDay := o.revenue / daysPerPeriod, o.cogs / daysPerPeriod;
    PeriodInput(o.revenue, o.cogs, o.fixedOpex, da, row.interest,
                revenuePerDay * o.days.ar, cogsPerDay * o.days.ap, cogsPerDay * o.days.inv, gross, acc,
                split.current, split.nonCurrent, row.draws, row.repayments, raised)
  }

  function PeriodOf(cfg: Config, t: nat): PeriodInput
    requires t < |cfg.operations|
  {
    Assemble(cfg.operations[t], DaysPerPeriod(cfg), DaAt(cfg.capex, t), GrossAt(cfg.capex, t), AccumulatedAt(cfg.capex, t),
             DebtOf(cfg).rows[t], DebtOf(cfg).splits[t], FreshEquity(cfg, t) + ConvertedDebt(cfg, t))
  }

  function InputsOf(cfg: Config): Inputs {
    Inputs(seq(|cfg.operations|, t requires 0 <= t < |cfg.operations| => PeriodOf(cfg, t)),
           cfg.taxRate, cfg.nolEnabled, cfg.policy, cfg.initialCash, cfg.initialEquity)
  }

  function PlanOf(cfg: Config): Plan {
    Plan(InputsOf(cfg), Select(cfg.facilities, true), cfg.minimumCash)
  }

  /** The debt and interest the waterfall has added in the end. */
  function FinalCumul(cfg: Config): (c: Cumul)
    ensures Fits(InputsOf(cfg), c)
  {
    if Select(cfg.facilities, true) != [] && cfg.minimumCash > 0.0
    then LoopFrom(PlanOf(cfg), NoCumul(InputsOf(cfg)), MAX_PASSES)
    else NoCumul(InputsOf(cfg))
  }

  method GenerateStatements(cfg: Config) returns (lists: StatementLists)
    ensures fresh(lists) && lists.Show(InputsOf(cfg), FinalCumul(cfg))
  {
    var inp := ComputeInputs(cfg);
    lists := new StatementLists(inp);
    var plugs := Select(cfg.facilities, true);
    if plugs != [] && cfg.minimumCash > 0.0 {
      lists.ApplyWaterfallLoop(Plan(inp, plugs, cfg.minimumCash));
    }
  }

  method ComputeInputs(cfg: Config) returns (inp: Inputs)
    ensures inp == InputsOf(cfg)
  {
    var horizon := |cfg.operations|;
    var da := ComputeDaPerPeriod(cfg.capex, horizon);
    var debt := CalculateDebtSchedule(Scheduled(cfg), horizon);
    var raises := ComputeEquityRaises(cfg, debt.balancePerPeriod);
    var gross := ComputeGross(cfg.capex, horizon);
    var acc := Accumulate(cfg.capex, da);
    var periods := AssembleAll(cfg, da, gross, acc, debt, raises);
    inp := Inputs(periods, cfg.taxRate, cfg.nolEnabled, cfg.policy, cfg.initialCash, cfg.initialEquity);
  }

  method AssembleAll(cfg: Config, da: seq<real>, gross: seq<real>, acc: seq<real>, debt: DebtScheduleResult, raises: seq<real>)
    returns (periods: seq<PeriodInput>)
    requires |da| == |gross| == |acc| == |raises| == |cfg.operations| && debt == DebtOf(cfg)
    requires forall t: nat | t < |da| :: da[t] == DaAt(cfg.capex, t) && gross[t] == GrossAt(cfg.capex, t)
    requires forall t: nat | t < |da| :: acc[t] == AccumulatedAt(cfg.capex, t)
    requires forall t: nat | t < |da| :: raises[t] == FreshEquity(cfg, t) + ConvertedDebt(cfg, t)
    ensures periods == InputsOf(cfg).periods
  {
    periods := [];
    for t := 0 to |da|
      invariant |periods| == t && forall u: nat | u < t :: periods[u] == PeriodOf(cfg, u)
    {
      var p := Assemble(cfg.operations[t], DaysPerPeriod(cfg), da[t], gross[t], acc[t], debt.rows[t], debt.splits[t],
                        raises[t]);
      PeriodsSnoc(cfg, periods, p);
      periods := periods + [p];
    }
  }

  lemma PeriodsSnoc(cfg: Config, periods: seq<PeriodInput>, p: PeriodInput)
    requires |periods| < |cfg.operations| && p == PeriodOf(cfg, |periods|)
    requires forall u: nat | u < |periods| :: periods[u] == PeriodOf(cfg, u)
    ensures forall u: nat | u <= |periods| :: (periods + [p])[u] == PeriodOf(cfg, u)
  {
  }

  // ----- What holds across the parts -----

  /** Depreciation charged and depreciation accumulated belong together. */
  lemma DepreciationTies(cfg: Config)
    ensures DepreciationAccumulates(InputsOf(cfg))
  {
  }

  lemma {:induction false} SelectUnique(facilities: seq<DebtFacility>, plugs: bool)
    requires UniqueIds(facilities)
    ensures UniqueIds(Select(facilities, plugs))
    ensures forall f | f in Select(facilities, plugs) :: f in facilities && f.isCashPlug == plugs
    ensures forall f | f in facilities && f.isCashPlug == plugs :: f in Select(facilities, plugs)
  {
    if facilities != [] {
      var f, rest := facilities[0], Select(facilities[1..], plugs);
      UniqueIdsTail(facilities);
      SelectUnique(facilities[1..], plugs);
      if f.isCashPlug == plugs {
        UniqueIdsCons(f, rest);
        assert Select(facilities, plugs) == [f] + rest;
      } else {
        assert Select(facilities, plugs) == rest;
      }
    }
  }

  lemma UniqueIdsCons(f: DebtFacility, rest: seq<DebtFacility>)
    requires UniqueIds(rest) && forall g | g in rest :: g.facilityId != f.facilityId
    ensures UniqueIds([f] + rest)
  {
    var ids := Ids([f] + rest);
    assert ids == [f.facilityId] + Ids(rest);
    forall i, j | 0 <= i < j < |ids|
      ensures ids[i] != ids[j]
    {
      if i == 0 {
        assert rest[j - 1] in rest;
      } else {
        assert Ids(rest)[i - 1] != Ids(rest)[j - 1];
      }
    }
  }

  /** The two debt lines of the balance sheet add up to the balances of all scheduled debt. */
  lemma DebtLinesAreBalances(cfg: Config, t: nat)
    requires UniqueIds(cfg.facilities) && t < |cfg.operations|
    ensures InputsOf(cfg).periods[t].debtCurrent + InputsOf(cfg).periods[t].debtNonCurrent == TotalDebt(Scheduled(cfg), t + 1)
  {
    SelectUnique(cfg.facilities, false);
    SplitIsTotalDebt(Scheduled(cfg), t, |cfg.operations|);
  }

  /** What the facilities converting in month t report as repaid. */
  function OnConvertedRepay(t: nat): DebtFacility -> real {
    (f: DebtFacility) => if f.convertsToEquityMonth == Some(t) then TurnAt(f, t).repay else 0.0
  }

  /** The equity booked for conversions after month 0 is what the debt schedule reports as repaid
      by them. */
  lemma ConversionsAreRepayments(cfg: Config, t: nat)
    requires UniqueIds(cfg.facilities) && 0 < t < |cfg.operations|
    ensures ConvertedDebt(cfg, t) == SumOver(cfg.facilities, OnConvertedRepay(t))
  {
    var table := DebtOf(cfg).balancePerPeriod;
    SelectUnique(cfg.facilities, false);
    forall f | f in cfg.facilities
      ensures OnConversion(table, t)(f) == OnConvertedRepay(t)(f)
    {
      if f.convertsToEquityMonth == Some(t) {
        BalanceMapAt(Scheduled(cfg), |cfg.operations|, f);
        ConversionIsNeutral(f);
      }
    }
    SumOverSame(cfg.facilities, OnConversion(table, t), OnConvertedRepay(t));
  }

  /** No clamp bites in period t. */
  ghost predicate Unclamped(cfg: Config, t: nat) {
    forall f | f in Scheduled(cfg) :: !ClampBites(f, t)
  }

  lemma DebtChange(cfg: Config, c: Cumul, t: nat)
    requires UniqueIds(cfg.facilities) && Fits(InputsOf(cfg), c) && 0 < t < |cfg.operations| && Unclamped(cfg, t)
    ensures DebtAt(InputsOf(cfg), c, t) - DebtAt(InputsOf(cfg), c, t - 1)
         == InputsOf(cfg).periods[t].draws - InputsOf(cfg).periods[t].repayments
            + TotalCapitalised(Scheduled(cfg), t) + (c.debt[t] - c.debt[t - 1])
  {
    DebtLinesAreBalances(cfg, t);
    DebtLinesAreBalances(cfg, t - 1);
    TotalRollForward(Scheduled(cfg), t);
  }

  /** The lines of the financing section add up to its balancing total: scheduled draws less
      repayments in cash, capitalised interest, fresh equity, the change in plug debt, less dividends. A conversion
      cancels out: it is neither a repayment in cash nor fresh money. */
  lemma FinancingSectionAddsUp(cfg: Config, c: Cumul, t: nat)
    requires UniqueIds(cfg.facilities) && Fits(InputsOf(cfg), c) && 0 < t < |cfg.operations| && Unclamped(cfg, t)
    ensures var inp := InputsOf(cfg);
            CashFlowAt(inp, c, t).financing
            == inp.periods[t].draws - (inp.periods[t].repayments - SumOver(cfg.facilities, OnConvertedRepay(t)))
               + TotalCapitalised(Scheduled(cfg), t) + FreshEquity(cfg, t) + (c.debt[t] - c.debt[t - 1]) - IncomeAt(inp, c.interest, t).dividends
  {
    DepreciationTies(cfg);
    FinancingIsFlows(InputsOf(cfg), c, t);
    DebtChange(cfg, c, t);
    ConversionsAreRepayments(cfg, t);
  }
}
