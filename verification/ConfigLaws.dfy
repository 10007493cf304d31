/** What the configuration puts into the statements (statements.py). */
module ConfigLaws {
  import opened Capex
  import opened DebtSchedule
  import opened Facilities
  import opened GeneratedStatements
  import opened PlugDebts
  import opened RealArith
  import opened Sequences
  import opened StaleDividends
  import opened StatementRows
  import opened Wrappers

  // ----- Working capital -----

  /** What customers owe is revenue for the days of receivables, what is in stock and what suppliers are
      owed the cost of sales for theirs, of periods of 30 days if they are months and of 365 else. */
  lemma WorkingCapitalIsDays(cfg: Config, t: nat)
    requires t < |cfg.operations|
    ensures var p, o, days := InputsOf(cfg).periods[t], cfg.operations[t], if cfg.monthly then 30.0 else 365.0;
            && p.ar * days == o.revenue * o.days.ar
            && p.inv * days == o.cogs * o.days.inv
            && p.ap * days == o.cogs * o.days.ap
            && p.revenue == o.revenue && p.cogs == o.cogs && p.fixedOpex == o.fixedOpex
  {
    var o := cfg.operations[t];
    PerDay(o.revenue, DaysPerPeriod(cfg), o.days.ar);
    PerDay(o.cogs, DaysPerPeriod(cfg), o.days.inv);
    PerDay(o.cogs, DaysPerPeriod(cfg), o.days.ap);
  }

  lemma PerDay(x: real, days: real, held: real)
    requires days > 0.0
    ensures x / days * held * days == x * held
  {
    assert x / days * days == x;
    MulAssoc(x / days, held, days);
    MulAssoc(x / days, days, held);
  }

  // ----- Property -----

  /** Investing takes what is bought in the period. */
  lemma InvestingIsSpend(cfg: Config, c: Cumul, t: nat)
    requires Fits(InputsOf(cfg), c) && t < |cfg.operations|
    ensures CashFlowAt(InputsOf(cfg), c, t).investing == -SumOver(cfg.capex, OnSpend(t))
  {
    if t == 0 {
      SumOverSame(cfg.capex, OnSpend(0), OnGross(0));
    } else {
      SumOverAdd(cfg.capex, OnGross(t), OnSpend(t), OnGross(t - 1));
    }
  }

  // ----- Equity -----

  function FreshTo(cfg: Config, n: nat): real {
    if n == 0 then 0.0 else FreshTo(cfg, n - 1) + FreshEquity(cfg, n - 1)
  }

  function OnRaiseBefore(n: nat): EquityRaise -> real {
    (r: EquityRaise) => if 0 <= r.month < n then r.amount else 0.0
  }

  /** Over n periods the raises of their months come in, each once; in a month without any, none. */
  lemma {:induction false} RaisesComeIn(cfg: Config, n: nat)
    ensures FreshTo(cfg, n) == SumOver(cfg.raises, OnRaiseBefore(n))
    ensures (forall r | r in cfg.raises :: r.month != n) ==> FreshEquity(cfg, n) == 0.0
  {
    if n > 0 {
      RaisesComeIn(cfg, n - 1);
      SumOverAdd(cfg.raises, OnRaiseBefore(n), OnRaise(n - 1), OnRaiseBefore(n - 1));
    } else {
      NothingIn(cfg.raises, OnRaiseBefore(0));
    }
    if forall r | r in cfg.raises :: r.month != n {
      NothingIn(cfg.raises, OnRaise(n));
    }
  }

  lemma NothingIn(raises: seq<EquityRaise>, f: EquityRaise -> real)
    requires forall r | r in raises :: f(r) == 0.0
    ensures SumOver(raises, f) == 0.0
  {
    SumOverZero(raises, f);
  }

  // ----- Whether the waterfall changes anything -----

  /** The statements differ from the first build exactly when there is a plug facility, a positive
      minimum, and a period of the first build below it in which some facility can lend. */
  lemma WaterfallMattersIff(cfg: Config)
    requires UniqueIds(cfg.facilities)
    ensures var inp, plugs := InputsOf(cfg), Select(cfg.facilities, true);
            FinalCumul(cfg) != NoCumul(inp) <==>
            && (exists f | f in cfg.facilities :: f.isCashPlug)
            && cfg.minimumCash > 0.0
            && exists t: nat :: t < |inp.periods| && !FundedAt(PlanOf(cfg), NoCumul(inp), t)
  {
    var inp, plan := InputsOf(cfg), PlanOf(cfg);
    SelectUnique(cfg.facilities, true);
    PlugsSelected(cfg);
    if plan.plugs != [] && cfg.minimumCash > 0.0 {
      if forall t: nat | t < |inp.periods| :: FundedAt(plan, NoCumul(inp), t) {
        FundedLeavesNothing(plan);
      } else {
        var t := OwedInSomePeriod(plan);
      }
    }
  }

  lemma PlugsSelected(cfg: Config)
    requires UniqueIds(cfg.facilities)
    ensures Select(cfg.facilities, true) != [] <==> exists f | f in cfg.facilities :: f.isCashPlug
  {
    SelectUnique(cfg.facilities, true);
    if Select(cfg.facilities, true) != [] {
      assert Select(cfg.facilities, true)[0] in Select(cfg.facilities, true);
    }
  }

  // ----- What carries over -----

  /** Debt lines, interest, draws and repayments of the statements are those of the debt schedule, of all
      facilities that are no plugs. */
  lemma ScheduleCarriesOver(cfg: Config, t: nat)
    requires t < |cfg.operations|
    ensures var p, debt := InputsOf(cfg).periods[t], Schedule(Scheduled(cfg), |cfg.operations|);
            && p.debtCurrent == debt.splits[t].current && p.debtNonCurrent == debt.splits[t].nonCurrent
            && p.interest == debt.rows[t].interest
            && p.draws == debt.rows[t].draws && p.repayments == debt.rows[t].repayments
            && p.da == DaAt(cfg.capex, t)
  {
  }

  /** The equity booked for a conversion is the debt schedule's conversion amount, month 0 included. */
  lemma ConversionIsBooked(cfg: Config, f: DebtFacility, t: nat)
    requires UniqueIds(cfg.facilities) && f in cfg.facilities && t < |cfg.operations|
    ensures ConversionAt(f, DebtOf(cfg).balancePerPeriod, t)
         == if f.convertsToEquityMonth == Some(t) then ConversionAmount(f) else 0.0
  {
    if f.convertsToEquityMonth == Some(t) && t > 0 {
      SelectUnique(cfg.facilities, false);
      BalanceMapAt(Scheduled(cfg), |cfg.operations|, f);
    }
  }

  /** The assets that plugs may be linked to are the receivables and the inventory of the balance sheet. */
  lemma AssetsAreShown(cfg: Config, c: Cumul, t: nat)
    requires Fits(InputsOf(cfg), c) && t < |cfg.operations|
    ensures var b, assets := BalanceAt(InputsOf(cfg), c, t), SetupOf(PlanOf(cfg), c).assetValues;
            && assets.Keys == {Receivables, Inventory} && t < |assets[Receivables]| == |assets[Inventory]|
            && assets[Receivables][t] == b.accountsReceivable && assets[Inventory][t] == b.inventory
  {
  }
}
