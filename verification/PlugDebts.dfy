/** Repeated waterfall passes over the statements, and how much plug debt they can leave
    (statements.py). */
module PlugDebts {
  import opened Facilities
  import opened FundingWaterfall
  import opened Passes
  import opened RealArith
  import opened Runs
  import opened Sequences
  import opened StatementRows
  import opened WaterfallPasses

  // ----- The passes as functions -----

  /** Statements' inputs with the plug facilities and the cash floor. */
  datatype Plan = Plan(inp: Inputs, plugs: seq<DebtFacility>, minimumCash: real)

  const MAX_PASSES: nat := 5

  function NoCumul(inp: Inputs): Cumul {
    Cumul(NoExtra(inp), NoExtra(inp))
  }

  function CashColumn(inp: Inputs, c: Cumul): seq<real>
    requires Fits(inp, c)
  {
    seq(|inp.periods|, t requires 0 <= t < |inp.periods| => CashAt(inp, c, t))
  }

  function AssetTable(inp: Inputs): map<Asset, seq<real>> {
    map[Receivables := seq(|inp.periods|, t requires 0 <= t < |inp.periods| => inp.periods[t].ar),
        Inventory := seq(|inp.periods|, t requires 0 <= t < |inp.periods| => inp.periods[t].inv)]
  }

  /** The waterfall as seen from the statements of the passes so far. */
  function SetupOf(plan: Plan, c: Cumul): Setup
    requires Fits(plan.inp, c)
  {
    Setup(CashColumn(plan.inp, c), plan.plugs, plan.minimumCash, AssetTable(plan.inp))
  }

  function AddDebt(c: Cumul, rows: seq<WaterfallRow>): Cumul
    requires |rows| == |c.debt| == |c.interest|
  {
    Cumul(seq(|rows|, t requires 0 <= t < |rows| => c.debt[t] + rows[t].waterfallDebt),
          seq(|rows|, t requires 0 <= t < |rows| => c.interest[t] + rows[t].waterfallInterest))
  }

  function NextCumul(plan: Plan, c: Cumul): (next: Cumul)
    requires Fits(plan.inp, c)
    ensures Fits(plan.inp, next)
  {
    AddDebt(c, Waterfall(SetupOf(plan, c)).rows)
  }

  /** One pass. */
  function PassOf(plan: Plan): Cumul -> Cumul {
    (c: Cumul) => if Fits(plan.inp, c) then NextCumul(plan, c) else c
  }

  /** A pass would change nothing. */
  function StopOf(plan: Plan): Cumul -> bool {
    (c: Cumul) => Fits(plan.inp, c) && Settled(SetupOf(plan, c))
  }

  function FitsIn(inp: Inputs): Cumul -> bool {
    (c: Cumul) => Fits(inp, c)
  }

  lemma PassesFit(plan: Plan)
    ensures forall c :: KeptFrom(PassOf(plan), StopOf(plan), FitsIn(plan.inp), c)
  {
  }

  /** Up to the given number of passes, stopping when one would change nothing. */
  function LoopFrom(plan: Plan, c: Cumul, passes: nat): (r: Cumul)
    requires Fits(plan.inp, c)
    ensures Fits(plan.inp, r)
  {
    PassesFit(plan);
    RepeatKeeps(PassOf(plan), StopOf(plan), FitsIn(plan.inp), c, passes);
    Repeat(PassOf(plan), StopOf(plan), c, passes)
  }

  /** One unsettled pass. */
  lemma LoopUnfolds(plan: Plan, c: Cumul, next: Cumul, rest: nat)
    requires Fits(plan.inp, c) && !Settled(SetupOf(plan, c)) && next == NextCumul(plan, c)
    ensures LoopFrom(plan, c, rest + 1) == LoopFrom(plan, next, rest)
  {
  }

  lemma LoopStops(plan: Plan, c: Cumul, passes: nat)
    requires Fits(plan.inp, c) && Settled(SetupOf(plan, c))
    ensures LoopFrom(plan, c, passes) == c
  {
  }

  // ----- How far plug debt goes -----

  lemma PassAdds(plan: Plan, c: Cumul, t: nat)
    requires Fits(plan.inp, c) && UniqueIds(plan.plugs) && t < |plan.inp.periods|
    ensures c.debt[t] <= NextCumul(plan, c).debt[t] <= c.debt[t] + TotalLimit(plan.plugs)
    ensures NextCumul(plan, c).debt[t] == c.debt[t] + DebtAfter(SetupOf(plan, c), t + 1)
  {
    DebtColumn(SetupOf(plan, c), t);
  }

  function DebtIn(t: nat): Cumul -> real {
    (c: Cumul) => if t < |c.debt| then c.debt[t] else 0.0
  }

  lemma PassesAdd(plan: Plan, t: nat)
    requires UniqueIds(plan.plugs) && t < |plan.inp.periods|
    ensures forall c :: RaisedFrom(PassOf(plan), FitsIn(plan.inp), DebtIn(t), TotalLimit(plan.plugs), c)
  {
    forall c
      ensures RaisedFrom(PassOf(plan), FitsIn(plan.inp), DebtIn(t), TotalLimit(plan.plugs), c)
    {
      if Fits(plan.inp, c) {
        PassAdds(plan, c, t);
      }
    }
  }

  lemma LoopDebtBound(plan: Plan, c: Cumul, passes: nat, t: nat)
    requires Fits(plan.inp, c) && UniqueIds(plan.plugs) && t < |plan.inp.periods|
    ensures c.debt[t] <= LoopFrom(plan, c, passes).debt[t] <= c.debt[t] + Manyfold(passes, TotalLimit(plan.plugs))
  {
    PassesFit(plan);
    PassesAdd(plan, t);
    TotalLimitNonNegative(plan.plugs);
    RepeatRaises(PassOf(plan), StopOf(plan), FitsIn(plan.inp), DebtIn(t), TotalLimit(plan.plugs), c, passes);
  }

  /** The plug debt the loop leaves on the balance sheet. */
  function PlugDebt(plan: Plan, t: nat): real
    requires t < |plan.inp.periods|
  {
    LoopFrom(plan, NoCumul(plan.inp), MAX_PASSES).debt[t]
  }

  /** Each pass starts its balances from zero, so only five times the summed limits bounds the
      plug debt on the balance sheet. */
  lemma PlugDebtBound(plan: Plan, t: nat)
    requires UniqueIds(plan.plugs) && t < |plan.inp.periods|
    ensures 0.0 <= PlugDebt(plan, t) <= 5.0 * TotalLimit(plan.plugs)
  {
    LoopDebtBound(plan, NoCumul(plan.inp), MAX_PASSES, t);
  }

  /** How many passes the loop makes. */
  function PassesMade(plan: Plan, c: Cumul, passes: nat): (r: nat)
    requires Fits(plan.inp, c)
    ensures r <= passes
  {
    StepsMade(PassOf(plan), StopOf(plan), c, passes)
  }

  /** Cash in period t is at least the minimum, or no plug facility can lend then. */
  predicate FundedAt(plan: Plan, c: Cumul, t: nat)
    requires Fits(plan.inp, c) && t < |plan.inp.periods|
  {
    CashAt(plan.inp, c, t) >= plan.minimumCash
    || forall f | f in plan.plugs :: EffectiveLimit(SetupOf(plan, c), f, t) <= 0.0
  }

  /** Unless all five passes are made, the statements the loop leaves are funded in every period;
      and it makes no pass at all exactly when the first build was. */
  lemma LoopEndsFunded(plan: Plan)
    requires UniqueIds(plan.plugs)
    ensures var made, c := PassesMade(plan, NoCumul(plan.inp), MAX_PASSES), LoopFrom(plan, NoCumul(plan.inp), MAX_PASSES);
            && (made < MAX_PASSES ==> forall t: nat | t < |plan.inp.periods| :: FundedAt(plan, c, t))
            && (made == 0 <==> forall t: nat | t < |plan.inp.periods| :: FundedAt(plan, NoCumul(plan.inp), t))
  {
    var c0, c := NoCumul(plan.inp), LoopFrom(plan, NoCumul(plan.inp), MAX_PASSES);
    SettledMeansFunded(plan, c0);
    SettledMeansFunded(plan, c);
    if PassesMade(plan, c0, MAX_PASSES) < MAX_PASSES {
      StoppedEarly(PassOf(plan), StopOf(plan), c0, MAX_PASSES);
    }
  }

  lemma SettledMeansFunded(plan: Plan, c: Cumul)
    requires Fits(plan.inp, c) && UniqueIds(plan.plugs)
    ensures Settled(SetupOf(plan, c)) <==> forall t: nat | t < |plan.inp.periods| :: FundedAt(plan, c, t)
  {
    SettledIffFunded(SetupOf(plan, c));
    assert forall t: nat | t < |plan.inp.periods| :: Funded(SetupOf(plan, c), t) <==> FundedAt(plan, c, t);
  }

  // ----- What one pass changes -----

  lemma PassCharges(plan: Plan, c: Cumul, t: nat)
    requires Fits(plan.inp, c) && t < |plan.inp.periods|
    ensures NextCumul(plan, c).interest[t]
         == c.interest[t] + SumOver(plan.plugs, FacilityInterest(After(SetupOf(plan, c), t + 1)))
  {
    RowsToAt(SetupOf(plan, c), |plan.inp.periods|, t);
  }

  lemma InterestOnBalances(plan: Plan, c: Cumul, t: nat)
    requires Fits(plan.inp, c) && UniqueIds(plan.plugs) && t < |plan.inp.periods|
    ensures forall f | f in plan.plugs :: FacilityInterest(After(SetupOf(plan, c), t + 1))(f) >= 0.0
    ensures NextCumul(plan, c).interest[t] >= c.interest[t]
  {
    var s := SetupOf(plan, c);
    BalancesStayWithinLimits(s, t + 1);
    PassCharges(plan, c, t);
    forall f | f in plan.plugs
      ensures FacilityInterest(After(s, t + 1))(f) >= 0.0
    {
      InterestSign(f, Bal(After(s, t + 1), f.facilityId));
    }
    SumOverNonNegative(plan.plugs, FacilityInterest(After(s, t + 1)));
  }

  lemma InterestSign(f: DebtFacility, balance: real)
    requires balance >= 0.0
    ensures MonthlyInterest(f, balance) >= 0.0
    ensures f.interestRate > 0.0 && balance > 0.0 ==> MonthlyInterest(f, balance) > 0.0
    ensures f.interestRate == 0.0 || balance == 0.0 ==> MonthlyInterest(f, balance) == 0.0
  {
  }

  /** Cash moves by the debt added and by what the interest takes from equity. */
  lemma PassMovesCash(plan: Plan, c: Cumul, t: nat)
    requires Fits(plan.inp, c) && UniqueIds(plan.plugs) && t < |plan.inp.periods|
    ensures var next := NextCumul(plan, c);
            CashAt(plan.inp, next, t)
            == CashAt(plan.inp, c, t) + DebtAfter(SetupOf(plan, c), t + 1)
               + (EquityAfter(plan.inp, next.interest, t + 1) - EquityAfter(plan.inp, c.interest, t + 1))
  {
    PassAdds(plan, c, t);
  }
}
