/** What waterfall interest does to net income, dividends and equity (statements.py). */
module InterestEffects {
  import opened IncomeTax
  import opened RealArith
  import opened Sequences
  import opened StatementRows
  import opened Wrappers

  /** In every period more charges at least what less charges. */
  ghost predicate ChargesMore(inp: Inputs, less: seq<real>, more: seq<real>) {
    |less| == |more| == |inp.periods| && forall t | 0 <= t < |less| :: less[t] <= more[t]
  }

  /** The interest charged on top in the first n periods. */
  function ExtraTo(less: seq<real>, more: seq<real>, n: nat): real
    requires n <= |less| == |more|
  {
    if n == 0 then 0.0 else ExtraTo(less, more, n - 1) + (more[n - 1] - less[n - 1])
  }

  lemma LowerEarnings(inp: Inputs, less: seq<real>, more: seq<real>)
    requires ChargesMore(inp, less, more)
    ensures EarnsLess(Ebts(inp, more), Ebts(inp, less))
  {
  }

  /** The net incomes of the income statement. */
  function NetLine(inp: Inputs, extra: seq<real>): (r: seq<real>)
    requires |inp.periods| == |extra|
    ensures |r| == |extra|
  {
    NetIncomes(inp.nolEnabled, Ebts(inp, extra), inp.taxRate)
  }

  lemma NetLineAt(inp: Inputs, extra: seq<real>, t: nat)
    requires t < |inp.periods| == |extra|
    ensures IncomeAt(inp, extra, t).netIncome == NetLine(inp, extra)[t]
    ensures IncomeAt(inp, extra, t).dividends == Dividend(inp.policy, NetLine(inp, extra)[t])
  {
  }

  /** The tax that extra interest spares period t. */
  function Spared(inp: Inputs, extra: seq<real>, t: nat): real
    requires t < |inp.periods| == |extra|
  {
    TaxSpared(inp.nolEnabled, Ebts(inp, NoExtra(inp)), Ebts(inp, extra), inp.taxRate, t)
  }

  // ----- The dividends line of the cash flow statement -----

  /** The line shows other dividends than the income statement. */
  predicate Stale(inp: Inputs, c: Cumul, t: nat)
    requires Fits(inp, c) && t < |inp.periods|
  {
    CashFlowAt(inp, c, t).dividendsPaid != IncomeAt(inp, c.interest, t).dividends
  }

  /** Net income on the side on which a ratio w pays out. */
  predicate Pays(w: real, netIncome: real) {
    (w > 0.0 && netIncome > 0.0) || (w < 0.0 && netIncome < 0.0)
  }

  lemma PayoutIs(w: real, x: real)
    ensures Max(0.0, x * w) == if Pays(w, x) then x * w else 0.0
    ensures Pays(w, x) ==> x * w > 0.0
  {
    SignOfProduct(x, w);
  }

  lemma PayoutsDiffer(w: real, a: real, b: real)
    ensures Max(0.0, a * w) != Max(0.0, b * w) <==> a != b && (Pays(w, a) || Pays(w, b))
  {
    PayoutIs(w, a);
    PayoutIs(w, b);
    SplitProduct(a, b, w);
    SignOfProduct(a - b, w);
  }

  lemma DividendsDiffer(policy: DividendPolicy, a: real, b: real)
    ensures Dividend(policy, a) != Dividend(policy, b)
       <==> policy.PayoutRatio? && a != b && (Pays(ValueOr0(policy.value), a) || Pays(ValueOr0(policy.value), b))
  {
    if policy.PayoutRatio? {
      PayoutsDiffer(ValueOr0(policy.value), a, b);
    }
  }

  ghost predicate NoNegativeInterest(c: Cumul) {
    forall t | 0 <= t < |c.interest| :: c.interest[t] >= 0.0
  }

  /** What the first build pays out: net income before any waterfall interest. */
  function FirstNet(inp: Inputs, t: nat): real
    requires t < |inp.periods|
  {
    IncomeAt(inp, NoExtra(inp), t).netIncome
  }

  lemma NetIncomeMoves(inp: Inputs, c: Cumul, t: nat)
    requires Fits(inp, c) && t < |inp.periods| && 0.0 <= inp.taxRate <= 1.0 && NoNegativeInterest(c)
    ensures NetLine(inp, c.interest)[t] == NetLine(inp, NoExtra(inp))[t] - c.interest[t] + Spared(inp, c.interest, t)
  {
    LowerEarnings(inp, NoExtra(inp), c.interest);
    NetIncomeShift(inp.nolEnabled, Ebts(inp, NoExtra(inp)), Ebts(inp, c.interest), inp.taxRate, t);
  }

  lemma StaleMeans(inp: Inputs, c: Cumul, t: nat, first: real, now: real)
    requires Fits(inp, c) && t < |inp.periods|
    requires first == NetLine(inp, NoExtra(inp))[t] && now == NetLine(inp, c.interest)[t]
    ensures Stale(inp, c, t) <==> Dividend(inp.policy, first) != Dividend(inp.policy, now)
    ensures FirstNet(inp, t) == first
  {
    NetLineAt(inp, NoExtra(inp), t);
    NetLineAt(inp, c.interest, t);
  }

  /** Interest x, with tax spared, moves the payout at ratio w of the net income first. */
  predicate PayoutMoves(policy: DividendPolicy, first: real, x: real, spared: real) {
    && policy.PayoutRatio?
    && x != spared
    && (Pays(ValueOr0(policy.value), first) || Pays(ValueOr0(policy.value), first - x + spared))
  }

  /** The exact condition, with or without carry-forward: the policy pays out a share of net
      income, the period's waterfall interest is not made up for by the tax it is spared, and net
      income, first or now, is on the side that is paid out. */
  lemma DividendsLineIsStaleIff(inp: Inputs, c: Cumul, t: nat)
    requires Fits(inp, c) && t < |inp.periods| && 0.0 <= inp.taxRate <= 1.0 && NoNegativeInterest(c)
    ensures Stale(inp, c, t) <==> PayoutMoves(inp.policy, FirstNet(inp, t), c.interest[t], Spared(inp, c.interest, t))
  {
    var first, now := NetLine(inp, NoExtra(inp))[t], NetLine(inp, c.interest)[t];
    NetIncomeMoves(inp, c, t);
    StaleMeans(inp, c, t, first, now);
    DividendsDiffer(inp.policy, first, now);
  }

  function AfterTax(ebt: real, rate: real): real {
    ebt - Tax(Max(0.0, ebt), rate)
  }

  /** Without carry-forward a period's tax depends on its own earnings only. */
  lemma OwnEarningsOnly(inp: Inputs, extra: seq<real>, t: nat)
    requires t < |inp.periods| == |extra| && !inp.nolEnabled
    ensures NetLine(inp, extra)[t] == AfterTax(EbtAt(inp, extra, t), inp.taxRate)
  {
    NoCarriedLoss(Ebts(inp, extra), t);
  }

  lemma AfterTaxIs(a: real, rate: real)
    ensures AfterTax(a, rate) == if a > 0.0 then a * (1.0 - rate) else a
  {
    MulMinus(a, 1.0, rate);
  }

  /** Earnings fall by x: what that does to the payout at ratio w. */
  lemma PayoutAfterTax(w: real, a: real, x: real, rate: real)
    requires 0.0 <= rate <= 1.0 && x >= 0.0
    ensures var was, now := AfterTax(a, rate), AfterTax(a - x, rate);
            was != now && (Pays(w, was) || Pays(w, now))
            <==> x > 0.0 && ((w > 0.0 && a > 0.0 && rate < 1.0) || (w < 0.0 && a < x))
  {
    AfterTaxIs(a, rate);
    AfterTaxIs(a - x, rate);
    SignOfProduct(a, 1.0 - rate);
    SignOfProduct(a - x, 1.0 - rate);
    SignOfProduct(x, 1.0 - rate);
    SplitProduct(a, x, 1.0 - rate);
  }

  /** Interest x in period t hits a payout: the ratio is positive and there was a profit not wholly
      taxed away, or the ratio is negative and there is now a loss. */
  predicate PayoutIsHit(inp: Inputs, x: real, t: nat)
    requires t < |inp.periods|
  {
    && inp.policy.PayoutRatio?
    && x > 0.0
    && var w, ebt := ValueOr0(inp.policy.value), EbtAt(inp, NoExtra(inp), t);
       (w > 0.0 && ebt > 0.0 && inp.taxRate < 1.0) || (w < 0.0 && ebt < x)
  }

  /** Without carry-forward the line is stale exactly in the periods in which waterfall interest
      hits a payout. */
  lemma DividendsLineIsStale(inp: Inputs, c: Cumul, t: nat)
    requires Fits(inp, c) && t < |inp.periods| && 0.0 <= inp.taxRate <= 1.0 && NoNegativeInterest(c)
    requires !inp.nolEnabled
    ensures Stale(inp, c, t) <==> PayoutIsHit(inp, c.interest[t], t)
  {
    var first, now := NetLine(inp, NoExtra(inp))[t], NetLine(inp, c.interest)[t];
    StaleMeans(inp, c, t, first, now);
    OwnEarningsOnly(inp, NoExtra(inp), t);
    OwnEarningsOnly(inp, c.interest, t);
    DividendsDiffer(inp.policy, first, now);
    if inp.policy.PayoutRatio? {
      PayoutAfterTax(ValueOr0(inp.policy.value), EbtAt(inp, NoExtra(inp), t), c.interest[t], inp.taxRate);
    }
  }

  // ----- Equity -----

  function Kept(policy: DividendPolicy, netIncome: real): real {
    netIncome - Dividend(policy, netIncome)
  }

  function KeptTo(policy: DividendPolicy, netIncomes: seq<real>, n: nat): real
    requires n <= |netIncomes|
  {
    if n == 0 then 0.0 else KeptTo(policy, netIncomes, n - 1) + Kept(policy, netIncomes[n - 1])
  }

  /** Equity is what it was at first, what was raised and what was kept of net income. */
  lemma {:induction false} EquityIs(inp: Inputs, extra: seq<real>, n: nat)
    requires n <= |inp.periods| == |extra|
    ensures EquityAfter(inp, extra, n) == inp.initialEquity + RaisedTo(inp, n) + KeptTo(inp.policy, NetLine(inp, extra), n)
  {
    if n > 0 {
      EquityIs(inp, extra, n - 1);
      NetLineAt(inp, extra, n - 1);
    }
  }

  /** No more is paid out than was earned. */
  predicate PaysAtMostProfit(policy: DividendPolicy) {
    policy.PayoutRatio? ==> ValueOr0(policy.value) <= 1.0
  }

  /** What is kept of a further unit of profit. */
  function KeptShare(policy: DividendPolicy): real {
    if policy.PayoutRatio? then 1.0 - Max(0.0, ValueOr0(policy.value)) else 1.0
  }

  function Share(share: real, x: real): real {
    share * x
  }

  lemma ShareOfSum(share: real, x: real, y: real)
    ensures Share(share, x + y) == Share(share, x) + Share(share, y)
  {
  }

  /** A payout moves at least by its ratio times the fall, at most by its ratio times the rise. */
  lemma PayoutSlope(w: real, was: real, now: real)
    requires now <= was || was >= 0.0
    ensures Max(0.0, now * w) - Max(0.0, was * w) >= Share(Max(0.0, w), now - was)
  {
    PayoutIs(w, was);
    PayoutIs(w, now);
    SplitProduct(now, was, w);
    SignOfProduct(now, w);
    SignOfProduct(now - was, w);
  }

  /** Net income going down, or up from a profit, moves what is kept by no more than its share. */
  lemma KeptFalls(policy: DividendPolicy, was: real, now: real)
    requires PaysAtMostProfit(policy) && (now <= was || was >= 0.0)
    ensures Kept(policy, now) - Kept(policy, was) <= Share(KeptShare(policy), now - was)
  {
    if policy.PayoutRatio? {
      var w := ValueOr0(policy.value);
      PayoutSlope(w, was, now);
      SplitProduct(1.0, Max(0.0, w), now - was);
    }
  }

  /** Whatever went up was not negative before. */
  ghost predicate Falls(was: seq<real>, now: seq<real>) {
    |was| == |now| && forall t | 0 <= t < |was| :: now[t] <= was[t] || was[t] >= 0.0
  }

  lemma {:induction false} KeptFallsByShare(policy: DividendPolicy, was: seq<real>, now: seq<real>, n: nat)
    requires n <= |was| && Falls(was, now) && PaysAtMostProfit(policy)
    ensures KeptTo(policy, now, n) - KeptTo(policy, was, n)
         <= Share(KeptShare(policy), EarnedTo(now, n) - EarnedTo(was, n))
  {
    if n > 0 {
      var t := n - 1;
      KeptFallsByShare(policy, was, now, t);
      KeptFalls(policy, was[t], now[t]);
      ShareOfSum(KeptShare(policy), EarnedTo(now, t) - EarnedTo(was, t), now[t] - was[t]);
    }
  }

  lemma LessIsKept(policy: DividendPolicy, was: seq<real>, now: seq<real>, n: nat)
    requires n <= |was| && Falls(was, now) && PaysAtMostProfit(policy) && EarnedTo(now, n) <= EarnedTo(was, n)
    ensures KeptTo(policy, now, n) <= KeptTo(policy, was, n)
  {
    KeptFallsByShare(policy, was, now, n);
    ShareOfFall(KeptShare(policy), EarnedTo(now, n) - EarnedTo(was, n));
  }

  lemma NetLineFalls(inp: Inputs, less: seq<real>, more: seq<real>, n: nat)
    requires ChargesMore(inp, less, more) && n <= |inp.periods| && 0.0 <= inp.taxRate <= 1.0
    ensures Falls(NetLine(inp, less), NetLine(inp, more))
    ensures EarnedTo(NetLine(inp, more), n) <= EarnedTo(NetLine(inp, less), n)
    ensures forall t | 0 <= t < |inp.periods| :: NetLine(inp, more)[t] >= NetLine(inp, less)[t] - (more[t] - less[t])
  {
    LowerEarnings(inp, less, more);
    forall t: nat | t < |inp.periods|
      ensures NetLine(inp, more)[t] <= NetLine(inp, less)[t] || NetLine(inp, less)[t] >= 0.0
      ensures NetLine(inp, more)[t] >= NetLine(inp, less)[t] - (more[t] - less[t])
    {
      NetIncomeShift(inp.nolEnabled, Ebts(inp, less), Ebts(inp, more), inp.taxRate, t);
    }
    NetIncomeFalls(inp.nolEnabled, Ebts(inp, less), Ebts(inp, more), inp.taxRate, n);
  }

  lemma ShareOfFall(share: real, x: real)
    requires share >= 0.0 && x <= 0.0
    ensures Share(share, x) <= 0.0
  {
    MulMono(x, 0.0, share);
  }

  /** More interest never means more equity, whatever losses are carried forward, unless more than
      the profit is paid out. */
  lemma EquityFalls(inp: Inputs, less: seq<real>, more: seq<real>, n: nat)
    requires ChargesMore(inp, less, more) && n <= |inp.periods| && 0.0 <= inp.taxRate <= 1.0 && PaysAtMostProfit(inp.policy)
    ensures EquityAfter(inp, more, n) <= EquityAfter(inp, less, n)
  {
    EquityIs(inp, less, n);
    EquityIs(inp, more, n);
    NetLineFalls(inp, less, more, n);
    LessIsKept(inp.policy, NetLine(inp, less), NetLine(inp, more), n);
  }

  /** A share between none and all of the profit is paid out. */
  predicate PaysShareOfProfit(policy: DividendPolicy) {
    policy.PayoutRatio? ==> 0.0 <= ValueOr0(policy.value) <= 1.0
  }

  /** What is paid out of x is no more than x. */
  predicate PartOf(y: real, x: real) {
    if x >= 0.0 then 0.0 <= y <= x else x <= y <= 0.0
  }

  lemma ShareIsPart(w: real, x: real)
    requires 0.0 <= w <= 1.0
    ensures PartOf(Share(w, x), x)
  {
    SplitProduct(1.0, w, x);
    SignOfProduct(w, x);
    SignOfProduct(1.0 - w, x);
  }

  lemma RiseOfParts(a: real, b: real, was: real, now: real)
    requires PartOf(a, was) && PartOf(b, now) && PartOf(b - a, now - was)
    ensures Max(0.0, b) - Max(0.0, a) <= Max(0.0, now - was)
  {
  }

  lemma PayoutRise(w: real, was: real, now: real)
    requires 0.0 <= w <= 1.0
    ensures Max(0.0, Share(w, now)) - Max(0.0, Share(w, was)) <= Max(0.0, now - was)
  {
    ShareIsPart(w, was);
    ShareIsPart(w, now);
    ShareIsPart(w, now - was);
    ShareOfSum(w, now - was, was);
    RiseOfParts(Share(w, was), Share(w, now), was, now);
  }

  lemma KeptFallsAtMost(policy: DividendPolicy, was: real, now: real, x: real)
    requires PaysShareOfProfit(policy) && now >= was - x && x >= 0.0
    ensures Kept(policy, now) >= Kept(policy, was) - x
  {
    if policy.PayoutRatio? {
      PayoutRise(ValueOr0(policy.value), was, now);
    }
  }

  lemma {:induction false} KeptToFallsAtMost(policy: DividendPolicy, was: seq<real>, now: seq<real>, less: seq<real>,
                                             more: seq<real>, n: nat)
    requires n <= |was| == |now| == |less| == |more| && PaysShareOfProfit(policy)
    requires forall t | 0 <= t < n :: less[t] <= more[t] && now[t] >= was[t] - (more[t] - less[t])
    ensures KeptTo(policy, now, n) >= KeptTo(policy, was, n) - ExtraTo(less, more, n)
  {
    if n > 0 {
      KeptToFallsAtMost(policy, was, now, less, more, n - 1);
      KeptFallsAtMost(policy, was[n - 1], now[n - 1], more[n - 1] - less[n - 1]);
    }
  }

  /** Nor does equity fall by more than the extra interest. */
  lemma EquityFallsAtMost(inp: Inputs, less: seq<real>, more: seq<real>, n: nat)
    requires ChargesMore(inp, less, more) && n <= |inp.periods| && 0.0 <= inp.taxRate <= 1.0 && PaysShareOfProfit(inp.policy)
    ensures EquityAfter(inp, more, n) >= EquityAfter(inp, less, n) - ExtraTo(less, more, n)
  {
    EquityIs(inp, less, n);
    EquityIs(inp, more, n);
    NetLineFalls(inp, less, more, n);
    KeptToFallsAtMost(inp.policy, NetLine(inp, less), NetLine(inp, more), less, more, n);
  }

  lemma {:induction false} ExtraWithin(less: seq<real>, more: seq<real>, n: nat, i: real)
    requires n <= |less| == |more| && forall t | 0 <= t < n :: more[t] <= less[t] + i
    ensures ExtraTo(less, more, n) <= Share(i, n as real)
  {
    if n > 0 {
      ExtraWithin(less, more, n - 1, i);
      ShareOfSum(i, (n - 1) as real, 1.0);
    }
  }

  /** In every period more charges at least what less charges, and at most i on top. */
  ghost predicate Charges(inp: Inputs, less: seq<real>, more: seq<real>, i: real) {
    ChargesMore(inp, less, more) && forall t | 0 <= t < |less| :: more[t] <= less[t] + i
  }

  /** Tax at a rate between none and all, and a share of the profit paid out. */
  predicate Steady(inp: Inputs) {
    0.0 <= inp.taxRate <= 1.0 && PaysShareOfProfit(inp.policy)
  }

  /** Interest of at most i a period takes no more than that from equity. */
  lemma EquityHolds(inp: Inputs, less: seq<real>, more: seq<real>, i: real, n: nat)
    requires Charges(inp, less, more, i) && n <= |inp.periods| && i >= 0.0 && (less == more || Steady(inp))
    ensures EquityAfter(inp, more, n) >= EquityAfter(inp, less, n) - Share(i, n as real)
  {
    if less == more {
      assert Share(i, n as real) >= 0.0;
    } else {
      EquityFallsAtMost(inp, less, more, n);
      ExtraWithin(less, more, n, i);
    }
  }

  /** Cash after more debt and interest. */
  lemma CashHolds(inp: Inputs, c: Cumul, next: Cumul, i: real, t: nat)
    requires Fits(inp, c) && Fits(inp, next) && t < |inp.periods| && i >= 0.0
    requires Charges(inp, c.interest, next.interest, i) && (c.interest == next.interest || Steady(inp))
    ensures CashAt(inp, next, t) >= CashAt(inp, c, t) + (next.debt[t] - c.debt[t]) - Share(i, (t + 1) as real)
  {
    EquityHolds(inp, c.interest, next.interest, i, t + 1);
  }
}
