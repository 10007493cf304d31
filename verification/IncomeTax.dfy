/** Taxable income with loss carry-forward (statements.py, IAS 12). */
module IncomeTax {
  import opened RealArith
  import opened Sequences

  /** Loss used, taxable income and loss balance after one period. */
  datatype TaxLine = TaxLine(used: real, taxable: real, nolBalance: real)

  function Offset(enabled: bool, ebt: real, nolBalance: real): TaxLine {
    var used := if enabled && ebt > 0.0 && nolBalance > 0.0 then Min(nolBalance, ebt) else 0.0;
    var left := nolBalance - used;
    TaxLine(used, Max(0.0, ebt - used), if enabled && ebt < 0.0 then left + Abs(ebt) else left)
  }

  /** Loss balance after the first n periods. */
  function NolAfter(enabled: bool, ebts: seq<real>, n: nat): real
    requires n <= |ebts|
  {
    if n == 0 then 0.0 else Offset(enabled, ebts[n - 1], NolAfter(enabled, ebts, n - 1)).nolBalance
  }

  function TaxLineAt(enabled: bool, ebts: seq<real>, t: nat): TaxLine
    requires t < |ebts|
  {
    Offset(enabled, ebts[t], NolAfter(enabled, ebts, t))
  }

  /** Total taxable income of the first n periods. */
  function TaxableTo(enabled: bool, ebts: seq<real>, n: nat): real
    requires n <= |ebts|
  {
    if n == 0 then 0.0 else TaxableTo(enabled, ebts, n - 1) + TaxLineAt(enabled, ebts, n - 1).taxable
  }

  /** Cumulative earnings before tax. */
  function EarnedTo(ebts: seq<real>, n: nat): real
    requires n <= |ebts|
  {
    if n == 0 then 0.0 else EarnedTo(ebts, n - 1) + ebts[n - 1]
  }

  /** The running maximum of cumulative earnings, never below zero. */
  function HighWater(ebts: seq<real>, n: nat): real
    requires n <= |ebts|
  {
    if n == 0 then 0.0 else Max(HighWater(ebts, n - 1), EarnedTo(ebts, n))
  }

  /** With carry-forward, the income taxed so far is the high-water mark of cumulative
      earnings, and the loss balance is how far earnings now stand below it. */
  lemma {:induction false} CarryForwardClosedForm(ebts: seq<real>, n: nat)
    requires n <= |ebts|
    ensures TaxableTo(true, ebts, n) == HighWater(ebts, n)
    ensures NolAfter(true, ebts, n) == HighWater(ebts, n) - EarnedTo(ebts, n)
    ensures NolAfter(true, ebts, n) >= 0.0
  {
    if n > 0 {
      CarryForwardClosedForm(ebts, n - 1);
    }
  }

  /** A way of charging income to tax: never negative in total, never refunding, never behind
      cumulative earnings. */
  ghost predicate CoversEarnings(charged: seq<real>, ebts: seq<real>) {
    && |charged| == |ebts| + 1
    && charged[0] >= 0.0
    && (forall n: nat | n < |ebts| :: charged[n] <= charged[n + 1])
    && (forall n: nat | n <= |ebts| :: EarnedTo(ebts, n) <= charged[n])
  }

  /** Carry-forward taxes the least cumulative income that covers earnings, at every date. */
  lemma {:induction false} CarryForwardIsLeast(ebts: seq<real>, charged: seq<real>, n: nat)
    requires n <= |ebts| && CoversEarnings(charged, ebts)
    ensures TaxableTo(true, ebts, n) <= charged[n]
  {
    CarryForwardClosedForm(ebts, n);
    if n > 0 {
      CarryForwardClosedForm(ebts, n - 1);
      CarryForwardIsLeast(ebts, charged, n - 1);
    }
  }

  /** The cumulative taxable income itself is such a charge. */
  lemma CarryForwardCovers(ebts: seq<real>)
    ensures CoversEarnings(seq(|ebts| + 1, n requires 0 <= n <= |ebts| => TaxableTo(true, ebts, n)), ebts)
  {
    forall n: nat | n <= |ebts|
      ensures EarnedTo(ebts, n) <= TaxableTo(true, ebts, n)
    {
      CarryForwardClosedForm(ebts, n);
    }
  }

  /** Hence tax with carry-forward never exceeds tax without it, and it is the same in total
      exactly when no profit ever follows a loss that is still open. */
  lemma {:induction false} CarryForwardNeverCosts(ebts: seq<real>, n: nat, rate: real)
    requires n <= |ebts| && rate >= 0.0
    ensures TaxableTo(true, ebts, n) * rate <= TaxableTo(false, ebts, n) * rate
    ensures TaxableTo(true, ebts, n) == TaxableTo(false, ebts, n)
            <==> forall t: nat | t < n :: ebts[t] > 0.0 ==> NolAfter(true, ebts, t) <= 0.0
  {
    TaxableOrder(ebts, n);
    MulMono(TaxableTo(true, ebts, n), TaxableTo(false, ebts, n), rate);
  }

  lemma {:induction false} TaxableOrder(ebts: seq<real>, n: nat)
    requires n <= |ebts|
    ensures TaxableTo(true, ebts, n) <= TaxableTo(false, ebts, n)
    ensures TaxableTo(true, ebts, n) == TaxableTo(false, ebts, n)
            <==> forall t: nat | t < n :: ebts[t] > 0.0 ==> NolAfter(true, ebts, t) <= 0.0
  {
    if n > 0 {
      TaxableOrder(ebts, n - 1);
      CarryForwardClosedForm(ebts, n - 1);
      var ebt, nol := ebts[n - 1], NolAfter(true, ebts, n - 1);
      assert TaxLineAt(true, ebts, n - 1).taxable < TaxLineAt(false, ebts, n - 1).taxable <==> ebt > 0.0 && nol > 0.0;
    }
  }

  // ----- Lower earnings -----

  /** In no period does lower earn more than ebts. */
  ghost predicate EarnsLess(lower: seq<real>, ebts: seq<real>) {
    |lower| == |ebts| && forall t | 0 <= t < |ebts| :: lower[t] <= ebts[t]
  }

  /** What has been lost by then. */
  function LostTo(ebts: seq<real>, lower: seq<real>, n: nat): real
    requires n <= |ebts| == |lower|
  {
    EarnedTo(ebts, n) - EarnedTo(lower, n)
  }

  lemma {:induction false} HighWaterFalls(ebts: seq<real>, lower: seq<real>, n: nat)
    requires n <= |ebts| && EarnsLess(lower, ebts)
    ensures 0.0 <= HighWater(ebts, n) - HighWater(lower, n) <= LostTo(ebts, lower, n)
  {
    if n > 0 {
      HighWaterFalls(ebts, lower, n - 1);
    }
  }

  lemma {:induction false} ProfitsFall(ebts: seq<real>, lower: seq<real>, n: nat)
    requires n <= |ebts| && EarnsLess(lower, ebts)
    ensures 0.0 <= TaxableTo(false, ebts, n) - TaxableTo(false, lower, n) <= LostTo(ebts, lower, n)
  {
    if n > 0 {
      ProfitsFall(ebts, lower, n - 1);
    }
  }

  /** Losing earnings lowers taxable income, in total by at most what is lost. */
  lemma TaxableFalls(enabled: bool, ebts: seq<real>, lower: seq<real>, n: nat)
    requires n <= |ebts| && EarnsLess(lower, ebts)
    ensures 0.0 <= TaxableTo(enabled, ebts, n) - TaxableTo(enabled, lower, n) <= LostTo(ebts, lower, n)
  {
    if enabled {
      CarryForwardClosedForm(ebts, n);
      CarryForwardClosedForm(lower, n);
      HighWaterFalls(ebts, lower, n);
    } else {
      ProfitsFall(ebts, lower, n);
    }
  }

  lemma {:induction false} NoCarriedLoss(ebts: seq<real>, n: nat)
    requires n <= |ebts|
    ensures NolAfter(false, ebts, n) == 0.0
  {
    if n > 0 {
      NoCarriedLoss(ebts, n - 1);
    }
  }

  /** The loss balance grows, by at most what is lost. */
  lemma LossesGrow(enabled: bool, ebts: seq<real>, lower: seq<real>, n: nat)
    requires n <= |ebts| && EarnsLess(lower, ebts)
    ensures 0.0 <= NolAfter(enabled, ebts, n) <= NolAfter(enabled, lower, n)
    ensures NolAfter(enabled, lower, n) <= NolAfter(enabled, ebts, n) + LostTo(ebts, lower, n)
  {
    HighWaterFalls(ebts, lower, n);
    if enabled {
      CarryForwardClosedForm(ebts, n);
      CarryForwardClosedForm(lower, n);
    } else {
      NoCarriedLoss(ebts, n);
      NoCarriedLoss(lower, n);
    }
  }

  lemma TaxableIsProfitBeyondLosses(enabled: bool, ebts: seq<real>, t: nat)
    requires t < |ebts|
    ensures TaxLineAt(enabled, ebts, t).taxable == Max(0.0, ebts[t] - NolAfter(enabled, ebts, t))
  {
    if enabled {
      CarryForwardClosedForm(ebts, t);
    } else {
      NoCarriedLoss(ebts, t);
    }
  }

  /** How much of period t's earnings and of the loss balance before it has shifted. */
  function Shifted(enabled: bool, ebts: seq<real>, lower: seq<real>, t: nat): real
    requires t < |ebts| == |lower|
  {
    (ebts[t] - lower[t]) + (NolAfter(enabled, lower, t) - NolAfter(enabled, ebts, t))
  }

  /** A period's taxable income falls by the earnings lost in it and by the losses carried into it
      from earlier, as far as there was taxable income. */
  lemma TaxableShift(enabled: bool, ebts: seq<real>, lower: seq<real>, t: nat)
    requires t < |ebts| && EarnsLess(lower, ebts)
    ensures var taxable := TaxLineAt(enabled, ebts, t).taxable;
            && TaxLineAt(enabled, lower, t).taxable == taxable - Min(taxable, Shifted(enabled, ebts, lower, t))
            && 0.0 <= Min(taxable, Shifted(enabled, ebts, lower, t))
            && taxable <= Max(0.0, ebts[t])
  {
    LossesGrow(enabled, ebts, lower, t);
    TaxableIsProfitBeyondLosses(enabled, ebts, t);
    TaxableIsProfitBeyondLosses(enabled, lower, t);
  }

  // ----- Net income -----

  function Tax(taxable: real, rate: real): real {
    taxable * rate
  }

  lemma TaxOnLess(taxable: real, gone: real, rate: real)
    requires gone >= 0.0 && 0.0 <= rate <= 1.0
    ensures Tax(taxable - gone, rate) == Tax(taxable, rate) - Tax(gone, rate)
    ensures 0.0 <= Tax(gone, rate) <= gone
  {
    SplitProduct(taxable, gone, rate);
    SignOfProduct(gone, rate);
    SplitProduct(1.0, rate, gone);
    SignOfProduct(1.0 - rate, gone);
  }

  /** Earnings after tax, period by period. */
  function NetIncomes(enabled: bool, ebts: seq<real>, rate: real): (r: seq<real>)
    ensures |r| == |ebts|
  {
    seq(|ebts|, t requires 0 <= t < |ebts| => ebts[t] - Tax(TaxLineAt(enabled, ebts, t).taxable, rate))
  }

  /** The tax a period is spared on its own lost earnings and on the losses that earlier ones carry
      into it. */
  function TaxSpared(enabled: bool, ebts: seq<real>, lower: seq<real>, rate: real, t: nat): real
    requires t < |ebts| == |lower|
  {
    Tax(Min(TaxLineAt(enabled, ebts, t).taxable, Shifted(enabled, ebts, lower, t)), rate)
  }

  /** Net income falls by the earnings lost less the tax spared; tax is spared only where there was
      a profit to tax. */
  lemma NetIncomeShift(enabled: bool, ebts: seq<real>, lower: seq<real>, rate: real, t: nat)
    requires t < |ebts| && EarnsLess(lower, ebts) && 0.0 <= rate <= 1.0
    ensures var was, now := NetIncomes(enabled, ebts, rate)[t], NetIncomes(enabled, lower, rate)[t];
            var spared := TaxSpared(enabled, ebts, lower, rate, t);
            && now == was - (ebts[t] - lower[t]) + spared
            && 0.0 <= spared <= TaxLineAt(enabled, ebts, t).taxable - TaxLineAt(enabled, lower, t).taxable
            && (spared > 0.0 ==> was >= 0.0)
  {
    TaxableShift(enabled, ebts, lower, t);
    var taxable := TaxLineAt(enabled, ebts, t).taxable;
    TaxOnLess(taxable, Min(taxable, Shifted(enabled, ebts, lower, t)), rate);
    TaxOnLess(taxable, taxable, rate);
  }

  lemma {:induction false} NetIncomeGap(enabled: bool, ebts: seq<real>, lower: seq<real>, rate: real, n: nat)
    requires n <= |ebts| && EarnsLess(lower, ebts) && 0.0 <= rate <= 1.0
    ensures EarnedTo(NetIncomes(enabled, lower, rate), n) - EarnedTo(NetIncomes(enabled, ebts, rate), n)
         <= TaxableTo(enabled, ebts, n) - TaxableTo(enabled, lower, n) - LostTo(ebts, lower, n)
  {
    if n > 0 {
      NetIncomeGap(enabled, ebts, lower, rate, n - 1);
      NetIncomeShift(enabled, ebts, lower, rate, n - 1);
    }
  }

  /** Losing earnings never raises net income in total. */
  lemma NetIncomeFalls(enabled: bool, ebts: seq<real>, lower: seq<real>, rate: real, n: nat)
    requires n <= |ebts| && EarnsLess(lower, ebts) && 0.0 <= rate <= 1.0
    ensures EarnedTo(NetIncomes(enabled, lower, rate), n) <= EarnedTo(NetIncomes(enabled, ebts, rate), n)
  {
    NetIncomeGap(enabled, ebts, lower, rate, n);
    TaxableFalls(enabled, ebts, lower, n);
  }
}
