/** Straight-line depreciation and net property, plant and equipment (statements.py). */
module Capex {
  import opened RealArith
  import opened Sequences

  datatype ItemRecord = ItemRecord(amount: real, month: nat, usefulLifeMonths: nat, residualValue: real)

  type CapexItem = i: ItemRecord | i.amount >= 0.0 && i.usefulLifeMonths >= 1 && i.residualValue >= 0.0
    witness ItemRecord(0.0, 0, 1, 0.0)

  function MonthlyDa(i: CapexItem): real {
    (i.amount - i.residualValue) / i.usefulLifeMonths as real
  }

  /** The item is being depreciated in period t. */
  predicate Depreciating(i: CapexItem, t: nat) {
    i.month <= t < i.month + i.usefulLifeMonths
  }

  function OnDa(t: nat): CapexItem -> real {
    (i: CapexItem) => if Depreciating(i, t) then MonthlyDa(i) else 0.0
  }

  function OnSpend(t: nat): CapexItem -> real {
    (i: CapexItem) => if i.month == t then i.amount else 0.0
  }

  function OnGross(t: nat): CapexItem -> real {
    (i: CapexItem) => if i.month <= t then i.amount else 0.0
  }

  function DaAt(items: seq<CapexItem>, t: nat): real {
    SumOver(items, OnDa(t))
  }

  /** Everything bought up to period t. */
  function GrossAt(items: seq<CapexItem>, t: nat): real {
    SumOver(items, OnGross(t))
  }

  /** Depreciation accumulated over periods 0 to t. */
  function AccumulatedAt(items: seq<CapexItem>, t: nat): real {
    DaAt(items, t) + (if t == 0 then 0.0 else AccumulatedAt(items, t - 1))
  }

  function NetAt(items: seq<CapexItem>, t: nat): real {
    GrossAt(items, t) - AccumulatedAt(items, t)
  }

  // ----- The closed form -----

  /** Months of depreciation taken by the end of period t. */
  function MonthsTaken(i: CapexItem, t: nat): nat {
    if t + 1 <= i.month then 0
    else if t + 1 - i.month <= i.usefulLifeMonths then t + 1 - i.month
    else i.usefulLifeMonths
  }

  function Taken(i: CapexItem, t: nat): real {
    MonthlyDa(i) * MonthsTaken(i, t) as real
  }

  function OnTaken(t: nat): CapexItem -> real {
    (i: CapexItem) => Taken(i, t)
  }

  /** Accumulated depreciation is, item by item, the monthly charge times the months taken. */
  lemma {:induction false} AccumulatedClosedForm(items: seq<CapexItem>, t: nat)
    ensures AccumulatedAt(items, t) == SumOver(items, OnTaken(t))
  {
    forall i | i in items
      ensures OnTaken(t)(i) == OnDa(t)(i) + (if t == 0 then 0.0 else OnTaken(t - 1)(i))
    {
      TakenStep(i, t);
    }
    if t == 0 {
      SumOverSame(items, OnDa(0), OnTaken(0));
    } else {
      AccumulatedClosedForm(items, t - 1);
      SumOverAdd(items, OnTaken(t), OnDa(t), OnTaken(t - 1));
    }
  }

  lemma TakenStep(i: CapexItem, t: nat)
    ensures Taken(i, t) == (if Depreciating(i, t) then MonthlyDa(i) else 0.0) + (if t == 0 then 0.0 else Taken(i, t - 1))
  {
    var m := MonthlyDa(i);
    var k := if t == 0 then 0 else MonthsTaken(i, t - 1);
    assert Depreciating(i, t) ==> MonthsTaken(i, t) == k + 1;
    assert !Depreciating(i, t) ==> MonthsTaken(i, t) == k;
    assert m * (k as real + 1.0) == m * k as real + m;
    assert m * 0.0 == 0.0;
  }

  /** After its whole life an item has been written down by amount less residual. */
  lemma FullyTaken(i: CapexItem)
    ensures MonthlyDa(i) * i.usefulLifeMonths as real == i.amount - i.residualValue
  {
  }

  // ----- Net book value against residual values -----

  /** The item is in service by period t. */
  predicate InService(i: CapexItem, t: nat) {
    i.month <= t
  }

  function OnResidual(t: nat): CapexItem -> real {
    (i: CapexItem) => if InService(i, t) then i.residualValue else 0.0
  }

  function ResidualsAt(items: seq<CapexItem>, t: nat): real {
    SumOver(items, OnResidual(t))
  }

  function OnExcess(t: nat): CapexItem -> real {
    (i: CapexItem) => OnGross(t)(i) - OnTaken(t)(i) - OnResidual(t)(i)
  }

  predicate WrittenDown(i: CapexItem, t: nat) {
    !InService(i, t) || t + 1 >= i.month + i.usefulLifeMonths || i.amount == i.residualValue
  }

  /** What an item still carries above its residual value. */
  lemma ExcessOfItem(i: CapexItem, t: nat)
    requires i.residualValue <= i.amount
    ensures OnExcess(t)(i) >= 0.0
    ensures OnExcess(t)(i) == 0.0 <==> WrittenDown(i, t)
  {
    var m, life, k := MonthlyDa(i), i.usefulLifeMonths as real, MonthsTaken(i, t) as real;
    FullyTaken(i);
    QuotientSign(i.amount - i.residualValue, life);
    assert m * 0.0 == 0.0;
    if InService(i, t) {
      MulMinus(m, life, k);
      assert m * life == i.amount - i.residualValue;
      assert OnGross(t)(i) == i.amount && OnResidual(t)(i) == i.residualValue;
      assert OnTaken(t)(i) == m * k;
      assert OnExcess(t)(i) == m * (life - k);
      MulMono(0.0, life - k, m);
      assert m * (life - k) == (life - k) * m && 0.0 * m == 0.0;
      MulZero(m, life - k);
      MulZero(m, life);
    } else {
      assert k == 0.0 && OnTaken(t)(i) == m * k;
      assert OnGross(t)(i) == OnResidual(t)(i) == 0.0;
    }
  }

  /** Net PP&E never falls below the residual values in service, and equals them exactly when
      every item in service has reached the end of its life (or had nothing to depreciate). */
  lemma NetAgainstResiduals(items: seq<CapexItem>, t: nat)
    requires forall i | i in items :: i.residualValue <= i.amount
    ensures NetAt(items, t) >= ResidualsAt(items, t)
    ensures NetAt(items, t) == ResidualsAt(items, t) <==> forall i | i in items :: WrittenDown(i, t)
  {
    AccumulatedClosedForm(items, t);
    SplitExcess(items, t);
    ExcessSum(items, t);
  }

  lemma {:induction false} SplitExcess(items: seq<CapexItem>, t: nat)
    ensures SumOver(items, OnGross(t)) - SumOver(items, OnTaken(t)) - SumOver(items, OnResidual(t))
         == SumOver(items, OnExcess(t))
  {
    if items != [] {
      SplitExcess(items[1..], t);
    }
  }

  lemma {:induction false} ExcessSum(items: seq<CapexItem>, t: nat)
    requires forall i | i in items :: i.residualValue <= i.amount
    ensures SumOver(items, OnExcess(t)) >= 0.0
    ensures SumOver(items, OnExcess(t)) == 0.0 <==> forall i | i in items :: WrittenDown(i, t)
  {
    if items != [] {
      ExcessSum(items[1..], t);
      ExcessOfItem(items[0], t);
      assert forall i | i in items :: i == items[0] || i in items[1..];
    }
  }

  // ----- The loops -----

  method ComputeDaPerPeriod(items: seq<CapexItem>, horizon: nat) returns (da: seq<real>)
    ensures |da| == horizon
    ensures forall t: nat | t < horizon :: da[t] == DaAt(items, t)
  {
    da := seq(horizon, _ => 0.0);
    for k := 0 to |items|
      invariant |da| == horizon
      invariant forall t: nat | t < horizon :: da[t] == SumOver(items[..k], OnDa(t))
    {
      var item := items[k];
      var monthly := MonthlyDa(item);
      var end := if item.month + item.usefulLifeMonths < horizon then item.month + item.usefulLifeMonths else horizon;
      ghost var before := da;
      var t := item.month;
      while t < end
        invariant item.month <= t && (t <= end || item.month > end)
        invariant |da| == horizon
        invariant forall u: nat | u < horizon :: da[u] == before[u] + (if item.month <= u < t && u < end then monthly else 0.0)
      {
        da := da[t := da[t] + monthly];
        t := t + 1;
      }
      forall u: nat | u < horizon
        ensures da[u] == SumOver(items[..k + 1], OnDa(u))
      {
        SumOverTake(items, k, OnDa(u));
      }
    }
    assert items[..|items|] == items;
  }

  method ComputeGross(items: seq<CapexItem>, horizon: nat) returns (gross: seq<real>)
    ensures |gross| == horizon
    ensures forall t: nat | t < horizon :: gross[t] == GrossAt(items, t)
  {
    gross := SpendPerPeriod(items, horizon);
    if horizon == 0 {
      return;
    }
    for t := 1 to horizon
      invariant |gross| == horizon
      invariant forall u: nat | u < t :: gross[u] == GrossAt(items, u)
      invariant forall u: nat | t <= u < horizon :: gross[u] == SumOver(items, OnSpend(u))
    {
      SumOverAdd(items, OnGross(t), OnSpend(t), OnGross(t - 1));
      gross := gross[t := gross[t] + gross[t - 1]];
    }
  }

  method SpendPerPeriod(items: seq<CapexItem>, horizon: nat) returns (spend: seq<real>)
    ensures |spend| == horizon
    ensures forall t: nat | t < horizon :: spend[t] == SumOver(items, OnSpend(t))
    ensures horizon > 0 ==> spend[0] == GrossAt(items, 0)
  {
    spend := seq(horizon, _ => 0.0);
    for k := 0 to |items|
      invariant |spend| == horizon
      invariant forall t: nat | t < horizon :: spend[t] == SumOver(items[..k], OnSpend(t))
    {
      var item := items[k];
      forall t: nat | t < horizon
        ensures SumOver(items[..k + 1], OnSpend(t)) == spend[t] + OnSpend(t)(item)
      {
        SumOverTake(items, k, OnSpend(t));
      }
      if item.month < horizon {
        spend := spend[item.month := spend[item.month] + item.amount];
      }
    }
    assert items[..|items|] == items;
    SumOverSame(items, OnSpend(0), OnGross(0));
  }

  method Accumulate(items: seq<CapexItem>, da: seq<real>) returns (acc: seq<real>)
    requires forall t: nat | t < |da| :: da[t] == DaAt(items, t)
    ensures |acc| == |da|
    ensures forall t: nat | t < |da| :: acc[t] == AccumulatedAt(items, t)
  {
    acc := seq(|da|, _ => 0.0);
    for t := 0 to |da|
      invariant |acc| == |da|
      invariant forall u: nat | u < t :: acc[u] == AccumulatedAt(items, u)
    {
      acc := acc[t := if t > 0 then acc[t - 1] + da[t] else da[0]];
    }
  }
}
