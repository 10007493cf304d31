/** The consolidated statements line by line, and who owns what (consolidation.py). */
module ConsolidationLaws {
  import opened Consolidation
  import opened FxTranslation
  import opened Labels
  import opened Ledger
  import opened Sequences
  import opened StatementLines
  import opened TranslationLaws

  // ----- One line -----

  /** Weight one on label k, zero on all others. */
  function Only1(k: Label): Label -> real {
    (l: Label) => if l == k then 1.0 else 0.0
  }

  lemma WeightedOne(k: Label, l: Label, x: real)
    ensures Weighted(Only1(k), x, l) == if l == k then x else 0.0
  {
  }

  lemma LineIsNet(d: LineTable, k: Label, horizon: nat, t: nat)
    requires Fits(d, horizon)
    ensures Net(Only1(k), d, t) == LineAt(d, k, t)
  {
    forall l: Label
      ensures OnWeight(Only1(k), d, t)(l) == if l == k then LineAt(d, k, t) else 0.0
    {
      WeightedOne(k, l, LineAt(d, l, t));
    }
    SumOfOne(d.keys, OnWeight(Only1(k), d, t), k);
  }

  /** The sum of a function that is zero but on k. */
  lemma {:induction false} SumOfOne<T>(s: seq<T>, f: T -> real, k: T)
    requires NoDup(s) && forall x | x in s && x != k :: f(x) == 0.0
    ensures SumOver(s, f) == if k in s then f(k) else 0.0
  {
    if s != [] {
      SumOfOne(s[1..], f, k);
      assert s == [s[0]] + s[1..];
    }
  }

  // ----- What an entity contributes to a line -----

  /** A full subsidiary its whole line, a proportional one its share of it; an associate only its share
      of profit or its investment, at the share of its net income or equity; others nothing. */
  function Contribution(e: Holding, kind: Kind, words: Keywords, horizon: nat, k: Label, t: nat): real {
    match e.treatment
    case Full => LineAt(TableOf(e, kind), k, t)
    case Proportional => Percent(e.ownershipPct, LineAt(TableOf(e, kind), k, t))
    case EquityMethod =>
      if t >= horizon then 0.0
      else if kind.Income? && k == Label("Share of profit (" + e.id + ")") then
        Percent(e.ownershipPct, LineOrZeros(e.income, words.isNetIncome, horizon)[t])
      else if kind.Balance? && k == Label("Investment in associate (" + e.id + ")") then
        Percent(e.ownershipPct, LineOrZeros(e.balance, words.isEquity, horizon)[t])
      else 0.0
    case NotConsolidated => 0.0
  }

  function Percent(pct: real, x: real): real {
    x * pct / 100.0
  }

  lemma PercentIs(pct: real, x: real)
    ensures Portion(pct / 100.0, x) == Percent(pct, x) == x * (pct / 100.0)
  {
  }

  lemma ContributionIsNet(e: Holding, kind: Kind, words: Keywords, horizon: nat, k: Label, t: nat)
    requires HoldingFits(e, horizon) && t < horizon
    ensures EntityNet(e, Only1(k), kind, words, horizon, t) == Contribution(e, kind, words, horizon, k, t)
  {
    LineIsNet(TableOf(e, kind), k, horizon, t);
    if e.treatment.Proportional? {
      PercentIs(e.ownershipPct, LineAt(TableOf(e, kind), k, t));
    }
    if e.treatment.EquityMethod? {
      AssociateIsNet(e, kind, words, horizon, k, t);
    }
  }

  lemma AssociateIsNet(e: Holding, kind: Kind, words: Keywords, horizon: nat, k: Label, t: nat)
    requires e.treatment.EquityMethod? && t < horizon
    ensures AssociateNet(e, Only1(k), kind, words, horizon, t) == Contribution(e, kind, words, horizon, k, t)
  {
    if !kind.Cash? {
      PercentIs(e.ownershipPct, KeyFigure(e, kind, words, horizon)[t]);
      WeightedOne(k, AssociateLabel(e, kind), AssociateValues(e, kind, words, horizon)[t]);
    }
  }

  // ----- What an elimination takes out of a line -----

  /** Trades take their amount less tax withheld from both sides of income and balance sheet, and from
      operating cash; dividends theirs from both sides of income, and from the cash line; loans their
      amount from both sides of the balance sheet, and their interest from both sides of income. */
  function Taken(x: Elimination, kind: Kind, k: Label, t: nat): real {
    var gross := if t < |x.amounts| then x.amounts[t] else 0.0;
    var net := gross - (if t < |x.withheld| then x.withheld[t] else 0.0);
    var link := x.linkType;
    if link.ManagementFee? || link.Royalty? || link.Trade? then
      if (kind.Income? && (k == REVENUE || k == EXPENSE)) || (kind.Balance? && (k == RECEIVABLE || k == PAYABLE))
         || (kind.Cash? && k == OPERATING) then net else 0.0
    else if link.Dividend? then
      if (kind.Income? && (k == DIVIDEND_INCOME || k == DIVIDEND_PAID)) || (kind.Cash? && k == DIVIDENDS) then net else 0.0
    else if link.Loan? then
      if kind.Balance? && (k == LOAN_RECEIVABLE || k == LOAN_PAYABLE) then gross
      else if kind.Income? && (k == INTEREST_INCOME || k == INTEREST_EXPENSE) then gross * x.interestRate
      else 0.0
    else 0.0
  }

  lemma LabelsDiffer()
    ensures REVENUE != EXPENSE && RECEIVABLE != PAYABLE && DIVIDEND_INCOME != DIVIDEND_PAID
    ensures LOAN_RECEIVABLE != LOAN_PAYABLE && INTEREST_INCOME != INTEREST_EXPENSE
  {
    assert REVENUE.text[13] == 'r' && EXPENSE.text[13] == 'e';
    assert RECEIVABLE.text[13] == 'r' && PAYABLE.text[13] == 'p';
    assert DIVIDEND_INCOME.text[9] == 'i' && DIVIDEND_PAID.text[9] == 'p';
    assert LOAN_RECEIVABLE.text[18] == 'r' && LOAN_PAYABLE.text[18] == 'p';
    assert INTEREST_INCOME.text[22] == 'i' && INTEREST_EXPENSE.text[22] == 'e';
    assert INTEREST_INCOME.text[23] == 'n' && INTEREST_EXPENSE.text[23] == 'x';
  }

  lemma TakenIsNet(x: Elimination, kind: Kind, k: Label, t: nat)
    ensures OnElimination(Only1(k), kind, t)(x) == -Taken(x, kind, k, t)
  {
    LabelsDiffer();
    var w := EliminationWeight(Only1(k), kind, x.linkType);
    assert w == 0.0 || w == 1.0;
    TakenOutOnce(EliminatedAmount(x, kind, t));
  }

  lemma TakenOutOnce(amount: real)
    ensures TakenOut(0.0, amount) == 0.0 && TakenOut(1.0, amount) == -amount
  {
  }

  // ----- The consolidated line -----

  function OnContribution(kind: Kind, words: Keywords, horizon: nat, k: Label, t: nat): Holding -> real {
    (e: Holding) => Contribution(e, kind, words, horizon, k, t)
  }

  function OnTakenOut(kind: Kind, k: Label, t: nat): Elimination -> real {
    (x: Elimination) => -Taken(x, kind, k, t)
  }

  lemma HoldingsContribute(g: Group, kind: Kind, k: Label, t: nat)
    requires GroupFits(g) && t < g.horizon
    ensures SumOver(g.holdings, OnNet(Only1(k), kind, g.words, g.horizon, t))
         == SumOver(g.holdings, OnContribution(kind, g.words, g.horizon, k, t))
  {
    forall e | e in g.holdings
      ensures OnNet(Only1(k), kind, g.words, g.horizon, t)(e) == OnContribution(kind, g.words, g.horizon, k, t)(e)
    {
      ContributionIsNet(e, kind, g.words, g.horizon, k, t);
    }
    SumOverSame(g.holdings, OnNet(Only1(k), kind, g.words, g.horizon, t), OnContribution(kind, g.words, g.horizon, k, t));
  }

  lemma EliminationsTake(elims: seq<Elimination>, kind: Kind, k: Label, t: nat)
    ensures SumOver(elims, OnElimination(Only1(k), kind, t)) == SumOver(elims, OnTakenOut(kind, k, t))
  {
    forall x | x in elims
      ensures OnElimination(Only1(k), kind, t)(x) == OnTakenOut(kind, k, t)(x)
    {
      TakenIsNet(x, kind, k, t);
    }
    SumOverSame(elims, OnElimination(Only1(k), kind, t), OnTakenOut(kind, k, t));
  }

  /** Every line of a consolidated statement but the minority line is the sum of the entities'
      contributions less what the eliminations take. */
  lemma ConsolidatedLine(g: Group, kind: Kind, k: Label, t: nat)
    requires GroupFits(g) && t < g.horizon
    requires kind.Cash? || k != (if kind.Income? then Label("NCI share of profit") else Label("Non-Controlling Interest"))
    ensures LineAt(Consolidated(g, kind), k, t)
         == SumOver(g.holdings, OnContribution(kind, g.words, g.horizon, k, t)) + SumOver(g.elims, OnTakenOut(kind, k, t))
  {
    LineIsNet(Consolidated(g, kind), k, g.horizon, t);
    ConsolidatedNet(Only1(k), g, kind, t);
    HoldingsContribute(g, kind, k, t);
    EliminationsTake(g.elims, kind, k, t);
  }

  /** Where nothing is to be eliminated the eliminations do not matter. */
  lemma EliminatingIsOptional(es: seq<Entity>, elims: seq<Elimination>, reporting: Currency, market: Market,
                              words: Keywords, horizon: nat)
    requires forall e | e in es :: WellFormedParts(e.statements)
    ensures GroupOf(es, elims, false, reporting, market, words, horizon).elims == []
    ensures horizon > 0 ==> GroupOf(es, elims, true, reporting, market, words, horizon).elims == elims
  {
  }

  // ----- Minorities -----

  /** The net income, or the equity, of a full subsidiary in period t. */
  function Whole(kind: Kind, words: Keywords, horizon: nat, t: nat): Holding -> real {
    (e: Holding) =>
      if !e.treatment.Full? || t >= horizon then 0.0
      else if kind.Income? then LineOrZeros(e.income, words.isNetIncome, horizon)[t]
      else LineOrZeros(TableOf(e, kind), words.isEquity, horizon)[t]
  }

  /** The parent's share of it. */
  function Owned(kind: Kind, words: Keywords, horizon: nat, t: nat): Holding -> real {
    (e: Holding) => Percent(e.ownershipPct, Whole(kind, words, horizon, t)(e))
  }

  lemma OwnedAndRest(e: Holding, kind: Kind, words: Keywords, horizon: nat, t: nat)
    requires e.ownershipPct <= 100.0
    ensures OnNci(kind, words, horizon, t)(e) == Whole(kind, words, horizon, t)(e) - Owned(kind, words, horizon, t)(e)
  {
    Rest(e.ownershipPct, Whole(kind, words, horizon, t)(e));
  }

  lemma Rest(pct: real, x: real)
    ensures x * ((100.0 - pct) / 100.0) == x - Percent(pct, x)
    ensures Percent(100.0, x) == x && Percent(pct, 0.0) == 0.0
  {
  }

  /** The minority figure of a period is what the full subsidiaries earn, or own, beyond the parent's
      share. */
  lemma MinorityIsRest(g: Group, kind: Kind, t: nat)
    requires t < g.horizon && forall e | e in g.holdings :: e.ownershipPct <= 100.0
    ensures Nci(g, kind)[t]
         == SumOver(g.holdings, Whole(kind, g.words, g.horizon, t)) - SumOver(g.holdings, Owned(kind, g.words, g.horizon, t))
  {
    forall e | e in g.holdings
      ensures Whole(kind, g.words, g.horizon, t)(e) == OnNci(kind, g.words, g.horizon, t)(e) + Owned(kind, g.words, g.horizon, t)(e)
    {
      OwnedAndRest(e, kind, g.words, g.horizon, t);
    }
    SumOverAdd(g.holdings, Whole(kind, g.words, g.horizon, t), OnNci(kind, g.words, g.horizon, t),
               Owned(kind, g.words, g.horizon, t));
  }

  /** If it is not zero in every period, income statement and balance sheet show it; the cash flow never
      does. */
  lemma MinorityIsShown(g: Group, kind: Kind, t: nat)
    requires GroupFits(g) && t < g.horizon && exists u | 0 <= u < g.horizon :: Nci(g, kind)[u] != 0.0
    ensures kind.Income? ==> LineAt(Consolidated(g, kind), Label("NCI share of profit"), t) == Nci(g, kind)[t]
    ensures kind.Balance? ==> LineAt(Consolidated(g, kind), Label("Non-Controlling Interest"), t) == Nci(g, kind)[t]
    ensures kind.Cash? ==> Consolidated(g, kind) == Summed(g, kind)
  {
  }

  // ----- Translated entities -----

  /** The lines an entity brings are its own, translated by the tables unless they already are in the
      reporting currency. */
  lemma HoldingIsTranslated(e: Entity, reporting: Currency, market: Market, words: Keywords, horizon: nat)
    requires WellFormedParts(e.statements)
    ensures var h := HoldingOf(e, reporting, market, words, horizon);
            && LinesByTable(h.income, LinesOf(e.statements.income, horizon), market.avg, e.currency, reporting, horizon)
            && LinesByTable(h.cash, LinesOf(e.statements.cash, horizon), market.avg, e.currency, reporting, horizon)
            && LinesByTable(h.balance, LinesOf(e.statements.balance, horizon), market.closing, e.currency, reporting, horizon)
            && h.id == e.id && h.ownershipPct == e.ownershipPct && h.treatment == e.treatment
  {
    TranslatedByTables(e.statements, e.currency, reporting, market, words, horizon);
    HoldingOfFits(e, reporting, market, words, horizon);
  }
}
