/** The consolidation run: translate, add up, eliminate, split off minorities (consolidation.py). */
module GroupStatements {
  import opened Consolidation
  import opened Dicts
  import opened FxTranslation
  import opened Labels
  import opened Ledger
  import opened Sequences
  import opened StatementLines
  import opened Wrappers

  datatype ConsolidatedResult = ConsolidatedResult(
    income: Part, balance: Part, cash: Part, nciProfit: seq<real>, nciEquity: seq<real>)

  method Consolidate(es: seq<Entity>, elims: seq<Elimination>, eliminate: bool, reporting: Currency, market: Market,
                     words: Keywords, horizon: nat)
    returns (r: ConsolidatedResult)
    requires forall e | e in es :: WellFormedParts(e.statements)
    ensures var g := GroupOf(es, elims, eliminate, reporting, market, words, horizon);
            && GroupFits(g)
            && r.income == DictToPeriodSeries(Consolidated(g, Income), horizon)
            && r.balance == DictToPeriodSeries(Consolidated(g, Balance), horizon)
            && r.cash == DictToPeriodSeries(Consolidated(g, Cash), horizon)
            && r.nciProfit == Nci(g, Income)
            && r.nciEquity == Nci(g, Balance)
  {
    var holdings := TranslateAll(es, reporting, market, words, horizon);
    var g := Group(holdings, Applied(elims, eliminate, horizon), words, horizon);
    HoldingsFit(es, reporting, market, words, horizon);
    var income, nciProfit := AddUp(g, Income);
    var balance, nciEquity := AddUp(g, Balance);
    var cash, unused := AddUp(g, Cash);
    r := ConsolidatedResult(DictToPeriodSeries(income, horizon), DictToPeriodSeries(balance, horizon),
                            DictToPeriodSeries(cash, horizon), nciProfit, nciEquity);
  }

  method TranslateAll(es: seq<Entity>, reporting: Currency, market: Market, words: Keywords, horizon: nat)
    returns (holdings: seq<Holding>)
    requires forall e | e in es :: WellFormedParts(e.statements)
    ensures holdings == HoldingsOf(es, reporting, market, words, horizon)
  {
    holdings := [];
    for i := 0 to |es|
      invariant holdings == HoldingsOf(es[..i], reporting, market, words, horizon)
    {
      var h := TranslateEntity(es[i], reporting, market, words, horizon);
      assert es[..i + 1][..i] == es[..i];
      holdings := holdings + [h];
    }
    assert es[..|es|] == es;
  }

  method TranslateEntity(e: Entity, reporting: Currency, market: Market, words: Keywords, horizon: nat)
    returns (h: Holding)
    requires WellFormedParts(e.statements)
    ensures h == HoldingOf(e, reporting, market, words, horizon)
  {
    var st := e.statements;
    if e.currency != reporting {
      var translated, warnings := TranslateStatements(st, e.currency, reporting, market, words, horizon);
      st := translated;
    }
    var isData := GetPeriodValues(PartOr(st.income, Nothing), horizon);
    var bsData := GetPeriodValues(PartOr(st.balance, Nothing), horizon);
    var cfData := GetPeriodValues(PartOr(st.cash, Nothing), horizon);
    h := Holding(e.id, e.ownershipPct, e.treatment, isData, bsData, cfData);
  }

  /** One consolidated statement and its minority series. */
  method AddUp(g: Group, kind: Kind) returns (table: LineTable, nci: seq<real>)
    requires GroupFits(g)
    ensures table == Consolidated(g, kind) && nci == Nci(g, kind)
  {
    var horizon := g.horizon;
    EmptyFits(horizon);
    AllIsSized(g, kind);
    OnlyFits(g);
    var full := PostEntities(Empty(), Only(g.holdings, Full), kind, g.words, horizon);
    var proportional := PostEntities(full, Only(g.holdings, Proportional), kind, g.words, horizon);
    var associates := PostEntities(proportional, Only(g.holdings, EquityMethod), kind, g.words, horizon);
    var eliminated := PostEliminations(associates, g.elims, kind, horizon);
    ChainPostings(g, kind, full, proportional, associates, eliminated);
    nci := ComputeNci(g, kind);
    table := eliminated;
    if !kind.Cash? && AnyNonZero(nci) {
      table := Put(table, NciLabel(kind), nci);
    }
  }

  lemma OnlyFits(g: Group)
    requires GroupFits(g)
    ensures forall treatment, e | e in Only(g.holdings, treatment) :: HoldingFits(e, g.horizon)
  {
    forall treatment, e | e in Only(g.holdings, treatment)
      ensures HoldingFits(e, g.horizon)
    {
      OnlyFrom(g.holdings, treatment);
    }
  }

  lemma {:induction false} FlatMapAppend<S>(a: seq<S>, b: seq<S>, f: S -> seq<Posting>)
    ensures FlatMap(a + b, f) == FlatMap(a, f) + FlatMap(b, f)
  {
    if a == [] {
      assert a + b == b;
    } else {
      assert (a + b)[1..] == a[1..] + b;
      FlatMapAppend(a[1..], b, f);
    }
  }

  ghost predicate Posted(table: LineTable, ps: seq<Posting>, horizon: nat, result: LineTable) {
    Fits(table, horizon) && Sized(ps, horizon) && result == PostAll(table, ps, horizon)
  }

  lemma ThenPosted(a: LineTable, ps: seq<Posting>, b: LineTable, qs: seq<Posting>, c: LineTable, horizon: nat)
    requires Posted(a, ps, horizon, b) && Posted(b, qs, horizon, c)
    ensures Posted(a, ps + qs, horizon, c)
  {
    PostAllAppend(a, ps, qs, horizon);
  }

  lemma ChainPostings(g: Group, kind: Kind, full: LineTable, proportional: LineTable, associates: LineTable,
                      eliminated: LineTable)
    requires GroupFits(g)
    requires var f, h := OfEntity(kind, g.words, g.horizon), g.horizon;
             && Posted(Empty(), FlatMap(Only(g.holdings, Full), f), h, full)
             && Posted(full, FlatMap(Only(g.holdings, Proportional), f), h, proportional)
             && Posted(proportional, FlatMap(Only(g.holdings, EquityMethod), f), h, associates)
             && Posted(associates, FlatMap(g.elims, OfElimination(kind, h)), h, eliminated)
    ensures eliminated == Summed(g, kind)
  {
    var f, h := OfEntity(kind, g.words, g.horizon), g.horizon;
    var a, b, c := Only(g.holdings, Full), Only(g.holdings, Proportional), Only(g.holdings, EquityMethod);
    FlatMapAppend(a, b, f);
    FlatMapAppend(a + b, c, f);
    ThenPosted(Empty(), FlatMap(a, f), full, FlatMap(b, f), proportional, h);
    ThenPosted(Empty(), FlatMap(a + b, f), proportional, FlatMap(c, f), associates, h);
    ThenPosted(Empty(), FlatMap(a + b + c, f), associates, FlatMap(g.elims, OfElimination(kind, h)), eliminated, h);
  }

  method PostEntities(table: LineTable, es: seq<Holding>, kind: Kind, words: Keywords, horizon: nat)
    returns (out: LineTable)
    requires Fits(table, horizon) && forall e | e in es :: HoldingFits(e, horizon)
    ensures Posted(table, FlatMap(es, OfEntity(kind, words, horizon)), horizon, out)
  {
    ghost var f := OfEntity(kind, words, horizon);
    out := table;
    for i := 0 to |es|
      invariant Posted(table, FlatMap(es[..i], f), horizon, out) && Fits(out, horizon)
    {
      var before := out;
      out := PostEntity(out, es[i], kind, words, horizon);
      ThenPosted(table, FlatMap(es[..i], f), before, EntityPostings(es[i], kind, words, horizon), out, horizon);
      TakeOneMore(es, i, f);
    }
    assert es[..|es|] == es;
  }

  lemma TakeOneMore<S>(s: seq<S>, i: nat, f: S -> seq<Posting>)
    requires i < |s|
    ensures FlatMap(s[..i + 1], f) == FlatMap(s[..i], f) + f(s[i])
  {
    assert s[..i + 1] == s[..i] + [s[i]];
    FlatMapAppend(s[..i], [s[i]], f);
    assert [s[i]][1..] == [];
    assert FlatMap([s[i]], f) == f(s[i]) + [];
  }

  method PostEntity(table: LineTable, e: Holding, kind: Kind, words: Keywords, horizon: nat) returns (out: LineTable)
    requires Fits(table, horizon) && HoldingFits(e, horizon)
    ensures Posted(table, EntityPostings(e, kind, words, horizon), horizon, out) && Fits(out, horizon)
  {
    match e.treatment
    case Full =>
      assert EntityPostings(e, kind, words, horizon) == ShareOf(TableOf(e, kind), 1.0);
      out := PostShare(table, TableOf(e, kind), 1.0, horizon);
    case Proportional =>
      assert EntityPostings(e, kind, words, horizon) == ShareOf(TableOf(e, kind), e.ownershipPct / 100.0);
      out := PostShare(table, TableOf(e, kind), e.ownershipPct / 100.0, horizon);
    case EquityMethod =>
      out := table;
      if !kind.Cash? {
        var share := ShareOfFigure(e, kind, words, horizon);
        out := PostSeries(table, Posting(AssociateLabel(e, kind), share), horizon);
      }
    case NotConsolidated =>
      out := table;
  }

  method PostShare(table: LineTable, lines: LineTable, factor: real, horizon: nat) returns (out: LineTable)
    requires Fits(table, horizon) && Fits(lines, horizon)
    ensures Posted(table, ShareOf(lines, factor), horizon, out) && Fits(out, horizon)
  {
    out := MergeInto(table, lines, factor, horizon);
  }

  /** The parent's share of an associate's key figure. */
  method ShareOfFigure(e: Holding, kind: Kind, words: Keywords, horizon: nat) returns (share: seq<real>)
    ensures share == AssociateValues(e, kind, words, horizon)
  {
    share := AddInPlace(Zeros(horizon), KeyFigure(e, kind, words, horizon), e.ownershipPct / 100.0);
  }

  /** Adds one series to a line, which starts at zero when it is new. */
  method PostSeries(table: LineTable, p: Posting, horizon: nat) returns (out: LineTable)
    requires Fits(table, horizon) && |p.values| == horizon
    ensures Posted(table, [p], horizon, out) && Fits(out, horizon)
  {
    var line := LineOf(table, p.key, horizon);
    ghost var was := line;
    for t := 0 to horizon
      invariant |line| == horizon
      invariant forall u | 0 <= u < t :: line[u] == was[u] + p.values[u]
      invariant forall u | t <= u < horizon :: line[u] == was[u]
    {
      line := line[t := line[t] + p.values[t]];
    }
    PostFits(table, p, horizon);
    assert line == AddSeries(was, p.values);
    assert [p][1..] == [];
    out := Put(table, p.key, line);
  }

  method PostEliminations(table: LineTable, elims: seq<Elimination>, kind: Kind, horizon: nat) returns (out: LineTable)
    requires Fits(table, horizon)
    ensures Posted(table, FlatMap(elims, OfElimination(kind, horizon)), horizon, out)
  {
    ghost var f := OfElimination(kind, horizon);
    out := table;
    for i := 0 to |elims|
      invariant Posted(table, FlatMap(elims[..i], f), horizon, out) && Fits(out, horizon)
    {
      var before := out;
      var postings := OfElimination(kind, horizon)(elims[i]);
      out := PostList(out, postings, horizon);
      ThenPosted(table, FlatMap(elims[..i], f), before, postings, out, horizon);
      TakeOneMore(elims, i, f);
    }
    assert elims[..|elims|] == elims;
  }

  method PostList(table: LineTable, ps: seq<Posting>, horizon: nat) returns (out: LineTable)
    requires Fits(table, horizon) && Sized(ps, horizon)
    ensures Posted(table, ps, horizon, out) && Fits(out, horizon)
  {
    out := table;
    for i := 0 to |ps|
      invariant Posted(table, ps[..i], horizon, out) && Fits(out, horizon)
    {
      var before := out;
      out := PostSeries(out, ps[i], horizon);
      ThenPosted(table, ps[..i], before, [ps[i]], out, horizon);
      assert ps[..i + 1] == ps[..i] + [ps[i]];
    }
    assert ps[..|ps|] == ps;
  }

  method ComputeNci(g: Group, kind: Kind) returns (nci: seq<real>)
    ensures nci == Nci(g, kind)
  {
    nci := Zeros(g.horizon);
    for i := 0 to |g.holdings|
      invariant |nci| == g.horizon
      invariant forall t: nat | t < g.horizon ::
                  nci[t] == SumOver(g.holdings[..i], OnNci(kind, g.words, g.horizon, t))
    {
      ghost var was := nci;
      nci := AddNci(nci, g.holdings[i], kind, g.words, g.horizon);
      forall t: nat | t < g.horizon
        ensures nci[t] == SumOver(g.holdings[..i + 1], OnNci(kind, g.words, g.horizon, t))
      {
        SumOverTake(g.holdings, i, OnNci(kind, g.words, g.horizon, t));
      }
    }
    assert g.holdings[..|g.holdings|] == g.holdings;
  }

  method AddNci(was: seq<real>, e: Holding, kind: Kind, words: Keywords, horizon: nat) returns (nci: seq<real>)
    requires |was| == horizon
    ensures |nci| == horizon
    ensures forall t: nat | t < horizon :: nci[t] == was[t] + OnNci(kind, words, horizon, t)(e)
  {
    nci := was;
    if e.treatment.Full? && e.ownershipPct < 100.0 {
      var figure := KeyFigure(e, kind, words, horizon);
      for t := 0 to horizon
        invariant |nci| == horizon
        invariant forall u: nat | u < t :: nci[u] == was[u] + OnNci(kind, words, horizon, u)(e)
        invariant forall u: nat | t <= u < horizon :: nci[u] == was[u]
      {
        nci := nci[t := nci[t] + figure[t] * ((100.0 - e.ownershipPct) / 100.0)];
      }
    }
  }

  // ----- An associate opens a gap -----

  /** A group of one associate nets to the weight of its investment line. */
  lemma LoneAssociate(w: Label -> real, e: Holding, words: Keywords, horizon: nat, t: nat)
    requires HoldingFits(e, horizon) && e.treatment.EquityMethod? && t < horizon && w(NCI_EQUITY) == 0.0
    ensures GroupFits(Group([e], [], words, horizon))
    ensures Net(w, Consolidated(Group([e], [], words, horizon), Balance), t)
         == AssociateNet(e, w, Balance, words, horizon, t)
  {
    var g := Group([e], [], words, horizon);
    ConsolidatedNet(w, g, Balance, t);
    SumOverOne(e, OnNet(w, Balance, words, horizon, t));
    assert SumOver(g.elims, OnElimination(w, Balance, t)) == 0.0;
  }

  const EQUITY: Label := Label("Equity")

  /** An associate held to one half, with an equity of 100 in its only period. */
  function ExampleHolding(): Holding {
    Holding("a", 50.0, EquityMethod, Empty(), Dict([EQUITY], map[EQUITY := [100.0]]), Empty())
  }

  function OnlyInvestment(id: string): Label -> real {
    (k: Label) => if k == Investment(id) then 1.0 else 0.0
  }

  lemma ExampleNet(words: Keywords, horizon: nat)
    requires words.isEquity(EQUITY) && horizon == 1
    ensures HoldingFits(ExampleHolding(), horizon)
    ensures AssociateNet(ExampleHolding(), OnlyInvestment("a"), Balance, words, horizon, 0) == 50.0
  {
    var e := ExampleHolding();
    assert e.balance.keys[0] == EQUITY;
    assert FirstLine(e.balance, words.isEquity, 0) == Some(EQUITY);
    assert KeyFigure(e, Balance, words, horizon) == [100.0];
    assert AssociateValues(e, Balance, words, horizon)[0] == 50.0;
  }

  /** Half of an associate's equity of 100 appears on one side of the balance sheet only. */
  lemma AssociateExample(words: Keywords, horizon: nat)
    requires words.isEquity(EQUITY) && horizon == 1
    ensures GroupFits(Group([ExampleHolding()], [], words, horizon))
    ensures Net(OnlyInvestment("a"), Consolidated(Group([ExampleHolding()], [], words, horizon), Balance), 0) == 50.0
  {
    assert Investment("a").text[0] == 'I' && NCI_EQUITY.text[0] == 'N';
    ExampleNet(words, horizon);
    LoneAssociate(OnlyInvestment("a"), ExampleHolding(), words, horizon, 0);
  }

  // ----- A cash flow elimination has one side -----

  /** A trade of the given amount in the only period. */
  function ExampleTrade(amount: real): Elimination {
    Elimination(Trade, [amount], [], 0.0)
  }

  lemma LoneElimination(w: Label -> real, x: Elimination, words: Keywords, horizon: nat, t: nat)
    requires t < horizon
    ensures GroupFits(Group([], [x], words, horizon)) && EntitiesNetZero(w, Group([], [x], words, horizon), Cash, t)
    ensures Net(w, Consolidated(Group([], [x], words, horizon), Cash), t) == OnElimination(w, Cash, t)(x)
  {
    var g := Group([], [x], words, horizon);
    ConsolidatedNet(w, g, Cash, t);
    SumOverOne(x, OnElimination(w, Cash, t));
    assert SumOver(g.holdings, OnNet(w, Cash, words, horizon, t)) == 0.0;
  }

  function OnlyOperating(): Label -> real {
    (k: Label) => if k == OPERATING then 1.0 else 0.0
  }

  /** Eliminating a trade takes its amount out of operating cash flow and adds it nowhere: with nothing
      else consolidated the cash flow no longer nets to zero. */
  lemma CashEliminationExample(words: Keywords, amount: real)
    requires amount != 0.0
    ensures GroupFits(Group([], [ExampleTrade(amount)], words, 1))
    ensures EntitiesNetZero(OnlyOperating(), Group([], [ExampleTrade(amount)], words, 1), Cash, 0)
    ensures Net(OnlyOperating(), Consolidated(Group([], [ExampleTrade(amount)], words, 1), Cash), 0) == -amount != 0.0
  {
    LoneElimination(OnlyOperating(), ExampleTrade(amount), words, 1, 0);
    assert NetAmount(ExampleTrade(amount), 0) == amount;
  }
}
