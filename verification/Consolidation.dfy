/** Consolidating the statements of a group (consolidation.py). */
module Consolidation {
  import opened Dicts
  import opened FxTranslation
  import opened Labels
  import opened Ledger
  import opened Sequences
  import opened StatementLines

  datatype Treatment = Full | Proportional | EquityMethod | NotConsolidated

  datatype Entity = Entity(id: string, currency: Currency, statements: Statements, ownershipPct: real, treatment: Treatment)

  /** An entity's lines in the reporting currency. */
  datatype Holding = Holding(
    id: string, ownershipPct: real, treatment: Treatment, income: LineTable, balance: LineTable, cash: LineTable)

  datatype Kind = Income | Balance | Cash

  datatype LinkType = ManagementFee | Royalty | Trade | Dividend | Loan | OtherLink

  datatype Elimination = Elimination(linkType: LinkType, amounts: seq<real>, withheld: seq<real>, interestRate: real)

  const REVENUE: Label := Label("Intercompany revenue")
  const EXPENSE: Label := Label("Intercompany expense")
  const RECEIVABLE: Label := Label("Intercompany receivable")
  const PAYABLE: Label := Label("Intercompany payable")
  const OPERATING: Label := Label("Intercompany operating")
  const DIVIDEND_INCOME: Label := Label("Dividend income")
  const DIVIDEND_PAID: Label := Label("Dividend paid")
  const DIVIDENDS: Label := Label("Dividends")
  const LOAN_RECEIVABLE: Label := Label("Intercompany loan receivable")
  const LOAN_PAYABLE: Label := Label("Intercompany loan payable")
  const INTEREST_INCOME: Label := Label("Intercompany interest income")
  const INTEREST_EXPENSE: Label := Label("Intercompany interest expense")
  const NCI_PROFIT: Label := Label("NCI share of profit")
  const NCI_EQUITY: Label := Label("Non-Controlling Interest")

  function ShareOfProfit(id: string): Label {
    Label("Share of profit (" + id + ")")
  }

  function Investment(id: string): Label {
    Label("Investment in associate (" + id + ")")
  }

  function TableOf(e: Holding, kind: Kind): LineTable {
    match kind
    case Income => e.income
    case Balance => e.balance
    case Cash => e.cash
  }

  ghost predicate HoldingFits(e: Holding, horizon: nat) {
    Fits(e.income, horizon) && Fits(e.balance, horizon) && Fits(e.cash, horizon)
  }

  // ----- What each entity posts -----

  /** The net income of an associate for the income statement, its equity for the balance sheet. */
  function KeyFigure(e: Holding, kind: Kind, words: Keywords, horizon: nat): (r: seq<real>)
    ensures |r| == horizon
  {
    LineOrZeros(TableOf(e, kind), if kind.Income? then words.isNetIncome else words.isEquity, horizon)
  }

  function AssociateLabel(e: Holding, kind: Kind): Label {
    if kind.Income? then ShareOfProfit(e.id) else Investment(e.id)
  }

  /** The parent's share of the key figure. */
  function AssociateValues(e: Holding, kind: Kind, words: Keywords, horizon: nat): (r: seq<real>)
    ensures |r| == horizon
  {
    Times(KeyFigure(e, kind, words, horizon), e.ownershipPct / 100.0)
  }

  function EntityPostings(e: Holding, kind: Kind, words: Keywords, horizon: nat): seq<Posting> {
    match e.treatment
    case Full => ShareOf(TableOf(e, kind), 1.0)
    case Proportional => ShareOf(TableOf(e, kind), e.ownershipPct / 100.0)
    case EquityMethod =>
      if kind.Cash? then [] else [Posting(AssociateLabel(e, kind), AssociateValues(e, kind, words, horizon))]
    case NotConsolidated => []
  }

  function OfEntity(kind: Kind, words: Keywords, horizon: nat): Holding -> seq<Posting> {
    (e: Holding) => EntityPostings(e, kind, words, horizon)
  }

  // ----- What each elimination posts -----

  function Amount(x: Elimination, t: nat): real {
    if t < |x.amounts| then x.amounts[t] else 0.0
  }

  function Withheld(x: Elimination, t: nat): real {
    if t < |x.withheld| then x.withheld[t] else 0.0
  }

  function NetAmount(x: Elimination, t: nat): real {
    Amount(x, t) - Withheld(x, t)
  }

  function NetReversal(x: Elimination, horizon: nat): (r: seq<real>)
    ensures |r| == horizon
  {
    seq(horizon, t requires 0 <= t < horizon => -NetAmount(x, t))
  }

  function GrossReversal(x: Elimination, factor: real, horizon: nat): (r: seq<real>)
    ensures |r| == horizon
  {
    seq(horizon, t requires 0 <= t < horizon => -(Amount(x, t) * factor))
  }

  predicate IsTrade(link: LinkType) {
    link.ManagementFee? || link.Royalty? || link.Trade?
  }

  function Pair(a: Label, b: Label, values: seq<real>): seq<Posting> {
    [Posting(a, values), Posting(b, values)]
  }

  function OfElimination(kind: Kind, horizon: nat): Elimination -> seq<Posting> {
    (x: Elimination) =>
      if IsTrade(x.linkType) then
        match kind
        case Income => Pair(REVENUE, EXPENSE, NetReversal(x, horizon))
        case Balance => Pair(RECEIVABLE, PAYABLE, NetReversal(x, horizon))
        case Cash => [Posting(OPERATING, NetReversal(x, horizon))]
      else if x.linkType.Dividend? then
        match kind
        case Income => Pair(DIVIDEND_INCOME, DIVIDEND_PAID, NetReversal(x, horizon))
        case Balance => []
        case Cash => [Posting(DIVIDENDS, NetReversal(x, horizon))]
      else if x.linkType.Loan? then
        match kind
        case Income => Pair(INTEREST_INCOME, INTEREST_EXPENSE, GrossReversal(x, x.interestRate, horizon))
        case Balance => Pair(LOAN_RECEIVABLE, LOAN_PAYABLE, GrossReversal(x, 1.0, horizon))
        case Cash => []
      else []
  }

  // ----- The consolidated tables -----

  function FlatMap<S>(s: seq<S>, f: S -> seq<Posting>): seq<Posting> {
    if s == [] then [] else f(s[0]) + FlatMap(s[1..], f)
  }

  function Only(es: seq<Holding>, treatment: Treatment): seq<Holding> {
    if es == [] then []
    else (if es[0].treatment == treatment then [es[0]] else []) + Only(es[1..], treatment)
  }

  /** Full entities first, then proportional ones, then associates. */
  function Grouped(es: seq<Holding>): seq<Holding> {
    Only(es, Full) + Only(es, Proportional) + Only(es, EquityMethod)
  }

  /** Eliminations that apply; without periods none leaves a line. */
  function Applied(elims: seq<Elimination>, eliminate: bool, horizon: nat): seq<Elimination> {
    if eliminate && horizon > 0 then elims else []
  }

  datatype Group = Group(holdings: seq<Holding>, elims: seq<Elimination>, words: Keywords, horizon: nat)

  ghost predicate GroupFits(g: Group) {
    forall e | e in g.holdings :: HoldingFits(e, g.horizon)
  }

  function AllPostings(g: Group, kind: Kind): seq<Posting> {
    FlatMap(Grouped(g.holdings), OfEntity(kind, g.words, g.horizon)) + FlatMap(g.elims, OfElimination(kind, g.horizon))
  }

  function NciLabel(kind: Kind): Label {
    if kind.Income? then NCI_PROFIT else NCI_EQUITY
  }

  /** The part of the key figure that belongs to others. */
  function OnNci(kind: Kind, words: Keywords, horizon: nat, t: nat): Holding -> real {
    (e: Holding) =>
      if e.treatment.Full? && e.ownershipPct < 100.0 && t < horizon
      then KeyFigure(e, kind, words, horizon)[t] * ((100.0 - e.ownershipPct) / 100.0)
      else 0.0
  }

  function Nci(g: Group, kind: Kind): (r: seq<real>)
    ensures |r| == g.horizon
  {
    seq(g.horizon, t requires 0 <= t < g.horizon => SumOver(g.holdings, OnNci(kind, g.words, g.horizon, t)))
  }

  predicate AnyNonZero(s: seq<real>) {
    exists t | 0 <= t < |s| :: s[t] != 0.0
  }

  /** The minority line replaces any line of that name. */
  function WithNci(d: LineTable, g: Group, kind: Kind): LineTable {
    if !kind.Cash? && AnyNonZero(Nci(g, kind)) then Put(d, NciLabel(kind), Nci(g, kind)) else d
  }

  lemma {:induction false} FlatMapSized<S>(s: seq<S>, f: S -> seq<Posting>, horizon: nat)
    requires forall x | x in s :: Sized(f(x), horizon)
    ensures Sized(FlatMap(s, f), horizon)
  {
    if s != [] {
      FlatMapSized(s[1..], f, horizon);
    }
  }

  lemma {:induction false} OnlyFrom(es: seq<Holding>, treatment: Treatment)
    ensures forall e | e in Only(es, treatment) :: e in es && e.treatment == treatment
  {
    if es != [] {
      OnlyFrom(es[1..], treatment);
    }
  }

  lemma EntityIsSized(e: Holding, kind: Kind, words: Keywords, horizon: nat)
    requires HoldingFits(e, horizon)
    ensures Sized(OfEntity(kind, words, horizon)(e), horizon)
  {
    ShareIsSized(TableOf(e, kind), 1.0, horizon);
    ShareIsSized(TableOf(e, kind), e.ownershipPct / 100.0, horizon);
  }

  lemma AllIsSized(g: Group, kind: Kind)
    requires GroupFits(g)
    ensures Sized(AllPostings(g, kind), g.horizon)
  {
    OnlyFrom(g.holdings, Full);
    OnlyFrom(g.holdings, Proportional);
    OnlyFrom(g.holdings, EquityMethod);
    forall e | e in Grouped(g.holdings)
      ensures Sized(OfEntity(kind, g.words, g.horizon)(e), g.horizon)
    {
      EntityIsSized(e, kind, g.words, g.horizon);
    }
    FlatMapSized(Grouped(g.holdings), OfEntity(kind, g.words, g.horizon), g.horizon);
    FlatMapSized(g.elims, OfElimination(kind, g.horizon), g.horizon);
  }

  lemma EmptyFits(horizon: nat)
    ensures Fits(Empty(), horizon)
  {
  }

  /** Everything added up, before the minority line. */
  function Summed(g: Group, kind: Kind): (r: LineTable)
    requires GroupFits(g)
    ensures Fits(r, g.horizon)
  {
    AllIsSized(g, kind);
    EmptyFits(g.horizon);
    PostAll(Empty(), AllPostings(g, kind), g.horizon)
  }

  function Consolidated(g: Group, kind: Kind): (r: LineTable)
    requires GroupFits(g)
    ensures Fits(r, g.horizon)
  {
    PutIsValid(Summed(g, kind), NciLabel(kind), Nci(g, kind));
    WithNci(Summed(g, kind), g, kind)
  }

  // ----- Sums over entities -----

  function OnPostings<S>(f: S -> seq<Posting>, h: Posting -> real): S -> real {
    (x: S) => SumOver(f(x), h)
  }

  lemma {:induction false} SumOverFlatMap<S>(s: seq<S>, f: S -> seq<Posting>, h: Posting -> real)
    ensures SumOver(FlatMap(s, f), h) == SumOver(s, OnPostings(f, h))
  {
    if s != [] {
      SumOverFlatMap(s[1..], f, h);
      SumOverAppend(f(s[0]), FlatMap(s[1..], f), h);
    }
  }

  lemma OnlyCons(e: Holding, rest: seq<Holding>, treatment: Treatment, h: Holding -> real)
    ensures SumOver(Only([e] + rest, treatment), h)
         == (if e.treatment == treatment then h(e) else 0.0) + SumOver(Only(rest, treatment), h)
  {
    assert ([e] + rest)[1..] == rest;
    SumOverAppend(if e.treatment == treatment then [e] else [], Only(rest, treatment), h);
    SumOverOne(e, h);
  }

  /** Grouping loses nobody who is consolidated. */
  lemma {:induction false} SumOverGrouped(es: seq<Holding>, h: Holding -> real)
    requires forall e | e in es && e.treatment.NotConsolidated? :: h(e) == 0.0
    ensures SumOver(Only(es, Full), h) + SumOver(Only(es, Proportional), h) + SumOver(Only(es, EquityMethod), h)
         == SumOver(es, h)
    ensures SumOver(Grouped(es), h) == SumOver(es, h)
  {
    SumOverAppend(Only(es, Full) + Only(es, Proportional), Only(es, EquityMethod), h);
    SumOverAppend(Only(es, Full), Only(es, Proportional), h);
    if es != [] {
      var rest := es[1..];
      assert es == [es[0]] + rest;
      SumOverGrouped(rest, h);
      OnlyCons(es[0], rest, Full, h);
      OnlyCons(es[0], rest, Proportional, h);
      OnlyCons(es[0], rest, EquityMethod, h);
    }
  }

  /** Any sum over all postings is a sum over the entities and one over the eliminations. */
  lemma SumOfAllPostings(g: Group, kind: Kind, h: Posting -> real)
    ensures SumOver(AllPostings(g, kind), h)
         == SumOver(g.holdings, OnPostings(OfEntity(kind, g.words, g.horizon), h))
            + SumOver(g.elims, OnPostings(OfElimination(kind, g.horizon), h))
  {
    var f, x := OfEntity(kind, g.words, g.horizon), OfElimination(kind, g.horizon);
    SumOverAppend(FlatMap(Grouped(g.holdings), f), FlatMap(g.elims, x), h);
    SumOverFlatMap(Grouped(g.holdings), f, h);
    SumOverFlatMap(g.elims, x, h);
    SumOverGrouped(g.holdings, OnPostings(f, h));
  }

  // ----- Accounting identities -----

  /** The single line an associate adds, weighted. */
  function AssociateNet(e: Holding, w: Label -> real, kind: Kind, words: Keywords, horizon: nat, t: nat): real {
    if e.treatment.EquityMethod? && !kind.Cash? && t < horizon
    then Weighted(w, AssociateValues(e, kind, words, horizon)[t], AssociateLabel(e, kind))
    else 0.0
  }

  /** What an entity adds to a weighted total. */
  function EntityNet(e: Holding, w: Label -> real, kind: Kind, words: Keywords, horizon: nat, t: nat): real {
    match e.treatment
    case Full => Net(w, TableOf(e, kind), t)
    case Proportional => Portion(e.ownershipPct / 100.0, Net(w, TableOf(e, kind), t))
    case EquityMethod => AssociateNet(e, w, kind, words, horizon, t)
    case NotConsolidated => 0.0
  }

  function OnNet(w: Label -> real, kind: Kind, words: Keywords, horizon: nat, t: nat): Holding -> real {
    (e: Holding) => EntityNet(e, w, kind, words, horizon, t)
  }

  function OnAssociate(w: Label -> real, kind: Kind, words: Keywords, horizon: nat, t: nat): Holding -> real {
    (e: Holding) => AssociateNet(e, w, kind, words, horizon, t)
  }

  /** The weight of the lines an elimination is posted to. */
  function EliminationWeight(w: Label -> real, kind: Kind, link: LinkType): real {
    if IsTrade(link) then
      match kind
      case Income => w(REVENUE) + w(EXPENSE)
      case Balance => w(RECEIVABLE) + w(PAYABLE)
      case Cash => w(OPERATING)
    else if link.Dividend? then
      match kind
      case Income => w(DIVIDEND_INCOME) + w(DIVIDEND_PAID)
      case Balance => 0.0
      case Cash => w(DIVIDENDS)
    else if link.Loan? then
      match kind
      case Income => w(INTEREST_INCOME) + w(INTEREST_EXPENSE)
      case Balance => w(LOAN_RECEIVABLE) + w(LOAN_PAYABLE)
      case Cash => 0.0
    else 0.0
  }

  /** The amount it takes out of them: a loan counts gross, its interest at the rate. */
  function EliminatedAmount(x: Elimination, kind: Kind, t: nat): real {
    if x.linkType.Loan? then (if kind.Income? then Amount(x, t) * x.interestRate else Amount(x, t)) else NetAmount(x, t)
  }

  function TakenOut(weight: real, amount: real): real {
    -(weight * amount)
  }

  function OnElimination(w: Label -> real, kind: Kind, t: nat): Elimination -> real {
    (x: Elimination) => TakenOut(EliminationWeight(w, kind, x.linkType), EliminatedAmount(x, kind, t))
  }

  lemma EntityWeighs(e: Holding, w: Label -> real, kind: Kind, words: Keywords, horizon: nat, t: nat)
    requires HoldingFits(e, horizon) && t < horizon
    ensures SumOver(EntityPostings(e, kind, words, horizon), OnPosted(w, t)) == EntityNet(e, w, kind, words, horizon, t)
  {
    match e.treatment
    case Full =>
      WholeWeighs(w, TableOf(e, kind), horizon, t);
    case Proportional =>
      ShareWeighs(w, TableOf(e, kind), e.ownershipPct / 100.0, horizon, t);
    case EquityMethod =>
      AssociateWeighs(e, w, kind, words, horizon, t);
    case NotConsolidated =>
  }

  lemma AssociateWeighs(e: Holding, w: Label -> real, kind: Kind, words: Keywords, horizon: nat, t: nat)
    requires e.treatment.EquityMethod? && t < horizon
    ensures SumOver(EntityPostings(e, kind, words, horizon), OnPosted(w, t)) == AssociateNet(e, w, kind, words, horizon, t)
  {
    if !kind.Cash? {
      SumOverOne(Posting(AssociateLabel(e, kind), AssociateValues(e, kind, words, horizon)), OnPosted(w, t));
    }
  }

  lemma PairNet(w: Label -> real, a: Label, b: Label, values: seq<real>, t: nat, amount: real)
    requires t < |values| && values[t] == -amount
    ensures SumOver(Pair(a, b, values), OnPosted(w, t)) == TakenOut(w(a) + w(b), amount)
  {
    var p, q := Posting(a, values), Posting(b, values);
    assert Pair(a, b, values) == [p] + [q];
    SumOverAppend([p], [q], OnPosted(w, t));
    SumOverOne(p, OnPosted(w, t));
    SumOverOne(q, OnPosted(w, t));
    TakenFromTwo(w(a), w(b), amount);
  }

  lemma TakenFromTwo(x: real, y: real, amount: real)
    ensures x * -amount + y * -amount == TakenOut(x + y, amount)
  {
  }

  lemma SingleNet(w: Label -> real, a: Label, values: seq<real>, t: nat, amount: real)
    requires t < |values| && values[t] == -amount
    ensures SumOver([Posting(a, values)], OnPosted(w, t)) == TakenOut(w(a), amount)
  {
    SumOverOne(Posting(a, values), OnPosted(w, t));
    TakenFromTwo(w(a), 0.0, amount);
  }

  lemma NothingTaken(weight: real, amount: real)
    requires weight == 0.0
    ensures TakenOut(weight, amount) == 0.0
  {
  }

  lemma TradeNet(x: Elimination, w: Label -> real, kind: Kind, horizon: nat, t: nat)
    requires t < horizon && IsTrade(x.linkType)
    ensures SumOver(OfElimination(kind, horizon)(x), OnPosted(w, t)) == OnElimination(w, kind, t)(x)
  {
    match kind
    case Income => PairNet(w, REVENUE, EXPENSE, NetReversal(x, horizon), t, NetAmount(x, t));
    case Balance => PairNet(w, RECEIVABLE, PAYABLE, NetReversal(x, horizon), t, NetAmount(x, t));
    case Cash => SingleNet(w, OPERATING, NetReversal(x, horizon), t, NetAmount(x, t));
  }

  lemma DividendNet(x: Elimination, w: Label -> real, kind: Kind, horizon: nat, t: nat)
    requires t < horizon && x.linkType.Dividend?
    ensures SumOver(OfElimination(kind, horizon)(x), OnPosted(w, t)) == OnElimination(w, kind, t)(x)
  {
    match kind
    case Income => PairNet(w, DIVIDEND_INCOME, DIVIDEND_PAID, NetReversal(x, horizon), t, NetAmount(x, t));
    case Balance => NothingTaken(0.0, NetAmount(x, t));
    case Cash => SingleNet(w, DIVIDENDS, NetReversal(x, horizon), t, NetAmount(x, t));
  }

  lemma LoanNet(x: Elimination, w: Label -> real, kind: Kind, horizon: nat, t: nat)
    requires t < horizon && x.linkType.Loan?
    ensures SumOver(OfElimination(kind, horizon)(x), OnPosted(w, t)) == OnElimination(w, kind, t)(x)
  {
    var amount := EliminatedAmount(x, kind, t);
    match kind
    case Income => PairNet(w, INTEREST_INCOME, INTEREST_EXPENSE, GrossReversal(x, x.interestRate, horizon), t, amount);
    case Balance => PairNet(w, LOAN_RECEIVABLE, LOAN_PAYABLE, GrossReversal(x, 1.0, horizon), t, amount);
    case Cash => NothingTaken(0.0, amount);
  }

  /** What each kind of elimination takes out of any weighted total. */
  lemma EliminationNet(x: Elimination, w: Label -> real, kind: Kind, horizon: nat, t: nat)
    requires t < horizon
    ensures OnPostings(OfElimination(kind, horizon), OnPosted(w, t))(x) == OnElimination(w, kind, t)(x)
  {
    if IsTrade(x.linkType) {
      TradeNet(x, w, kind, horizon, t);
    } else if x.linkType.Dividend? {
      DividendNet(x, w, kind, horizon, t);
    } else if x.linkType.Loan? {
      LoanNet(x, w, kind, horizon, t);
    } else {
      NothingTaken(0.0, EliminatedAmount(x, kind, t));
    }
  }

  /** A line of weight zero can be replaced. */
  lemma NetIgnores(w: Label -> real, d: LineTable, k: Label, v: seq<real>, t: nat)
    requires d.Valid() && w(k) == 0.0
    ensures Net(w, Put(d, k, v), t) == Net(w, d, t)
  {
    var e := Put(d, k, v);
    var f, g := OnWeight(w, d, t), OnWeight(w, e, t);
    assert f(k) == 0.0 && g(k) == 0.0;
    if k in d.items {
      SumOverBut(d.keys, k, f, g);
    } else {
      SumOverAppend(d.keys, [k], g);
      SumOverSame(d.keys, f, g);
      SumOverOne(k, g);
    }
  }

  /** A weighted total of the consolidated statement is made of the shares of the entities'
      totals, the associates' lines and the eliminations; the minority line is a memo item. */
  lemma ConsolidatedNet(w: Label -> real, g: Group, kind: Kind, t: nat)
    requires GroupFits(g) && t < g.horizon && (kind.Cash? || w(NciLabel(kind)) == 0.0)
    ensures Net(w, Consolidated(g, kind), t)
         == SumOver(g.holdings, OnNet(w, kind, g.words, g.horizon, t)) + SumOver(g.elims, OnElimination(w, kind, t))
  {
    if !kind.Cash? {
      NetIgnores(w, Summed(g, kind), NciLabel(kind), Nci(g, kind), t);
    }
    SummedNet(w, g, kind, t);
    EntitiesNet(w, g, kind, t);
    EliminationsNet(w, g, kind, t);
  }

  lemma SummedNet(w: Label -> real, g: Group, kind: Kind, t: nat)
    requires GroupFits(g) && t < g.horizon
    ensures Net(w, Summed(g, kind), t)
         == SumOver(g.holdings, OnPostings(OfEntity(kind, g.words, g.horizon), OnPosted(w, t)))
            + SumOver(g.elims, OnPostings(OfElimination(kind, g.horizon), OnPosted(w, t)))
  {
    AllIsSized(g, kind);
    EmptyFits(g.horizon);
    NetOfPostings(w, Empty(), AllPostings(g, kind), g.horizon, t);
    SumOfAllPostings(g, kind, OnPosted(w, t));
  }

  lemma EntitiesNet(w: Label -> real, g: Group, kind: Kind, t: nat)
    requires GroupFits(g) && t < g.horizon
    ensures SumOver(g.holdings, OnPostings(OfEntity(kind, g.words, g.horizon), OnPosted(w, t)))
         == SumOver(g.holdings, OnNet(w, kind, g.words, g.horizon, t))
  {
    var posted := OnPostings(OfEntity(kind, g.words, g.horizon), OnPosted(w, t));
    forall e | e in g.holdings
      ensures posted(e) == OnNet(w, kind, g.words, g.horizon, t)(e)
    {
      EntityWeighs(e, w, kind, g.words, g.horizon, t);
    }
    SumOverSame(g.holdings, posted, OnNet(w, kind, g.words, g.horizon, t));
  }

  lemma EliminationsNet(w: Label -> real, g: Group, kind: Kind, t: nat)
    requires t < g.horizon
    ensures SumOver(g.elims, OnPostings(OfElimination(kind, g.horizon), OnPosted(w, t)))
         == SumOver(g.elims, OnElimination(w, kind, t))
  {
    var posted := OnPostings(OfElimination(kind, g.horizon), OnPosted(w, t));
    forall x | x in g.elims
      ensures posted(x) == OnElimination(w, kind, t)(x)
    {
      EliminationNet(x, w, kind, g.horizon, t);
    }
    SumOverSame(g.elims, posted, OnElimination(w, kind, t));
  }

  predicate AddedUp(e: Holding) {
    e.treatment.Full? || e.treatment.Proportional?
  }

  /** Every fully or proportionally consolidated entity nets to zero. */
  ghost predicate EntitiesNetZero(w: Label -> real, g: Group, kind: Kind, t: nat) {
    forall e | e in g.holdings && AddedUp(e) :: Net(w, TableOf(e, kind), t) == 0.0
  }

  lemma EntitiesVanish(w: Label -> real, g: Group, kind: Kind, t: nat)
    requires EntitiesNetZero(w, g, kind, t)
    ensures SumOver(g.holdings, OnNet(w, kind, g.words, g.horizon, t))
         == SumOver(g.holdings, OnAssociate(w, kind, g.words, g.horizon, t))
  {
    forall e | e in g.holdings
      ensures OnNet(w, kind, g.words, g.horizon, t)(e) == OnAssociate(w, kind, g.words, g.horizon, t)(e)
    {
      if AddedUp(e) {
        assert Net(w, TableOf(e, kind), t) == 0.0;
        assert Portion(e.ownershipPct / 100.0, 0.0) == 0.0;
      }
    }
    SumOverSame(g.holdings, OnNet(w, kind, g.words, g.horizon, t), OnAssociate(w, kind, g.words, g.horizon, t));
  }

  lemma NothingSums<T>(s: seq<T>, f: T -> real)
    requires forall x | x in s :: f(x) == 0.0
    ensures SumOver(s, f) == 0.0
  {
    SumOverZero(s, f);
  }

  lemma EliminationsCancel(w: Label -> real, elims: seq<Elimination>, t: nat)
    requires w(RECEIVABLE) + w(PAYABLE) == 0.0 && w(LOAN_RECEIVABLE) + w(LOAN_PAYABLE) == 0.0
    ensures SumOver(elims, OnElimination(w, Balance, t)) == 0.0
  {
    forall x | x in elims
      ensures OnElimination(w, Balance, t)(x) == 0.0
    {
      assert EliminationWeight(w, Balance, x.linkType) == 0.0;
    }
    NothingSums(elims, OnElimination(w, Balance, t));
  }

  /** If the balance sheets of all added-up entities balance, and the two sides of each pair of
      intercompany lines have opposite weights, the consolidated balance sheet balances exactly
      when the associates' investment lines do, which have no counterpart. */
  lemma BalanceSheetIdentity(w: Label -> real, g: Group, t: nat)
    requires GroupFits(g) && t < g.horizon && EntitiesNetZero(w, g, Balance, t)
    requires w(NCI_EQUITY) == 0.0 && w(RECEIVABLE) + w(PAYABLE) == 0.0 && w(LOAN_RECEIVABLE) + w(LOAN_PAYABLE) == 0.0
    ensures Net(w, Consolidated(g, Balance), t) == 0.0
       <==> SumOver(g.holdings, OnAssociate(w, Balance, g.words, g.horizon, t)) == 0.0
  {
    ConsolidatedNet(w, g, Balance, t);
    EntitiesVanish(w, g, Balance, t);
    EliminationsCancel(w, g.elims, t);
  }

  /** Without associates it always balances. */
  lemma NoAssociatesNoGap(w: Label -> real, g: Group, t: nat)
    requires GroupFits(g) && t < g.horizon && EntitiesNetZero(w, g, Balance, t)
    requires w(NCI_EQUITY) == 0.0 && w(RECEIVABLE) + w(PAYABLE) == 0.0 && w(LOAN_RECEIVABLE) + w(LOAN_PAYABLE) == 0.0
    requires forall e | e in g.holdings :: !e.treatment.EquityMethod?
    ensures Net(w, Consolidated(g, Balance), t) == 0.0
  {
    BalanceSheetIdentity(w, g, t);
    NothingSums(g.holdings, OnAssociate(w, Balance, g.words, g.horizon, t));
  }

  /** Cash flow eliminations are one-sided: an identity of the entities' cash flows survives
      exactly when the weighted eliminations cancel. */
  lemma CashFlowIdentity(w: Label -> real, g: Group, t: nat)
    requires GroupFits(g) && t < g.horizon && EntitiesNetZero(w, g, Cash, t)
    ensures Net(w, Consolidated(g, Cash), t) == 0.0 <==> SumOver(g.elims, OnElimination(w, Cash, t)) == 0.0
  {
    ConsolidatedNet(w, g, Cash, t);
    EntitiesVanish(w, g, Cash, t);
    NothingSums(g.holdings, OnAssociate(w, Cash, g.words, g.horizon, t));
  }

  // ----- The order of entities and eliminations -----

  ghost predicate SameGroup(g: Group, g': Group) {
    && multiset(g.holdings) == multiset(g'.holdings)
    && multiset(g.elims) == multiset(g'.elims)
    && g.words == g'.words
    && g.horizon == g'.horizon
  }

  lemma SameSums(g: Group, g': Group, kind: Kind, h: Posting -> real)
    requires SameGroup(g, g')
    ensures SumOver(AllPostings(g, kind), h) == SumOver(AllPostings(g', kind), h)
  {
    SumOfAllPostings(g, kind, h);
    SumOfAllPostings(g', kind, h);
    SumOverPermutation(g.holdings, g'.holdings, OnPostings(OfEntity(kind, g.words, g.horizon), h));
    SumOverPermutation(g.elims, g'.elims, OnPostings(OfElimination(kind, g.horizon), h));
  }

  lemma SameKeys(g: Group, g': Group, kind: Kind, k: Label)
    requires SameGroup(g, g') && GroupFits(g) && GroupFits(g')
    ensures k in Summed(g, kind).items <==> k in Summed(g', kind).items
  {
    AllIsSized(g, kind);
    AllIsSized(g', kind);
    EmptyFits(g.horizon);
    PostedKeys(Empty(), AllPostings(g, kind), g.horizon, k);
    PostedKeys(Empty(), AllPostings(g', kind), g.horizon, k);
    SameSums(g, g', kind, OnPresence(k));
  }

  lemma SummedLine(g: Group, kind: Kind, k: Label, t: nat)
    requires GroupFits(g) && t < g.horizon
    ensures LineAt(Summed(g, kind), k, t) == SumOver(AllPostings(g, kind), OnLabel(k, t))
  {
    AllIsSized(g, kind);
    EmptyFits(g.horizon);
    PostedLines(Empty(), AllPostings(g, kind), g.horizon, k, t);
  }

  lemma SameLine(g: Group, g': Group, kind: Kind, k: Label, t: nat)
    requires SameGroup(g, g') && GroupFits(g) && GroupFits(g') && t < g.horizon
    ensures LineAt(Summed(g, kind), k, t) == LineAt(Summed(g', kind), k, t)
  {
    SummedLine(g, kind, k, t);
    SummedLine(g', kind, k, t);
    SameSums(g, g', kind, OnLabel(k, t));
  }

  lemma SameSummed(g: Group, g': Group, kind: Kind)
    requires SameGroup(g, g') && GroupFits(g) && GroupFits(g')
    ensures Summed(g, kind).items == Summed(g', kind).items
  {
    var d, e := Summed(g, kind), Summed(g', kind);
    forall k
      ensures k in d.items <==> k in e.items
      ensures k in d.items ==> d.items[k] == e.items[k]
    {
      SameKeys(g, g', kind, k);
      if k in d.items {
        forall t: nat | t < g.horizon
          ensures d.items[k][t] == e.items[k][t]
        {
          SameLine(g, g', kind, k, t);
        }
      }
    }
  }

  lemma SameNci(g: Group, g': Group, kind: Kind)
    requires SameGroup(g, g')
    ensures Nci(g, kind) == Nci(g', kind)
  {
    forall t: nat | t < g.horizon
      ensures Nci(g, kind)[t] == Nci(g', kind)[t]
    {
      SumOverPermutation(g.holdings, g'.holdings, OnNci(kind, g.words, g.horizon, t));
    }
  }

  lemma SameConsolidated(g: Group, g': Group, kind: Kind)
    requires SameGroup(g, g') && GroupFits(g) && GroupFits(g')
    ensures Consolidated(g, kind).items == Consolidated(g', kind).items
  {
    SameSummed(g, g', kind);
    SameNci(g, g', kind);
    SamePut(Summed(g, kind), Summed(g', kind), NciLabel(kind), Nci(g, kind));
  }

  lemma SamePut<V>(d: Dict<Label, V>, e: Dict<Label, V>, k: Label, v: V)
    requires d.items == e.items
    ensures Put(d, k, v).items == Put(e, k, v).items
  {
  }

  /** The order in which entities and eliminations come does not change a single row of any
      consolidated statement. */
  lemma OrderIsImmaterial(g: Group, g': Group, kind: Kind)
    requires SameGroup(g, g') && GroupFits(g) && GroupFits(g')
    ensures DictToPeriodSeries(Consolidated(g, kind), g.horizon) == DictToPeriodSeries(Consolidated(g', kind), g'.horizon)
  {
    SameConsolidated(g, g', kind);
    SameLinesSameRows(Consolidated(g, kind), Consolidated(g', kind), g.horizon);
  }

  // ----- From entities to holdings -----

  function HoldingOf(e: Entity, reporting: Currency, market: Market, words: Keywords, horizon: nat): Holding
    requires WellFormedParts(e.statements)
  {
    var st := if e.currency != reporting then Translate(e.statements, e.currency, reporting, market, words, horizon)
              else e.statements;
    Holding(e.id, e.ownershipPct, e.treatment, LinesOf(st.income, horizon), LinesOf(st.balance, horizon),
            LinesOf(st.cash, horizon))
  }

  function HoldingsOf(es: seq<Entity>, reporting: Currency, market: Market, words: Keywords, horizon: nat):
    (r: seq<Holding>)
    requires forall e | e in es :: WellFormedParts(e.statements)
    ensures |r| == |es|
  {
    if es == [] then []
    else HoldingsOf(es[..|es| - 1], reporting, market, words, horizon)
         + [HoldingOf(es[|es| - 1], reporting, market, words, horizon)]
  }

  lemma HoldingOfFits(e: Entity, reporting: Currency, market: Market, words: Keywords, horizon: nat)
    requires WellFormedParts(e.statements)
    ensures HoldingFits(HoldingOf(e, reporting, market, words, horizon), horizon)
  {
    TranslatedLines(e.statements, e.currency, reporting, market, words, horizon);
    PartValuesFit(PartOr(e.statements.income, Nothing), horizon);
    PartValuesFit(PartOr(e.statements.balance, Nothing), horizon);
    PartValuesFit(PartOr(e.statements.cash, Nothing), horizon);
  }

  lemma {:induction false} HoldingsFit(es: seq<Entity>, reporting: Currency, market: Market, words: Keywords, horizon: nat)
    requires forall e | e in es :: WellFormedParts(e.statements)
    ensures forall h | h in HoldingsOf(es, reporting, market, words, horizon) :: HoldingFits(h, horizon)
  {
    if es != [] {
      HoldingsFit(es[..|es| - 1], reporting, market, words, horizon);
      HoldingOfFits(es[|es| - 1], reporting, market, words, horizon);
    }
  }

  lemma ScaledNet(w: Label -> real, now: LineTable, was: LineTable, rate: FxRate, horizon: nat, t: nat)
    requires ScaledLines(now, was, rate, horizon) && t < horizon
    ensures Net(w, now, t) == Portion(RateAt(rate, t), Net(w, was, t))
  {
    ScaledLineByLine(w, now, was, rate, horizon, t);
    SumOverFactor(was.keys, OnWeight(w, was, t), RateAt(rate, t));
  }

  lemma ScaledLineByLine(w: Label -> real, now: LineTable, was: LineTable, rate: FxRate, horizon: nat, t: nat)
    requires ScaledLines(now, was, rate, horizon) && t < horizon
    ensures SumOver(now.keys, OnWeight(w, now, t)) == SumOver(was.keys, Factored(OnWeight(w, was, t), RateAt(rate, t)))
  {
    SameElementsSameMultiset(now.keys, was.keys);
    SumOverPermutation(now.keys, was.keys, OnWeight(w, now, t));
    forall k | k in was.keys
      ensures OnWeight(w, now, t)(k) == Factored(OnWeight(w, was, t), RateAt(rate, t))(k)
    {
      ScaledLine(w, now, was, rate, horizon, t, k);
    }
    SumOverSame(was.keys, OnWeight(w, now, t), Factored(OnWeight(w, was, t), RateAt(rate, t)));
  }

  lemma ScaledLine(w: Label -> real, now: LineTable, was: LineTable, rate: FxRate, horizon: nat, t: nat, k: Label)
    requires ScaledLines(now, was, rate, horizon) && t < horizon && k in was.items
    ensures OnWeight(w, now, t)(k) == Factored(OnWeight(w, was, t), RateAt(rate, t))(k)
  {
    assert now.items[k][t] == ConvertedAt(was.items[k][t], rate, t);
    FactorOut(w(k), was.items[k][t], RateAt(rate, t));
  }

  /** A statement that nets to zero in its own currency does so in every other. */
  lemma TranslationKeepsIdentity(w: Label -> real, e: Entity, reporting: Currency, market: Market, words: Keywords,
                                 horizon: nat, t: nat)
    requires WellFormedParts(e.statements) && t < horizon
    requires Net(w, LinesOf(e.statements.balance, horizon), t) == 0.0
    ensures Net(w, HoldingOf(e, reporting, market, words, horizon).balance, t) == 0.0
  {
    if e.currency != reporting {
      TranslatedLines(e.statements, e.currency, reporting, market, words, horizon);
      var st := Translate(e.statements, e.currency, reporting, market, words, horizon);
      var rate := ClosingRate(market, e.currency, reporting);
      ScaledNet(w, LinesOf(st.balance, horizon), LinesOf(e.statements.balance, horizon), rate, horizon, t);
      assert Portion(RateAt(rate, t), 0.0) == 0.0;
    }
  }

  /** The balance sheets of the added-up entities balance, each in its own currency. */
  ghost predicate Balanced(w: Label -> real, es: seq<Entity>, horizon: nat, t: nat) {
    forall e | e in es ::
      WellFormedParts(e.statements)
      && (e.treatment.Full? || e.treatment.Proportional? ==> Net(w, LinesOf(e.statements.balance, horizon), t) == 0.0)
  }

  lemma {:induction false} HoldingsKeepIdentity(w: Label -> real, es: seq<Entity>, reporting: Currency, market: Market,
                                                words: Keywords, horizon: nat, t: nat)
    requires t < horizon && Balanced(w, es, horizon, t)
    ensures forall h | h in HoldingsOf(es, reporting, market, words, horizon) && AddedUp(h) :: Net(w, h.balance, t) == 0.0
  {
    if es != [] {
      var e := es[|es| - 1];
      assert e in es;
      HoldingsKeepIdentity(w, es[..|es| - 1], reporting, market, words, horizon, t);
      if e.treatment.Full? || e.treatment.Proportional? {
        TranslationKeepsIdentity(w, e, reporting, market, words, horizon, t);
      }
    }
  }

  ghost predicate BalancedPairs(w: Label -> real) {
    && w(NCI_EQUITY) == 0.0
    && w(RECEIVABLE) + w(PAYABLE) == 0.0
    && w(LOAN_RECEIVABLE) + w(LOAN_PAYABLE) == 0.0
  }

  function GroupOf(es: seq<Entity>, elims: seq<Elimination>, eliminate: bool, reporting: Currency, market: Market,
                   words: Keywords, horizon: nat): Group
    requires forall e | e in es :: WellFormedParts(e.statements)
  {
    Group(HoldingsOf(es, reporting, market, words, horizon), Applied(elims, eliminate, horizon), words, horizon)
  }

  /** From balanced local balance sheets of the added-up entities, in whatever currencies, to the
      consolidated one. */
  lemma ConsolidationPreservesIdentity(w: Label -> real, es: seq<Entity>, elims: seq<Elimination>, eliminate: bool,
                                       reporting: Currency, market: Market, words: Keywords, horizon: nat, t: nat)
    requires t < horizon && BalancedPairs(w) && Balanced(w, es, horizon, t)
    ensures var g := GroupOf(es, elims, eliminate, reporting, market, words, horizon);
            && GroupFits(g)
            && (Net(w, Consolidated(g, Balance), t) == 0.0
                <==> SumOver(g.holdings, OnAssociate(w, Balance, words, horizon, t)) == 0.0)
  {
    var g := GroupOf(es, elims, eliminate, reporting, market, words, horizon);
    HoldingsFit(es, reporting, market, words, horizon);
    HoldingsKeepIdentity(w, es, reporting, market, words, horizon, t);
    BalanceSheetIdentity(w, g, t);
  }

  // ----- The order of entities -----

  ghost function ToHolding(reporting: Currency, market: Market, words: Keywords, horizon: nat): Entity -> Holding {
    (e: Entity) =>
      if WellFormedParts(e.statements) then HoldingOf(e, reporting, market, words, horizon)
      else Holding(e.id, 0.0, NotConsolidated, Empty(), Empty(), Empty())
  }

  lemma {:induction false} HoldingsAreMapped(es: seq<Entity>, reporting: Currency, market: Market, words: Keywords, horizon: nat)
    requires forall e | e in es :: WellFormedParts(e.statements)
    ensures HoldingsOf(es, reporting, market, words, horizon) == Map(ToHolding(reporting, market, words, horizon), es)
  {
    if es != [] {
      var init, last := es[..|es| - 1], es[|es| - 1];
      HoldingsAreMapped(init, reporting, market, words, horizon);
      assert es == init + [last];
      MapConcat(ToHolding(reporting, market, words, horizon), init, [last]);
    }
  }

  /** The order in which entities and eliminations are listed does not change a single row of any
      consolidated statement, nor the minority shares. */
  lemma EntityOrderIsImmaterial(es: seq<Entity>, es': seq<Entity>, elims: seq<Elimination>, elims': seq<Elimination>,
                                eliminate: bool, reporting: Currency, market: Market, words: Keywords, horizon: nat,
                                kind: Kind)
    requires multiset(es) == multiset(es') && multiset(elims) == multiset(elims')
    requires forall e | e in es || e in es' :: WellFormedParts(e.statements)
    ensures var g := GroupOf(es, elims, eliminate, reporting, market, words, horizon);
            var g' := GroupOf(es', elims', eliminate, reporting, market, words, horizon);
            && GroupFits(g) && GroupFits(g')
            && DictToPeriodSeries(Consolidated(g, kind), horizon) == DictToPeriodSeries(Consolidated(g', kind), horizon)
            && Nci(g, kind) == Nci(g', kind)
  {
    HoldingsFit(es, reporting, market, words, horizon);
    HoldingsFit(es', reporting, market, words, horizon);
    HoldingsAreMapped(es, reporting, market, words, horizon);
    HoldingsAreMapped(es', reporting, market, words, horizon);
    MapPermutation(ToHolding(reporting, market, words, horizon), es, es');
    var g := GroupOf(es, elims, eliminate, reporting, market, words, horizon);
    var g' := GroupOf(es', elims', eliminate, reporting, market, words, horizon);
    assert SameGroup(g, g');
    OrderIsImmaterial(g, g', kind);
    SameNci(g, g', kind);
  }
}
