/** One greedy pass over a list of credit lines: drawing a shortfall or repaying an excess. */
module Passes {
  import opened Sequences

  /** A line is known by its id; cap is what it may be drawn up to. */
  datatype Line<Id> = Line(id: Id, cap: real)

  /** Balances after a pass, and what was left of the amount to place. */
  datatype Pass<Id> = Pass(balance: map<Id, real>, left: real)

  function Bal<Id>(balance: map<Id, real>, id: Id): real {
    if id in balance then balance[id] else 0.0
  }

  /** No two lines share an id. */
  ghost predicate Distinct<Id>(lines: seq<Line<Id>>) {
    lines == [] || (Absent(lines[1..], lines[0].id) && Distinct(lines[1..]))
  }

  ghost predicate Absent<Id>(lines: seq<Line<Id>>, id: Id) {
    forall j | 0 <= j < |lines| :: lines[j].id != id
  }

  /** Total balance of the lines. */
  function Debt<Id>(lines: seq<Line<Id>>, balance: map<Id, real>): real {
    if lines == [] then 0.0 else Bal(balance, lines[0].id) + Debt(lines[1..], balance)
  }

  /** What the lines can still lend. */
  function Headroom<Id>(lines: seq<Line<Id>>, balance: map<Id, real>): real {
    if lines == [] then 0.0
    else Max(0.0, lines[0].cap - Bal(balance, lines[0].id)) + Headroom(lines[1..], balance)
  }

  function DrawAmount<Id>(line: Line<Id>, balance: map<Id, real>, shortfall: real): real {
    Min(shortfall, Max(0.0, line.cap - Bal(balance, line.id)))
  }

  function Moved<Id>(balance: map<Id, real>, id: Id, amount: real): map<Id, real> {
    balance[id := Bal(balance, id) + amount]
  }

  /** Drawing on the lines in the given order. */
  function DrawDown<Id>(lines: seq<Line<Id>>, balance: map<Id, real>, shortfall: real): Pass<Id> {
    if lines == [] then Pass(balance, shortfall)
    else
      var draw := DrawAmount(lines[0], balance, shortfall);
      DrawDown(lines[1..], Moved(balance, lines[0].id, draw), shortfall - draw)
  }

  function RepayAmount<Id>(line: Line<Id>, balance: map<Id, real>, excess: real): real {
    Max(0.0, Min(excess, Bal(balance, line.id)))
  }

  /** Repaying the lines in the given order. */
  function PayBack<Id>(lines: seq<Line<Id>>, balance: map<Id, real>, excess: real): Pass<Id> {
    if lines == [] then Pass(balance, excess)
    else
      var repay := RepayAmount(lines[0], balance, excess);
      PayBack(lines[1..], Moved(balance, lines[0].id, -repay), excess - repay)
  }

  // ----- Frames -----

  lemma {:induction false} SumsFrame<Id>(lines: seq<Line<Id>>, balance: map<Id, real>, id: Id, amount: real)
    requires Absent(lines, id)
    ensures Debt(lines, Moved(balance, id, amount)) == Debt(lines, balance)
    ensures Headroom(lines, Moved(balance, id, amount)) == Headroom(lines, balance)
  {
    if lines != [] {
      SumsFrame(lines[1..], balance, id, amount);
    }
  }

  lemma {:induction false} HeadroomNonNegative<Id>(lines: seq<Line<Id>>, balance: map<Id, real>)
    ensures Headroom(lines, balance) >= 0.0
  {
    if lines != [] {
      HeadroomNonNegative(lines[1..], balance);
    }
  }

  lemma {:induction false} DrawDownFrame<Id>(lines: seq<Line<Id>>, balance: map<Id, real>, shortfall: real, id: Id)
    requires Absent(lines, id)
    ensures Bal(DrawDown(lines, balance, shortfall).balance, id) == Bal(balance, id)
  {
    if lines != [] {
      var draw := DrawAmount(lines[0], balance, shortfall);
      assert Absent(lines[1..], id);
      DrawDownFrame(lines[1..], Moved(balance, lines[0].id, draw), shortfall - draw, id);
    }
  }

  lemma {:induction false} PayBackFrame<Id>(lines: seq<Line<Id>>, balance: map<Id, real>, excess: real, id: Id)
    requires Absent(lines, id)
    ensures Bal(PayBack(lines, balance, excess).balance, id) == Bal(balance, id)
  {
    if lines != [] {
      var repay := RepayAmount(lines[0], balance, excess);
      assert Absent(lines[1..], id);
      PayBackFrame(lines[1..], Moved(balance, lines[0].id, -repay), excess - repay, id);
    }
  }

  // ----- Exactness -----

  /** Draws total exactly min(shortfall, headroom) and raise the debt by that. */
  lemma {:induction false} DrawDownIsExact<Id>(lines: seq<Line<Id>>, balance: map<Id, real>, shortfall: real)
    requires Distinct(lines) && shortfall >= 0.0
    ensures var p := DrawDown(lines, balance, shortfall);
            && p.left == Max(0.0, shortfall - Headroom(lines, balance))
            && Debt(lines, p.balance) == Debt(lines, balance) + (shortfall - p.left)
  {
    if lines != [] {
      var id, rest := lines[0].id, lines[1..];
      var draw := DrawAmount(lines[0], balance, shortfall);
      var raised := Moved(balance, id, draw);
      DrawDownIsExact(rest, raised, shortfall - draw);
      SumsFrame(rest, balance, id, draw);
      HeadroomNonNegative(rest, balance);
      DrawDownFrame(rest, raised, shortfall - draw, id);
    }
  }

  ghost predicate NonNegative<Id>(lines: seq<Line<Id>>, balance: map<Id, real>) {
    forall j | 0 <= j < |lines| :: Bal(balance, lines[j].id) >= 0.0
  }

  lemma {:induction false} DebtNonNegative<Id>(lines: seq<Line<Id>>, balance: map<Id, real>)
    requires NonNegative(lines, balance)
    ensures Debt(lines, balance) >= 0.0
  {
    if lines != [] {
      NonNegativeTail(lines, balance);
      DebtNonNegative(lines[1..], balance);
    }
  }

  lemma NonNegativeTail<Id>(lines: seq<Line<Id>>, balance: map<Id, real>)
    requires NonNegative(lines, balance) && lines != []
    ensures NonNegative(lines[1..], balance)
  {
    forall j | 0 <= j < |lines| - 1
      ensures Bal(balance, lines[1..][j].id) >= 0.0
    {
      assert lines[1..][j] == lines[j + 1];
    }
  }

  lemma NonNegativeFrame<Id>(lines: seq<Line<Id>>, balance: map<Id, real>, id: Id, amount: real)
    requires NonNegative(lines, balance) && Absent(lines, id)
    ensures NonNegative(lines, Moved(balance, id, amount))
  {
  }

  /** Repayments total exactly min(excess, debt) and lower the debt by that. */
  lemma {:induction false} PayBackIsExact<Id>(lines: seq<Line<Id>>, balance: map<Id, real>, excess: real)
    requires Distinct(lines) && excess >= 0.0 && NonNegative(lines, balance)
    ensures var p := PayBack(lines, balance, excess);
            && p.left == Max(0.0, excess - Debt(lines, balance))
            && Debt(lines, p.balance) == Debt(lines, balance) - (excess - p.left)
  {
    if lines != [] {
      var id, rest := lines[0].id, lines[1..];
      var repay := RepayAmount(lines[0], balance, excess);
      var lowered := Moved(balance, id, -repay);
      NonNegativeTail(lines, balance);
      NonNegativeFrame(rest, balance, id, -repay);
      PayBackIsExact(rest, lowered, excess - repay);
      SumsFrame(rest, balance, id, -repay);
      DebtNonNegative(rest, balance);
      PayBackFrame(rest, lowered, excess - repay, id);
    }
  }

  // ----- Greed -----

  ghost predicate FullBefore<Id>(lines: seq<Line<Id>>, balance: map<Id, real>, i: nat)
    requires i <= |lines|
  {
    forall h | 0 <= h < i :: Bal(balance, lines[h].id) >= lines[h].cap
  }

  /** A draw stays within the line's cap, and is nothing unless the lines before are full. */
  lemma {:induction false} DrawDownIsGreedy<Id>(lines: seq<Line<Id>>, balance: map<Id, real>, shortfall: real, i: nat)
    requires Distinct(lines) && shortfall >= 0.0 && i < |lines|
    ensures var after := DrawDown(lines, balance, shortfall).balance;
            var b0, b1 := Bal(balance, lines[i].id), Bal(after, lines[i].id);
            && b0 <= b1 <= Max(b0, lines[i].cap)
            && (b1 > b0 ==> FullBefore(lines, after, i))
  {
    var id, rest := lines[0].id, lines[1..];
    var draw := DrawAmount(lines[0], balance, shortfall);
    var raised := Moved(balance, id, draw);
    var after := DrawDown(rest, raised, shortfall - draw).balance;
    DrawDownFrame(rest, raised, shortfall - draw, id);
    if i > 0 {
      assert rest[i - 1] == lines[i];
      DrawDownIsGreedy(rest, raised, shortfall - draw, i - 1);
      if draw == shortfall {
        NothingLeftToDraw(rest, raised);
      } else if FullBefore(rest, after, i - 1) {
        assert forall h | 1 <= h < i :: lines[h] == rest[h - 1];
      }
    }
  }

  lemma {:induction false} NothingLeftToDraw<Id>(lines: seq<Line<Id>>, balance: map<Id, real>)
    ensures DrawDown(lines, balance, 0.0).left == 0.0
    ensures forall id :: Bal(DrawDown(lines, balance, 0.0).balance, id) == Bal(balance, id)
  {
    if lines != [] {
      NothingLeftToDraw(lines[1..], Moved(balance, lines[0].id, 0.0));
    }
  }

  ghost predicate ClearedBefore<Id>(lines: seq<Line<Id>>, balance: map<Id, real>, i: nat)
    requires i <= |lines|
  {
    forall h | 0 <= h < i :: Bal(balance, lines[h].id) == 0.0
  }

  /** A repayment is at most what is owed, and nothing unless the lines before are cleared. */
  lemma {:induction false} PayBackIsGreedy<Id>(lines: seq<Line<Id>>, balance: map<Id, real>, excess: real, i: nat)
    requires Distinct(lines) && excess >= 0.0 && NonNegative(lines, balance) && i < |lines|
    ensures var after := PayBack(lines, balance, excess).balance;
            var b0, b1 := Bal(balance, lines[i].id), Bal(after, lines[i].id);
            && 0.0 <= b1 <= b0
            && (b1 < b0 ==> ClearedBefore(lines, after, i))
  {
    var id, rest := lines[0].id, lines[1..];
    var repay := RepayAmount(lines[0], balance, excess);
    var lowered := Moved(balance, id, -repay);
    var after := PayBack(rest, lowered, excess - repay).balance;
    PayBackFrame(rest, lowered, excess - repay, id);
    NonNegativeTail(lines, balance);
    NonNegativeFrame(rest, balance, id, -repay);
    if i > 0 {
      assert rest[i - 1] == lines[i];
      PayBackIsGreedy(rest, lowered, excess - repay, i - 1);
      if repay == excess {
        NothingLeftToRepay(rest, lowered);
      } else if ClearedBefore(rest, after, i - 1) {
        assert forall h | 1 <= h < i :: lines[h] == rest[h - 1];
      }
    }
  }

  lemma {:induction false} NothingLeftToRepay<Id>(lines: seq<Line<Id>>, balance: map<Id, real>)
    requires NonNegative(lines, balance)
    ensures PayBack(lines, balance, 0.0).left == 0.0
    ensures forall id :: Bal(PayBack(lines, balance, 0.0).balance, id) == Bal(balance, id)
  {
    if lines != [] {
      NonNegativeTail(lines, balance);
      NothingLeftToRepay(lines[1..], Moved(balance, lines[0].id, 0.0));
    }
  }

  /** Every balance lies between zero and the given limit of its line. */
  ghost predicate Within<Id>(lines: seq<Line<Id>>, balance: map<Id, real>, limit: Id -> real) {
    forall j | 0 <= j < |lines| :: 0.0 <= Bal(balance, lines[j].id) <= limit(lines[j].id)
  }

  lemma DrawingStaysWithin<Id>(lines: seq<Line<Id>>, balance: map<Id, real>, shortfall: real, limit: Id -> real)
    requires Distinct(lines) && shortfall >= 0.0 && Within(lines, balance, limit)
    requires forall j | 0 <= j < |lines| :: lines[j].cap <= limit(lines[j].id)
    ensures Within(lines, DrawDown(lines, balance, shortfall).balance, limit)
  {
    var after := DrawDown(lines, balance, shortfall).balance;
    forall j | 0 <= j < |lines|
      ensures 0.0 <= Bal(after, lines[j].id) <= limit(lines[j].id)
    {
      DrawDownIsGreedy(lines, balance, shortfall, j);
    }
  }

  lemma RepayingStaysWithin<Id>(lines: seq<Line<Id>>, balance: map<Id, real>, excess: real, limit: Id -> real)
    requires Distinct(lines) && excess >= 0.0 && Within(lines, balance, limit)
    ensures Within(lines, PayBack(lines, balance, excess).balance, limit)
  {
    var after := PayBack(lines, balance, excess).balance;
    forall j | 0 <= j < |lines|
      ensures 0.0 <= Bal(after, lines[j].id) <= limit(lines[j].id)
    {
      PayBackIsGreedy(lines, balance, excess, j);
    }
  }

  /** No balance at all is negative; this needs no distinctness. */
  ghost predicate AllNonNegative<Id(!new)>(balance: map<Id, real>) {
    forall id :: Bal(balance, id) >= 0.0
  }

  lemma MovedStaysNonNegative<Id(!new)>(balance: map<Id, real>, id: Id, amount: real)
    requires AllNonNegative(balance) && Bal(balance, id) + amount >= 0.0
    ensures AllNonNegative(Moved(balance, id, amount))
  {
    forall x
      ensures Bal(Moved(balance, id, amount), x) >= 0.0
    {
      assert Bal(balance, x) >= 0.0;
    }
  }

  lemma {:induction false} PassesStayNonNegative<Id(!new)>(lines: seq<Line<Id>>, balance: map<Id, real>, amount: real)
    requires AllNonNegative(balance) && amount >= 0.0
    ensures AllNonNegative(DrawDown(lines, balance, amount).balance)
    ensures AllNonNegative(PayBack(lines, balance, amount).balance)
  {
    if lines != [] {
      var id := lines[0].id;
      var draw, repay := DrawAmount(lines[0], balance, amount), RepayAmount(lines[0], balance, amount);
      assert Bal(balance, id) >= 0.0;
      MovedStaysNonNegative(balance, id, draw);
      MovedStaysNonNegative(balance, id, -repay);
      PassesStayNonNegative(lines[1..], Moved(balance, id, draw), amount - draw);
      PassesStayNonNegative(lines[1..], Moved(balance, id, -repay), amount - repay);
    }
  }

  lemma {:induction false} PassesKeepKeys<Id>(lines: seq<Line<Id>>, balance: map<Id, real>, amount: real)
    requires AllIn(lines, balance.Keys)
    ensures DrawDown(lines, balance, amount).balance.Keys == balance.Keys
    ensures PayBack(lines, balance, amount).balance.Keys == balance.Keys
  {
    if lines != [] {
      var id := lines[0].id;
      var draw, repay := DrawAmount(lines[0], balance, amount), RepayAmount(lines[0], balance, amount);
      assert Moved(balance, id, draw).Keys == balance.Keys;
      PassesKeepKeys(lines[1..], Moved(balance, id, draw), amount - draw);
      PassesKeepKeys(lines[1..], Moved(balance, id, -repay), amount - repay);
    }
  }

  // ----- The table of draws -----

  type DrawTable<Id> = map<Id, seq<real>>

  function RecordDraw<Id>(draws: DrawTable<Id>, id: Id, t: nat, draw: real): DrawTable<Id> {
    if draw > 0.0 && id in draws && t < |draws[id]| then draws[id := draws[id][t := draw]] else draws
  }

  /** The draws that DrawDown makes, entered in column t. */
  function RecordDraws<Id>(lines: seq<Line<Id>>, balance: map<Id, real>, shortfall: real, draws: DrawTable<Id>, t: nat):
    DrawTable<Id>
  {
    if lines == [] then draws
    else
      var draw := DrawAmount(lines[0], balance, shortfall);
      RecordDraws(lines[1..], Moved(balance, lines[0].id, draw), shortfall - draw,
                  RecordDraw(draws, lines[0].id, t, draw), t)
  }

  lemma {:induction false} RecordDrawsFrame<Id>(lines: seq<Line<Id>>, balance: map<Id, real>, shortfall: real,
                                                draws: DrawTable<Id>, t: nat, id: Id)
    requires Absent(lines, id) && id in draws
    ensures var table := RecordDraws(lines, balance, shortfall, draws, t);
            id in table && table[id] == draws[id]
  {
    if lines != [] {
      var draw := DrawAmount(lines[0], balance, shortfall);
      assert Absent(lines[1..], id);
      RecordDrawsFrame(lines[1..], Moved(balance, lines[0].id, draw), shortfall - draw,
                       RecordDraw(draws, lines[0].id, t, draw), t, id);
    }
  }

  /** Shape is kept and other columns are not touched. */
  lemma {:induction false} RecordDrawsShape<Id>(lines: seq<Line<Id>>, balance: map<Id, real>, shortfall: real,
                                                draws: DrawTable<Id>, t: nat, id: Id)
    requires id in draws
    ensures var table := RecordDraws(lines, balance, shortfall, draws, t);
            && id in table && |table[id]| == |draws[id]|
            && (forall u | 0 <= u < |draws[id]| && u != t :: table[id][u] == draws[id][u])
  {
    if lines != [] {
      var draw := DrawAmount(lines[0], balance, shortfall);
      RecordDrawsShape(lines[1..], Moved(balance, lines[0].id, draw), shortfall - draw,
                       RecordDraw(draws, lines[0].id, t, draw), t, id);
    }
  }

  lemma {:induction false} RecordDrawsKeys<Id>(lines: seq<Line<Id>>, balance: map<Id, real>, shortfall: real,
                                               draws: DrawTable<Id>, t: nat)
    ensures RecordDraws(lines, balance, shortfall, draws, t).Keys == draws.Keys
  {
    if lines != [] {
      var draw := DrawAmount(lines[0], balance, shortfall);
      RecordDrawsKeys(lines[1..], Moved(balance, lines[0].id, draw), shortfall - draw,
                      RecordDraw(draws, lines[0].id, t, draw), t);
    }
  }

  /** A line's recorded draw is the rise of its balance. */
  lemma {:induction false} RecordedDrawIsRise<Id>(lines: seq<Line<Id>>, balance: map<Id, real>, shortfall: real,
                                                  draws: DrawTable<Id>, t: nat, i: nat)
    requires Distinct(lines) && shortfall >= 0.0 && i < |lines|
    requires lines[i].id in draws && t < |draws[lines[i].id]| && draws[lines[i].id][t] == 0.0
    ensures var id := lines[i].id;
            var table := RecordDraws(lines, balance, shortfall, draws, t);
            && id in table && t < |table[id]|
            && table[id][t] == Bal(DrawDown(lines, balance, shortfall).balance, id) - Bal(balance, id)
  {
    var id, rest := lines[0].id, lines[1..];
    var draw := DrawAmount(lines[0], balance, shortfall);
    var raised := Moved(balance, id, draw);
    var table := RecordDraw(draws, id, t, draw);
    if i == 0 {
      DrawDownFrame(rest, raised, shortfall - draw, id);
      RecordDrawsFrame(rest, raised, shortfall - draw, table, t, id);
    } else {
      assert rest[i - 1] == lines[i];
      RecordedDrawIsRise(rest, raised, shortfall - draw, table, t, i - 1);
    }
  }

  // ----- Runs of several periods -----

  /** What one period asks for: drawing a shortfall or repaying an excess. */
  datatype Period<Id> = Shortfall(lines: seq<Line<Id>>, amount: real) | Surplus(lines: seq<Line<Id>>, amount: real)

  function Step<Id>(p: Period<Id>, balance: map<Id, real>): Pass<Id> {
    match p
    case Shortfall(lines, amount) => DrawDown(lines, balance, amount)
    case Surplus(lines, amount) => PayBack(lines, balance, amount)
  }

  /** Cash drawn less cash repaid. */
  function Net<Id>(p: Period<Id>, balance: map<Id, real>): real {
    if p.Shortfall? then p.amount - Step(p, balance).left else Step(p, balance).left - p.amount
  }

  function RecordPeriod<Id>(p: Period<Id>, balance: map<Id, real>, draws: DrawTable<Id>, t: nat): DrawTable<Id> {
    if p.Shortfall? then RecordDraws(p.lines, balance, p.amount, draws, t) else draws
  }

  /** Balances after the first n periods. */
  function Balances<Id>(run: seq<Period<Id>>, opening: map<Id, real>, n: nat): map<Id, real>
    requires n <= |run|
  {
    if n == 0 then opening else Step(run[n - 1], Balances(run, opening, n - 1)).balance
  }

  /** The table of draws after the first n periods. */
  function Draws<Id>(run: seq<Period<Id>>, opening: map<Id, real>, blank: DrawTable<Id>, n: nat): DrawTable<Id>
    requires n <= |run|
  {
    if n == 0 then blank
    else RecordPeriod(run[n - 1], Balances(run, opening, n - 1), Draws(run, opening, blank, n - 1), n - 1)
  }

  /** Amounts are not negative and the lines are among the ids. */
  ghost predicate Proper<Id>(run: seq<Period<Id>>, ids: set<Id>) {
    forall t | 0 <= t < |run| :: run[t].amount >= 0.0 && AllIn(run[t].lines, ids)
  }

  lemma {:induction false} BalancesKeepShape<Id(!new)>(run: seq<Period<Id>>, opening: map<Id, real>, n: nat)
    requires n <= |run| && Proper(run, opening.Keys) && AllNonNegative(opening)
    ensures Balances(run, opening, n).Keys == opening.Keys
    ensures AllNonNegative(Balances(run, opening, n))
  {
    if n > 0 {
      BalancesKeepShape(run, opening, n - 1);
      var before, p := Balances(run, opening, n - 1), run[n - 1];
      PassesKeepKeys(p.lines, before, p.amount);
      PassesStayNonNegative(p.lines, before, p.amount);
    }
  }

  /** The table of draws keeps its shape; columns not reached yet are as they were. */
  lemma {:induction false} DrawsKeepShape<Id>(run: seq<Period<Id>>, opening: map<Id, real>, blank: DrawTable<Id>, n: nat,
                                              id: Id)
    requires n <= |run| && id in blank
    ensures var table := Draws(run, opening, blank, n);
            && id in table && |table[id]| == |blank[id]|
            && (forall u | n <= u < |blank[id]| :: table[id][u] == blank[id][u])
  {
    if n > 0 {
      DrawsKeepShape(run, opening, blank, n - 1, id);
      var before, p := Balances(run, opening, n - 1), run[n - 1];
      if p.Shortfall? {
        RecordDrawsShape(p.lines, before, p.amount, Draws(run, opening, blank, n - 1), n - 1, id);
      }
    }
  }

  lemma {:induction false} DrawsKeepKeys<Id>(run: seq<Period<Id>>, opening: map<Id, real>, blank: DrawTable<Id>, n: nat)
    requires n <= |run|
    ensures Draws(run, opening, blank, n).Keys == blank.Keys
  {
    if n > 0 {
      DrawsKeepKeys(run, opening, blank, n - 1);
      var before, p := Balances(run, opening, n - 1), run[n - 1];
      if p.Shortfall? {
        RecordDrawsKeys(p.lines, before, p.amount, Draws(run, opening, blank, n - 1), n - 1);
      }
    }
  }

  /** Period t's column records the rise of a line's balance, and zero when it falls. */
  lemma {:induction false} DrawsRecordRises<Id(!new)>(run: seq<Period<Id>>, opening: map<Id, real>, blank: DrawTable<Id>,
                                                      n: nat, t: nat, i: nat, id: Id)
    requires t < n <= |run| && Proper(run, opening.Keys) && AllNonNegative(opening)
    requires i < |run[t].lines| && Distinct(run[t].lines) && run[t].lines[i].id == id
    requires id in blank && n <= |blank[id]| && blank[id][t] == 0.0
    ensures id in Draws(run, opening, blank, n) && t < |Draws(run, opening, blank, n)[id]|
    ensures Draws(run, opening, blank, n)[id][t]
         == Rise(Bal(Balances(run, opening, t), id), Bal(Balances(run, opening, t + 1), id))
  {
    var before, p, earlier := Balances(run, opening, n - 1), run[n - 1], Draws(run, opening, blank, n - 1);
    DrawsKeepShape(run, opening, blank, n - 1, id);
    if t < n - 1 {
      DrawsRecordRises(run, opening, blank, n - 1, t, i, id);
      if p.Shortfall? {
        RecordDrawsShape(p.lines, before, p.amount, earlier, n - 1, id);
      }
    } else {
      BalancesKeepShape(run, opening, t);
      if p.Shortfall? {
        RecordedDrawIsRise(p.lines, before, p.amount, earlier, t, i);
        DrawDownIsGreedy(p.lines, before, p.amount, i);
      } else {
        PayBackIsGreedy(p.lines, before, p.amount, i);
      }
    }
  }

  function Rise(before: real, after: real): real {
    Max(0.0, after - before)
  }

  // ----- The loops -----

  lemma {:induction false} NothingLeftIsNoChange<Id>(lines: seq<Line<Id>>, balance: map<Id, real>, draws: DrawTable<Id>,
                                                     t: nat)
    requires AllIn(lines, balance.Keys)
    ensures DrawDown(lines, balance, 0.0) == Pass(balance, 0.0)
    ensures RecordDraws(lines, balance, 0.0, draws, t) == draws
  {
    if lines != [] {
      assert Moved(balance, lines[0].id, 0.0) == balance;
      assert AllIn(lines[1..], balance.Keys);
      NothingLeftIsNoChange(lines[1..], balance, draws, t);
    }
  }

  lemma {:induction false} NothingLeftIsNoRepayment<Id>(lines: seq<Line<Id>>, balance: map<Id, real>)
    requires AllIn(lines, balance.Keys) && NonNegative(lines, balance)
    ensures PayBack(lines, balance, 0.0) == Pass(balance, 0.0)
  {
    if lines != [] {
      assert Moved(balance, lines[0].id, -0.0) == balance;
      assert AllIn(lines[1..], balance.Keys);
      NonNegativeTail(lines, balance);
      NothingLeftIsNoRepayment(lines[1..], balance);
    }
  }

  ghost predicate AllIn<Id>(lines: seq<Line<Id>>, ids: set<Id>) {
    forall j | 0 <= j < |lines| :: lines[j].id in ids
  }

  ghost predicate HasColumn<Id>(draws: DrawTable<Id>, t: nat) {
    forall id | id in draws :: t < |draws[id]|
  }

  /** One turn of the drawing loop, as the functions see it. */
  lemma DrawTurn<Id>(lines: seq<Line<Id>>, i: nat, balance: map<Id, real>, shortfall: real, draws: DrawTable<Id>, t: nat)
    requires i < |lines|
    ensures var draw := DrawAmount(lines[i], balance, shortfall);
            && DrawDown(lines[i..], balance, shortfall)
               == DrawDown(lines[i + 1..], Moved(balance, lines[i].id, draw), shortfall - draw)
            && RecordDraws(lines[i..], balance, shortfall, draws, t)
               == RecordDraws(lines[i + 1..], Moved(balance, lines[i].id, draw), shortfall - draw,
                              RecordDraw(draws, lines[i].id, t, draw), t)
  {
    assert lines[i..][1..] == lines[i + 1..];
  }

  /** Drawing on one line. */
  method DrawOne<Id(==)>(line: Line<Id>, balance0: map<Id, real>, draws0: DrawTable<Id>, t: nat, shortfall: real)
    returns (balance: map<Id, real>, draws: DrawTable<Id>, draw: real)
    requires line.id in balance0 && line.id in draws0 && HasColumn(draws0, t) && shortfall >= 0.0
    ensures draw == DrawAmount(line, balance0, shortfall) && 0.0 <= draw <= shortfall
    ensures balance == Moved(balance0, line.id, draw) && draws == RecordDraw(draws0, line.id, t, draw)
    ensures balance.Keys == balance0.Keys && draws.Keys == draws0.Keys && HasColumn(draws, t)
  {
    balance, draws := balance0, draws0;
    var available := line.cap - balance[line.id];
    draw := Min(shortfall, Max(0.0, available));
    if draw > 0.0 {
      draws := draws[line.id := draws[line.id][t := draw]];
      balance := balance[line.id := balance[line.id] + draw];
    } else {
      assert Moved(balance, line.id, draw) == balance;
    }
  }

  /** The drawing loop of one period. */
  method DrawLoop<Id(==)>(lines: seq<Line<Id>>, balance0: map<Id, real>, draws0: DrawTable<Id>, t: nat, shortfall0: real)
    returns (balance: map<Id, real>, draws: DrawTable<Id>, total: real)
    requires shortfall0 > 0.0
    requires AllIn(lines, balance0.Keys) && AllIn(lines, draws0.Keys) && HasColumn(draws0, t)
    ensures var p := DrawDown(lines, balance0, shortfall0);
            balance == p.balance && total == shortfall0 - p.left
    ensures draws == RecordDraws(lines, balance0, shortfall0, draws0, t)
    ensures balance.Keys == balance0.Keys && draws.Keys == draws0.Keys
  {
    balance, draws, total := balance0, draws0, 0.0;
    var shortfall := shortfall0;
    var i := 0;
    assert lines[0..] == lines;
    while i < |lines|
      invariant i <= |lines|
      invariant shortfall >= 0.0 && total == shortfall0 - shortfall
      invariant balance.Keys == balance0.Keys && draws.Keys == draws0.Keys && HasColumn(draws, t)
      invariant DrawDown(lines, balance0, shortfall0) == DrawDown(lines[i..], balance, shortfall)
      invariant RecordDraws(lines, balance0, shortfall0, draws0, t) == RecordDraws(lines[i..], balance, shortfall, draws, t)
    {
      DrawTurn(lines, i, balance, shortfall, draws, t);
      var draw;
      balance, draws, draw := DrawOne(lines[i], balance, draws, t, shortfall);
      total := total + draw;
      shortfall := shortfall - draw;
      i := i + 1;
      if shortfall <= 0.0 {
        NothingLeftIsNoChange(lines[i..], balance, draws, t);
        break;
      }
    }
  }

  /** Repaying one line. */
  method RepayOne<Id(==)>(line: Line<Id>, balance0: map<Id, real>, excess: real) returns (balance: map<Id, real>, repay: real)
    requires line.id in balance0 && balance0[line.id] >= 0.0 && excess >= 0.0
    ensures repay == RepayAmount(line, balance0, excess) && 0.0 <= repay <= excess
    ensures balance == Moved(balance0, line.id, -repay) && balance.Keys == balance0.Keys
    ensures Bal(balance, line.id) >= 0.0
  {
    balance := balance0;
    repay := Min(excess, balance[line.id]);
    if repay > 0.0 {
      balance := balance[line.id := balance[line.id] - repay];
    } else {
      assert Moved(balance, line.id, -repay) == balance;
    }
  }

  lemma NonNegativeFrom<Id>(lines: seq<Line<Id>>, balance: map<Id, real>, i: nat)
    requires NonNegative(lines, balance) && AllIn(lines, balance.Keys) && i < |lines|
    ensures lines[i].id in balance && balance[lines[i].id] >= 0.0
  {
    assert Bal(balance, lines[i].id) >= 0.0;
  }

  lemma StillNonNegative<Id>(lines: seq<Line<Id>>, balance: map<Id, real>, id: Id, amount: real)
    requires NonNegative(lines, balance) && Bal(balance, id) + amount >= 0.0
    ensures NonNegative(lines, Moved(balance, id, amount))
  {
  }

  /** The repayment loop of one period. */
  method RepayLoop<Id(==)>(lines: seq<Line<Id>>, balance0: map<Id, real>, excess0: real)
    returns (balance: map<Id, real>, total: real)
    requires excess0 > 0.0
    requires AllIn(lines, balance0.Keys) && NonNegative(lines, balance0)
    ensures var p := PayBack(lines, balance0, excess0);
            balance == p.balance && total == excess0 - p.left
    ensures balance.Keys == balance0.Keys
  {
    balance, total := balance0, 0.0;
    var excess := excess0;
    var i := 0;
    assert lines[0..] == lines;
    while i < |lines|
      invariant i <= |lines|
      invariant excess >= 0.0 && total == excess0 - excess
      invariant balance.Keys == balance0.Keys && NonNegative(lines, balance)
      invariant PayBack(lines, balance0, excess0) == PayBack(lines[i..], balance, excess)
    {
      assert lines[i..][1..] == lines[i + 1..];
      NonNegativeFrom(lines, balance, i);
      var repay;
      ghost var before := balance;
      balance, repay := RepayOne(lines[i], balance, excess);
      StillNonNegative(lines, before, lines[i].id, -repay);
      total := total + repay;
      excess := excess - repay;
      i := i + 1;
      if excess <= 0.0 {
        NothingLeftIsNoRepayment(lines[i..], balance);
        break;
      }
    }
  }

  /** The draws or repayments of one period; a surplus of zero moves nothing. */
  method PeriodLoop<Id(==,!new)>(p: Period<Id>, balance0: map<Id, real>, draws0: DrawTable<Id>, t: nat)
    returns (balance: map<Id, real>, draws: DrawTable<Id>, drawn: real, repaid: real)
    requires p.amount >= 0.0 && (p.Shortfall? ==> p.amount > 0.0)
    requires AllIn(p.lines, balance0.Keys) && AllIn(p.lines, draws0.Keys) && HasColumn(draws0, t)
    requires AllNonNegative(balance0)
    ensures balance == Step(p, balance0).balance
    ensures draws == RecordPeriod(p, balance0, draws0, t)
    ensures drawn - repaid == Net(p, balance0)
  {
    balance, draws, drawn, repaid := balance0, draws0, 0.0, 0.0;
    if p.Shortfall? {
      balance, draws, drawn := DrawLoop(p.lines, balance, draws, t, p.amount);
    } else if p.amount > 0.0 {
      balance, repaid := RepayLoop(p.lines, balance, p.amount);
    } else {
      NothingLeftIsNoRepayment(p.lines, balance);
    }
  }
}
