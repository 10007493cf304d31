/** Equation systems over named series, solved by evaluating each node once per period in an
    execution order. Identifiers and the meaning of an equation are parameters. */
module Dataflow {
  import opened Digraphs
  import opened Sequences
  import opened Wrappers

  /** The values of all nodes in one period. */
  type Column<Id> = map<Id, real>

  type Series<Id> = map<Id, seq<real>>

  /** value gives a node's right-hand side on a column; inputs names what it looks at. */
  datatype System<!Id, E> = System(
    nodes: set<Id>,
    value: (Column<Id>, Id, nat) -> Result<real, E>,
    inputs: Id -> set<Id>)

  ghost predicate AgreeOnReads<Id, E>(sys: System<Id, E>, n: Id, c0: Column<Id>, c1: Column<Id>) {
    && c0.Keys == c1.Keys == sys.nodes
    && (forall k | k in sys.nodes && k in sys.inputs(n) :: c0[k] == c1[k])
  }

  /** A node's value depends only on its inputs. */
  ghost predicate Local<Id(!new), E>(sys: System<Id, E>) {
    forall n, c0, c1, t | AgreeOnReads(sys, n, c0, c1) :: sys.value(c0, n, t) == sys.value(c1, n, t)
  }

  // ----- Solutions -----

  ghost predicate SolvesColumn<Id, E>(sys: System<Id, E>, column: Column<Id>, t: nat) {
    && column.Keys == sys.nodes
    && (forall n | n in sys.nodes :: sys.value(column, n, t) == Success(column[n]))
  }

  ghost predicate Shaped<Id, E>(sys: System<Id, E>, horizon: nat, s: Series<Id>) {
    s.Keys == sys.nodes && forall n | n in s :: |s[n]| == horizon
  }

  function ColumnAt<Id>(s: Series<Id>, t: nat): Column<Id>
    requires forall n | n in s :: t < |s[n]|
  {
    map n | n in s :: s[n][t]
  }

  /** Every node's value, in every period, is what its equation gives on the series itself. */
  ghost predicate IsSolution<Id, E>(sys: System<Id, E>, horizon: nat, s: Series<Id>) {
    && Shaped(sys, horizon, s)
    && (forall t: nat | t < horizon :: SolvesColumn(sys, ColumnAt(s, t), t))
  }

  ghost predicate Solvable<Id(!new), E>(sys: System<Id, E>, horizon: nat) {
    exists s :: IsSolution(sys, horizon, s)
  }

  // ----- What the schedule computes, whatever the order -----

  /** The column as it stands when only the nodes in done have been written. */
  function Masked<Id(==)>(column: Column<Id>, done: seq<Id>): Column<Id> {
    map k | k in column :: if k in done then column[k] else 0.0
  }

  ghost predicate StagedCell<Id, E>(sys: System<Id, E>, order: seq<Id>, column: Column<Id>, t: nat, j: nat)
    requires j < |order|
  {
    && order[j] in column
    && sys.value(Masked(column, order[..j]), order[j], t) == Success(column[order[j]])
  }

  ghost predicate StagedColumn<Id, E>(sys: System<Id, E>, order: seq<Id>, column: Column<Id>, t: nat, i: nat)
    requires i <= |order|
  {
    column.Keys == sys.nodes && forall j | 0 <= j < i :: StagedCell(sys, order, column, t, j)
  }

  /** Each node was evaluated on the nodes before it, the others still reading zero. */
  ghost predicate Staged<Id, E>(sys: System<Id, E>, order: seq<Id>, horizon: nat, s: Series<Id>) {
    && Shaped(sys, horizon, s)
    && (forall t: nat | t < horizon :: StagedColumn(sys, order, ColumnAt(s, t), t, |order|))
  }

  /** The schedule stops in period t at a node that cannot be evaluated. */
  ghost predicate StuckAt<Id, E>(sys: System<Id, E>, order: seq<Id>, column: Column<Id>, t: nat, i: nat) {
    && i < |order|
    && StagedColumn(sys, order, column, t, i)
    && sys.value(Masked(column, order[..i]), order[i], t).Failure?
  }

  /** From every node that is read a walk along edges leads to its reader. */
  ghost predicate Covered<Id(!new)>(nodes: set<Id>, inputs: Id -> set<Id>, edges: seq<Edge<Id>>) {
    forall n, k | n in nodes && k in nodes && k in inputs(n) :: Reaches(edges, k, n)
  }

  /** order is an execution order of a graph that covers the system's reads. */
  ghost predicate WellOrdered<Id(!new), E>(sys: System<Id, E>, g: Digraph<Id>, order: seq<Id>) {
    && Local(sys)
    && IsTopoOrder(g, order)
    && Covered(sys.nodes, sys.inputs, g.edges)
    && (forall x :: x in order <==> x in sys.nodes)
  }

  lemma ReadsPrecede<Id(!new), E>(sys: System<Id, E>, g: Digraph<Id>, order: seq<Id>, i: nat, k: Id)
    requires WellOrdered(sys, g, order) && i < |order|
    requires k in sys.nodes && k in sys.inputs(order[i])
    ensures k in order[..i]
  {
    assert order[i] in order;
    ReachedLater(g, order, k, order[i]);
    var a, b :| 0 <= a < b < |order| && order[a] == k && order[b] == order[i];
    assert b == i;
    assert order[..i][a] == k;
  }

  /** Masking the nodes not yet written does not change what the next node reads. */
  lemma MaskingIsInvisible<Id(!new), E>(sys: System<Id, E>, g: Digraph<Id>, order: seq<Id>,
                                        c0: Column<Id>, c1: Column<Id>, t: nat, i: nat)
    requires WellOrdered(sys, g, order) && i < |order|
    requires c0.Keys == c1.Keys == sys.nodes
    requires forall j | 0 <= j < i :: order[j] in sys.nodes && c0[order[j]] == c1[order[j]]
    ensures sys.value(Masked(c0, order[..i]), order[i], t) == sys.value(c1, order[i], t)
  {
    var masked := Masked(c0, order[..i]);
    forall k | k in sys.nodes && k in sys.inputs(order[i])
      ensures masked[k] == c1[k]
    {
      ReadsPrecede(sys, g, order, i, k);
      var j :| 0 <= j < i && order[..i][j] == k;
      assert order[j] == k;
    }
    assert AgreeOnReads(sys, order[i], masked, c1);
  }

  lemma OrderInNodes<Id(!new), E>(sys: System<Id, E>, g: Digraph<Id>, order: seq<Id>)
    requires WellOrdered(sys, g, order)
    ensures forall j | 0 <= j < |order| :: order[j] in sys.nodes
  {
    forall j | 0 <= j < |order|
      ensures order[j] in sys.nodes
    {
      assert order[j] in order;
    }
  }

  /** One column: the staged values solve the equations. */
  lemma StagedSolves<Id(!new), E>(sys: System<Id, E>, g: Digraph<Id>, order: seq<Id>, column: Column<Id>, t: nat)
    requires WellOrdered(sys, g, order)
    requires StagedColumn(sys, order, column, t, |order|)
    ensures SolvesColumn(sys, column, t)
  {
    OrderInNodes(sys, g, order);
    forall n | n in sys.nodes
      ensures sys.value(column, n, t) == Success(column[n])
    {
      assert n in order;
      var i :| 0 <= i < |order| && order[i] == n;
      assert StagedCell(sys, order, column, t, i);
      MaskingIsInvisible(sys, g, order, column, column, t, i);
    }
  }

  /** One column: any solution agrees with what has been staged so far. */
  lemma {:induction false} StagedAgrees<Id(!new), E>(sys: System<Id, E>, g: Digraph<Id>, order: seq<Id>,
                                                     column: Column<Id>, solution: Column<Id>, t: nat, i: nat)
    requires WellOrdered(sys, g, order) && i <= |order|
    requires StagedColumn(sys, order, column, t, i)
    requires SolvesColumn(sys, solution, t)
    ensures forall j | 0 <= j < i :: order[j] in sys.nodes && column[order[j]] == solution[order[j]]
  {
    if i > 0 {
      StagedAgrees(sys, g, order, column, solution, t, i - 1);
      assert StagedCell(sys, order, column, t, i - 1);
      MaskingIsInvisible(sys, g, order, column, solution, t, i - 1);
      assert order[i - 1] in sys.nodes && column[order[i - 1]] == solution[order[i - 1]];
    }
  }

  /** A stuck schedule means that the equations have no solution at all. */
  lemma StuckMeansUnsolvable<Id(!new), E>(sys: System<Id, E>, g: Digraph<Id>, order: seq<Id>, column: Column<Id>,
                                          horizon: nat, t: nat, i: nat)
    requires WellOrdered(sys, g, order) && t < horizon
    requires StuckAt(sys, order, column, t, i)
    ensures !Solvable(sys, horizon)
  {
    forall s | Shaped(sys, horizon, s)
      ensures !SolvesColumn(sys, ColumnAt(s, t), t)
    {
      var solution := ColumnAt(s, t);
      if SolvesColumn(sys, solution, t) {
        StagedAgrees(sys, g, order, column, solution, t, i);
        MaskingIsInvisible(sys, g, order, column, solution, t, i);
        OrderInNodes(sys, g, order);
        assert false;
      }
    }
  }

  // ----- The theorems about whole runs -----

  /** The in-place schedule computes a solution of the equations. */
  lemma ScheduleSolves<Id(!new), E>(sys: System<Id, E>, g: Digraph<Id>, order: seq<Id>, horizon: nat, s: Series<Id>)
    requires WellOrdered(sys, g, order)
    requires Staged(sys, order, horizon, s)
    ensures IsSolution(sys, horizon, s)
  {
    forall t: nat | t < horizon
      ensures SolvesColumn(sys, ColumnAt(s, t), t)
    {
      StagedSolves(sys, g, order, ColumnAt(s, t), t);
    }
  }

  /** There is no other solution. */
  lemma SolutionIsUnique<Id(!new), E>(sys: System<Id, E>, g: Digraph<Id>, order: seq<Id>, horizon: nat,
                                      s: Series<Id>, other: Series<Id>)
    requires WellOrdered(sys, g, order)
    requires Staged(sys, order, horizon, s)
    requires IsSolution(sys, horizon, other)
    ensures s == other
  {
    forall n | n in s
      ensures s[n] == other[n]
    {
      forall t: nat | t < horizon
        ensures s[n][t] == other[n][t]
      {
        assert n in order;
        var i :| 0 <= i < |order| && order[i] == n;
        StagedAgrees(sys, g, order, ColumnAt(s, t), ColumnAt(other, t), t, |order|);
        assert ColumnAt(s, t)[n] == ColumnAt(other, t)[n];
      }
    }
  }

  /** The result is the same for every execution order of the graph. */
  lemma ScheduleOrderIsImmaterial<Id(!new), E>(sys: System<Id, E>, g: Digraph<Id>, order0: seq<Id>, order1: seq<Id>,
                                               horizon: nat, s0: Series<Id>, s1: Series<Id>)
    requires WellOrdered(sys, g, order0) && WellOrdered(sys, g, order1)
    requires Staged(sys, order0, horizon, s0) && Staged(sys, order1, horizon, s1)
    ensures s0 == s1
  {
    ScheduleSolves(sys, g, order1, horizon, s1);
    SolutionIsUnique(sys, g, order0, horizon, s0, s1);
  }

  /** Whether the schedule gets stuck does not depend on the execution order either. */
  lemma StuckInEveryOrder<Id(!new), E>(sys: System<Id, E>, g: Digraph<Id>, order0: seq<Id>, order1: seq<Id>,
                                       horizon: nat, column: Column<Id>, t: nat, i: nat)
    requires WellOrdered(sys, g, order0) && WellOrdered(sys, g, order1) && t < horizon
    requires StuckAt(sys, order0, column, t, i)
    ensures forall s :: !Staged(sys, order1, horizon, s)
  {
    StuckMeansUnsolvable(sys, g, order0, column, horizon, t, i);
    forall s | Shaped(sys, horizon, s)
      ensures !Staged(sys, order1, horizon, s)
    {
      if Staged(sys, order1, horizon, s) {
        ScheduleSolves(sys, g, order1, horizon, s);
        assert false;
      }
    }
  }

  function Truncated<Id>(s: Series<Id>, h: nat): Series<Id>
    requires forall n | n in s :: h <= |s[n]|
  {
    map n | n in s :: s[n][..h]
  }

  /** A longer horizon extends the earlier periods and never changes them. */
  lemma LongerHorizonExtends<Id(!new), E>(sys: System<Id, E>, g: Digraph<Id>, order: seq<Id>, h: nat, horizon: nat,
                                          s: Series<Id>, longer: Series<Id>)
    requires WellOrdered(sys, g, order) && h <= horizon
    requires Staged(sys, order, h, s) && Staged(sys, order, horizon, longer)
    ensures s == Truncated(longer, h)
  {
    ScheduleSolves(sys, g, order, horizon, longer);
    var prefix := Truncated(longer, h);
    forall t: nat | t < h
      ensures SolvesColumn(sys, ColumnAt(prefix, t), t)
    {
      assert ColumnAt(prefix, t) == ColumnAt(longer, t);
    }
    assert Shaped(sys, h, prefix);
    SolutionIsUnique(sys, g, order, h, s, prefix);
  }

  // ----- Why reads must be covered by walks -----

  /** Node n is one more than node k, any other node is one. */
  function OneMoreThan<Id(!new), E>(nodes: set<Id>, inputs: Id -> set<Id>, n: Id, k: Id): System<Id, E> {
    System(nodes, (c, x, t) => Success((if x == n && k in c then c[k] else 0.0) + 1.0), inputs)
  }

  lemma OneMoreIsLocal<Id(!new), E>(nodes: set<Id>, inputs: Id -> set<Id>, n: Id, k: Id)
    requires k in nodes && k in inputs(n)
    ensures Local(OneMoreThan<Id, E>(nodes, inputs, n, k))
  {
    var sys := OneMoreThan<Id, E>(nodes, inputs, n, k);
    forall x, c0, c1, t | AgreeOnReads(sys, x, c0, c1)
      ensures sys.value(c0, x, t) == sys.value(c1, x, t)
    {
    }
  }

  function AllOnes<Id>(nodes: set<Id>): Series<Id> {
    map x | x in nodes :: [1.0]
  }

  /** If n is not after k in the order, the schedule gives one everywhere, which is no solution. */
  lemma ReadsTooEarly<Id(!new), E>(nodes: set<Id>, inputs: Id -> set<Id>, n: Id, k: Id, order: seq<Id>)
    requires n in nodes && k in nodes && NoDup(order) && (forall x :: x in order <==> x in nodes)
    requires n == k || Precedes(order, n, k)
    ensures Staged(OneMoreThan<Id, E>(nodes, inputs, n, k), order, 1, AllOnes(nodes))
    ensures !IsSolution(OneMoreThan<Id, E>(nodes, inputs, n, k), 1, AllOnes(nodes))
  {
    var sys, column := OneMoreThan<Id, E>(nodes, inputs, n, k), ColumnAt(AllOnes(nodes), 0);
    forall j | 0 <= j < |order|
      ensures StagedCell(sys, order, column, 0, j)
    {
      assert order[j] in order;
      if order[j] == n {
        assert k !in order[..j];
      }
    }
    assert sys.value(column, n, 0) == Success(2.0);
    assert !SolvesColumn(sys, column, 0);
  }

  /** Whatever is read from where no walk leads to the reader, some system with these reads is run in
      some execution order without being solved. */
  lemma UncoveredGoesWrong<Id(!new), E>(g: Digraph<Id>, nodes: set<Id>, inputs: Id -> set<Id>, n: Id, k: Id)
    returns (order: seq<Id>)
    requires Closed(g) && !CycleReachable(g) && nodes == ToSet(g.ids)
    requires n in nodes && k in nodes && k in inputs(n) && !Reaches(g.edges, k, n)
    ensures IsTopoOrder(g, order)
    ensures var sys := OneMoreThan<Id, E>(nodes, inputs, n, k);
            && Local(sys)
            && Staged(sys, order, 1, AllOnes(nodes))
            && !IsSolution(sys, 1, AllOnes(nodes))
  {
    order := CompleteOrder(g, []);
    if n != k {
      order := CanComeFirst(g, order, n, k);
    }
    OneMoreIsLocal<Id, E>(nodes, inputs, n, k);
    ReadsTooEarly<Id, E>(nodes, inputs, n, k, order);
  }

  /** Every system with these reads is solved by its schedule in every execution order. */
  ghost predicate AlwaysSolved<Id(!new), E(!new)>(g: Digraph<Id>, nodes: set<Id>, inputs: Id -> set<Id>) {
    forall sys: System<Id, E>, order, horizon, s |
      sys.nodes == nodes && sys.inputs == inputs && Local(sys) && IsTopoOrder(g, order) && Staged(sys, order, horizon, s) ::
      IsSolution(sys, horizon, s)
  }

  /** The exact condition on a closed graph without cycles. */
  lemma CoveredIffAlwaysSolved<Id(!new), E(!new)>(g: Digraph<Id>, nodes: set<Id>, inputs: Id -> set<Id>)
    requires Closed(g) && !CycleReachable(g) && nodes == ToSet(g.ids)
    ensures Covered(nodes, inputs, g.edges) <==> AlwaysSolved<Id, E>(g, nodes, inputs)
  {
    if Covered(nodes, inputs, g.edges) {
      forall sys: System<Id, E>, order, horizon, s |
        sys.nodes == nodes && sys.inputs == inputs && Local(sys) && IsTopoOrder(g, order) && Staged(sys, order, horizon, s)
        ensures IsSolution(sys, horizon, s)
      {
        ScheduleSolves(sys, g, order, horizon, s);
      }
    } else {
      var n, k :| n in nodes && k in nodes && k in inputs(n) && !Reaches(g.edges, k, n);
      var order := UncoveredGoesWrong<Id, E>(g, nodes, inputs, n, k);
      assert OneMoreThan<Id, E>(nodes, inputs, n, k).nodes == nodes;
    }
  }

  // ----- An example -----

  /** Two nodes, a copying b and b constantly one. */
  ghost predicate CopiesOne<Id(!new), E>(sys: System<Id, E>, a: Id, b: Id) {
    && a != b && sys.nodes == {a, b}
    && (forall c: Column<Id>, t: nat | b in c :: sys.value(c, a, t) == Success(c[b]))
    && (forall c: Column<Id>, t: nat :: sys.value(c, b, t) == Success(1.0))
  }

  /** A one-period run over two nodes. */
  lemma StagedPair<Id(!new), E>(sys: System<Id, E>, p: Id, q: Id, x: real, y: real)
    requires p != q && sys.nodes == {p, q}
    requires sys.value(map[p := 0.0, q := 0.0], p, 0) == Success(x)
    requires sys.value(map[p := x, q := 0.0], q, 0) == Success(y)
    ensures Staged(sys, [p, q], 1, map[p := [x], q := [y]])
  {
    var order, column: Column<Id> := [p, q], map[p := x, q := y];
    var s: Series<Id> := map[p := [x], q := [y]];
    assert order[..0] == [] && order[..1] == [p];
    assert Masked(column, order[..0]) == map[p := 0.0, q := 0.0];
    assert Masked(column, order[..1]) == map[p := x, q := 0.0];
    assert StagedCell(sys, order, column, 0, 0) && StagedCell(sys, order, column, 0, 1);
    assert ColumnAt(s, 0) == column;
    assert s.Keys == {p, q};
  }

  /** Run in the order a, b the copy stays at zero; only the order b, a solves the equations. */
  lemma UncoveredReadsZero<Id(!new), E>(sys: System<Id, E>, a: Id, b: Id)
    requires CopiesOne(sys, a, b)
    ensures Staged(sys, [a, b], 1, map[a := [0.0], b := [1.0]]) && !IsSolution(sys, 1, map[a := [0.0], b := [1.0]])
    ensures Staged(sys, [b, a], 1, map[a := [1.0], b := [1.0]]) && IsSolution(sys, 1, map[a := [1.0], b := [1.0]])
  {
    StagedPair(sys, a, b, 0.0, 1.0);
    StagedPair(sys, b, a, 1.0, 1.0);
    var s0, s1: Series<Id> := map[a := [0.0], b := [1.0]], map[a := [1.0], b := [1.0]];
    assert s1 == map[b := [1.0], a := [1.0]];
    var wrong, right := ColumnAt(s0, 0), ColumnAt(s1, 0);
    assert wrong[a] == 0.0 && wrong[b] == 1.0 && right[a] == 1.0 && right[b] == 1.0;
    assert sys.value(wrong, a, 0) == Success(1.0);
    assert !SolvesColumn(sys, wrong, 0);
    assert SolvesColumn(sys, right, 0);
  }

  lemma EdgelessOrders<Id(!new)>(a: Id, b: Id)
    requires a != b
    ensures IsTopoOrder(Digraph([a, b], []), [a, b]) && IsTopoOrder(Digraph([a, b], []), [b, a])
  {
  }

  // ----- Steps of the loops -----

  function Write<Id>(s: Series<Id>, n: Id, t: nat, v: real): Series<Id>
    requires n in s && t < |s[n]|
  {
    s[n := s[n][t := v]]
  }

  /** The nodes not in done still hold zero. */
  ghost predicate UnwrittenZero<Id>(column: Column<Id>, done: seq<Id>) {
    forall n | n in column && n !in done :: column[n] == 0.0
  }

  lemma MaskingDone<Id>(column: Column<Id>, done: seq<Id>)
    requires UnwrittenZero(column, done)
    ensures Masked(column, done) == column
  {
  }

  /** Writing node order[i] leaves everything staged before it staged. */
  lemma WriteKeepsStaged<Id, E>(sys: System<Id, E>, order: seq<Id>, column: Column<Id>, t: nat, i: nat, v: real)
    requires NoDup(order) && i < |order| && order[i] in column
    requires StagedColumn(sys, order, column, t, i)
    requires UnwrittenZero(column, order[..i])
    requires sys.value(column, order[i], t) == Success(v)
    ensures StagedColumn(sys, order, column[order[i] := v], t, i + 1)
    ensures UnwrittenZero(column[order[i] := v], order[..i + 1])
  {
    var after := column[order[i] := v];
    assert order[..i + 1] == order[..i] + [order[i]];
    forall j | 0 <= j < i + 1
      ensures StagedCell(sys, order, after, t, j)
    {
      WrittenLater(order, column, i, j, v);
      if j == i {
        MaskingDone(column, order[..i]);
      } else {
        assert StagedCell(sys, order, column, t, j);
        assert order[j] != order[i];
      }
    }
  }

  lemma WrittenLater<Id>(order: seq<Id>, column: Column<Id>, i: nat, j: nat, v: real)
    requires NoDup(order) && j <= i < |order| && order[i] in column
    ensures Masked(column[order[i] := v], order[..j]) == Masked(column, order[..j])
  {
    assert order[i] !in order[..j];
  }

  lemma ColumnsAfterWrite<Id>(s: Series<Id>, horizon: nat, n: Id, t: nat, v: real)
    requires forall k | k in s :: |s[k]| == horizon
    requires n in s && t < horizon
    ensures ColumnAt(Write(s, n, t, v), t) == ColumnAt(s, t)[n := v]
    ensures forall u: nat | u < horizon && u != t :: ColumnAt(Write(s, n, t, v), u) == ColumnAt(s, u)
  {
  }

  /** In period t the first i nodes of the order have been written on top of before. */
  ghost predicate MidPeriod<Id, E>(sys: System<Id, E>, order: seq<Id>, horizon: nat, before: Series<Id>, s: Series<Id>, t: nat,
                                   i: nat)
    requires i <= |order| && t < horizon && Shaped(sys, horizon, before)
  {
    && Shaped(sys, horizon, s)
    && (forall u: nat | u < horizon && u != t :: ColumnAt(s, u) == ColumnAt(before, u))
    && UnwrittenZero(ColumnAt(s, t), order[..i])
    && StagedColumn(sys, order, ColumnAt(s, t), t, i)
  }

  lemma MidPeriodStep<Id, E>(sys: System<Id, E>, order: seq<Id>, horizon: nat, before: Series<Id>, s: Series<Id>, t: nat,
                             i: nat, v: real)
    requires NoDup(order) && i < |order| && t < horizon && Shaped(sys, horizon, before)
    requires MidPeriod(sys, order, horizon, before, s, t, i) && order[i] in sys.nodes
    requires sys.value(ColumnAt(s, t), order[i], t) == Success(v)
    ensures MidPeriod(sys, order, horizon, before, Write(s, order[i], t, v), t, i + 1)
  {
    WriteKeepsStaged(sys, order, ColumnAt(s, t), t, i, v);
    ColumnsAfterWrite(s, horizon, order[i], t, v);
  }

  lemma MidPeriodStuck<Id, E>(sys: System<Id, E>, order: seq<Id>, horizon: nat, before: Series<Id>, s: Series<Id>, t: nat,
                              i: nat)
    requires i < |order| && t < horizon && Shaped(sys, horizon, before)
    requires MidPeriod(sys, order, horizon, before, s, t, i)
    requires sys.value(ColumnAt(s, t), order[i], t).Failure?
    ensures StuckAt(sys, order, ColumnAt(s, t), t, i)
  {
    MaskingDone(ColumnAt(s, t), order[..i]);
  }
}
