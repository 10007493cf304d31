/** What the series of a run are worth, node by node (engine.py). */
module EngineLaws {
  import opened CalcGraphs
  import opened Dataflow
  import opened Drivers
  import opened Engine
  import opened Evaluator
  import opened RealArith
  import opened Wrappers

  // ----- The variables of a formula -----

  /** Input inp reads node k under the name x: a node without a driver reference by its id without the
      prefix, a node with one by that reference, or a reference by the node that carries it. */
  predicate Reads(m: Model, inp: string, x: string, k: string) {
    || (inp == k == "n_" + x && k in m.nodes && m.nodes[k].ref.None?)
    || (inp == k && k in m.nodes && m.nodes[k].ref == Some("drv:" + x))
    || (inp == "drv:" + x && inp !in m.nodes && inp in m.refToNode && m.refToNode[inp] == k)
  }

  lemma ReadsBinds(m: Model, inp: string, x: string, k: string)
    requires Reads(m, inp, x, k)
    ensures InputBinding(m, inp) == (x, k)
  {
    assert ("n_" + x)[2..] == x && ("drv:" + x)[4..] == x;
    assert ("n_" + x)[0] == 'n' && "drv:"[0] == 'd';
  }

  lemma TwoBindings(m: Model, inputs: seq<string>, column: Column<string>, t: nat, x: string, j: string, y: string, k: string)
    requires |inputs| == 2 && Reads(m, inputs[0], x, j) && Reads(m, inputs[1], y, k) && j in column && k in column
    ensures BindInputs(m, inputs, column, t) == Success(map["t" := t as real, x := column[j]][y := column[k]])
  {
    ReadsBinds(m, inputs[0], x, j);
    ReadsBinds(m, inputs[1], y, k);
    assert inputs[..1] == [inputs[0]] && inputs[..1][..0] == [];
    assert BindInputs(m, [], column, t) == Success(map["t" := t as real]);
    assert BindInputs(m, inputs[..1], column, t) == Success(map["t" := t as real, x := column[j]]);
  }

  // ----- Formulas of two inputs -----

  /** Node out has the formula x op y, where x and y name the nodes j and k. */
  predicate TwoInputFormula(m: Model, out: string, op: BinaryOp, x: string, j: string, y: string, k: string) {
    && out in m.nodes && j in m.nodes && k in m.nodes
    && m.nodes[out].nodeType != DriverNode && out in m.formulas
    && |m.formulas[out].inputs| == 2
    && Reads(m, m.formulas[out].inputs[0], x, j) && Reads(m, m.formulas[out].inputs[1], y, k) && x != y
    && m.formulas[out].expression == Some(Binary(op, Name(x), Name(y)))
  }

  lemma TwoInputValue(m: Model, column: Column<string>, t: nat, out: string, op: BinaryOp,
                      x: string, j: string, y: string, k: string)
    requires TwoInputFormula(m, out, op, x, j, y, k) && SolvesColumn(Equations(m), column, t)
    ensures j in column && k in column && out in column
    ensures EvalBinary(op, column[j], column[k]) == Success(column[out])
  {
    var variables: Variables := map["t" := t as real, x := column[j]][y := column[k]];
    assert Equations(m).value(column, out, t) == NodeValue(m, column, out, t);
    TwoBindings(m, m.formulas[out].inputs, column, t, x, j, y, k);
    NamesEvaluate(op, x, y, variables);
    assert Evaluate(m.formulas[out].expression, variables) == EvalBinary(op, column[j], column[k]);
  }

  lemma NamesEvaluate(op: BinaryOp, x: string, y: string, variables: Variables)
    requires x in variables && y in variables
    ensures EvalNode(Binary(op, Name(x), Name(y)), variables) == EvalBinary(op, variables[x], variables[y])
  {
  }

  /** r is the sum, the difference, the product or the quotient of a and b. */
  predicate Computes(op: BinaryOp, a: real, b: real, r: real) {
    match op
    case Add => r == a + b
    case Sub => r == a - b
    case Mult => r == a * b
    case Div => b != 0.0 && r * b == a
    case OtherBinary => false
  }

  lemma Operated(op: BinaryOp, a: real, b: real, r: real)
    requires EvalBinary(op, a, b) == Success(r)
    ensures Computes(op, a, b, r)
  {
  }

  /** In every period of a solution the node is the sum, the difference or the product of the two nodes
      its formula names, or their quotient, which it then can be. */
  lemma FormulaHolds(m: Model, horizon: nat, s: Series<string>, t: nat, out: string, op: BinaryOp,
                     x: string, j: string, y: string, k: string)
    requires IsSolution(Equations(m), horizon, s) && t < horizon && TwoInputFormula(m, out, op, x, j, y, k)
    ensures j in s && k in s && out in s && |s[j]| == |s[k]| == |s[out]| == horizon
    ensures Computes(op, s[j][t], s[k][t], s[out][t])
  {
    TwoInputValue(m, ColumnAt(s, t), t, out, op, x, j, y, k);
    Operated(op, s[j][t], s[k][t], s[out][t]);
  }

  /** Every formula knows the number of the period as t: a node that is just that shows it. */
  lemma TimeIsKnown(m: Model, horizon: nat, s: Series<string>, t: nat, out: string)
    requires IsSolution(Equations(m), horizon, s) && t < horizon && out in m.nodes
    requires m.nodes[out].nodeType != DriverNode && out in m.formulas
    requires m.formulas[out].inputs == [] && m.formulas[out].expression == Some(Name("t"))
    ensures out in s && |s[out]| == horizon && s[out][t] == t as real
  {
    assert Equations(m).value(ColumnAt(s, t), out, t) == NodeValue(m, ColumnAt(s, t), out, t);
    assert BindInputs(m, [], ColumnAt(s, t), t) == Success(map["t" := t as real]);
  }

  // ----- Nodes without a formula -----

  /** A node that is neither a driver nor has a formula, and a driver node without a known driver, are
      zero. */
  lemma IdleNode(m: Model, horizon: nat, s: Series<string>, t: nat, nid: string)
    requires IsSolution(Equations(m), horizon, s) && t < horizon && nid in m.nodes
    requires if m.nodes[nid].nodeType == DriverNode
             then m.nodes[nid].ref.None? || m.nodes[nid].ref.value !in m.drivers
             else nid !in m.formulas
    ensures nid in s && |s[nid]| == horizon && s[nid][t] == 0.0
  {
    assert Equations(m).value(ColumnAt(s, t), nid, t) == NodeValue(m, ColumnAt(s, t), nid, t);
  }

  function RampMonths(rs: RevenueStream): nat {
    if rs.rampUpMonths.Some? then rs.rampUpMonths.value else 0
  }

  /** A driver node shows its driver, unless a launched stream carries it; then nothing before the
      launch and all of it once the ramp-up is over, and on a linear ramp as many parts of it as months
      have begun. */
  lemma DriverNodeShows(m: Model, horizon: nat, s: Series<string>, t: nat, nid: string, ref: string)
    requires IsSolution(Equations(m), horizon, s) && t < horizon && nid in m.nodes
    requires m.nodes[nid].nodeType == DriverNode && m.nodes[nid].ref == Some(ref) && ref != "" && ref in m.drivers
    ensures nid in s && |s[nid]| == horizon
    ensures ref !in m.launches || m.launches[ref].launchMonth.None? ==> s[nid][t] == ResolveDriver(m.drivers[ref], t)
    ensures ref in m.launches && m.launches[ref].launchMonth.Some? ==>
              var launch, months := m.launches[ref].launchMonth.value, RampMonths(m.launches[ref]);
              && (t < launch ==> s[nid][t] == 0.0)
              && (t >= launch + months ==> s[nid][t] == ResolveDriver(m.drivers[ref], t))
              && (launch <= t < launch + months && m.launches[ref].rampCurve.LinearCurve? ==>
                    s[nid][t] * months as real == ResolveDriver(m.drivers[ref], t) * (t - launch + 1) as real)
  {
    assert Equations(m).value(ColumnAt(s, t), nid, t) == NodeValue(m, ColumnAt(s, t), nid, t);
    if ref in m.launches && m.launches[ref].launchMonth.Some? {
      var launch, months := m.launches[ref].launchMonth.value, RampMonths(m.launches[ref]);
      if launch <= t < launch + months && m.launches[ref].rampCurve.LinearCurve? {
        PartTimes(ResolveDriver(m.drivers[ref], t), (t - launch + 1) as real, months as real);
      }
    }
  }

  lemma PartTimes(v: real, part: real, whole: real)
    requires whole > 0.0
    ensures v * (part / whole) * whole == v * part
  {
    assert part / whole * whole == part;
    MulAssoc(v, part / whole, whole);
  }

  // ----- Which node and which formula count -----

  /** A reference is carried by the last node listed with it. */
  lemma {:induction false} LastNodeCounts(ids: seq<string>, nodes: map<string, Node>, i: nat, ref: string)
    requires (forall x | x in ids :: x in nodes) && i < |ids| && ref != "" && nodes[ids[i]].ref == Some(ref)
    requires forall j | i < j < |ids| :: nodes[ids[j]].ref != Some(ref)
    ensures ref in RefMap(ids, nodes) && RefMap(ids, nodes)[ref] == ids[i]
    decreases |ids|
  {
    if i < |ids| - 1 {
      var init := ids[..|ids| - 1];
      assert forall j | 0 <= j < |init| :: init[j] == ids[j];
      LastNodeCounts(init, nodes, i, ref);
    }
  }

  /** A node has the last formula listed for it. */
  lemma {:induction false} LastFormulaCounts(formulas: seq<Formula>, i: nat)
    requires i < |formulas| && forall j | i < j < |formulas| :: formulas[j].outputNodeId != formulas[i].outputNodeId
    ensures formulas[i].outputNodeId in FormulaMap(formulas)
    ensures FormulaMap(formulas)[formulas[i].outputNodeId] == formulas[i]
    decreases |formulas|
  {
    if i < |formulas| - 1 {
      var init := formulas[..|formulas| - 1];
      assert forall j | 0 <= j < |init| :: init[j] == formulas[j];
      LastFormulaCounts(init, i);
    }
  }
}
