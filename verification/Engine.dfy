/** The time-series engine: filling every node of a driver blueprint, period by period, in
    execution order (engine.py). */
module Engine {
  import opened CalcGraphs
  import opened Dataflow
  import opened Digraphs
  import opened Drivers
  import opened Evaluator
  import opened Sequences
  import opened Wrappers

  type Node = BlueprintNode<string>
  type Formula = BlueprintFormula<string>
  type Plan = Blueprint<string>

  datatype Config = Config(horizon: nat, assumptions: Assumptions, blueprint: Plan)

  datatype EngineError =
    | GraphFailure(error: GraphError<string>)
    | UndeclaredNode(nodeId: string)
    | InputNotFound(key: string, nodeId: string, period: nat)
    | FormulaFailed(evalError: EvalError, nodeId: string, period: nat)

  /** Everything that determines the value of a node from the values of others. */
  datatype Model = Model(
    nodes: map<string, Node>,
    refToNode: map<string, string>,
    formulas: map<string, Formula>,
    drivers: map<string, DriverValue>,
    launches: map<string, RevenueStream>,
    exp: Exponential)

  // ----- Names -----

  function RefToVar(s: string): string {
    if "drv:" <= s then s[4..]
    else if "n_" <= s then s[2..]
    else s
  }

  predicate Truthy(ref: Option<string>) {
    ref.Some? && ref.value != ""
  }

  /** The driver references of the nodes, in dictionary order; later nodes replace earlier. */
  function RefMap(ids: seq<string>, nodes: map<string, Node>): map<string, string>
    requires forall x | x in ids :: x in nodes
  {
    if ids == [] then map[]
    else
      var last := ids[|ids| - 1];
      assert last in ids;
      var earlier := RefMap(ids[..|ids| - 1], nodes);
      if Truthy(nodes[last].ref) then earlier[nodes[last].ref.value := last] else earlier
  }

  /** The variable an input binds and the node it reads. */
  function InputBinding(m: Model, inp: string): (string, string) {
    if inp in m.nodes then
      var ref := m.nodes[inp].ref;
      (if Truthy(ref) && "drv:" <= ref.value then ref.value[4..] else RefToVar(inp), inp)
    else if inp in m.refToNode then
      (if "drv:" <= inp then inp[4..] else inp, m.refToNode[inp])
    else
      (RefToVar(inp), inp)
  }

  // ----- The value of one node in one period -----

  /** Variables for a formula; the failure is the first input that names no node. */
  function BindInputs(m: Model, inputs: seq<string>, column: Column<string>, t: nat): Result<Variables, string> {
    if inputs == [] then Success(map["t" := t as real])
    else
      var variables :- BindInputs(m, inputs[..|inputs| - 1], column, t);
      var (varName, key) := InputBinding(m, inputs[|inputs| - 1]);
      if key in column then Success(variables[varName := column[key]]) else Failure(key)
  }

  function DriverNodeValue(m: Model, node: Node, t: nat): real {
    if Truthy(node.ref) && node.ref.value in m.drivers then
      var v := ResolveDriver(m.drivers[node.ref.value], t);
      if node.ref.value in m.launches && m.launches[node.ref.value].launchMonth.Some? then
        v * RampFactor(m.launches[node.ref.value], m.launches[node.ref.value].launchMonth.value, t, m.exp)
      else
        v
    else
      0.0
  }

  /** The right-hand side of a node's equation, read off the given column. */
  function NodeValue(m: Model, column: Column<string>, nid: string, t: nat): Result<real, EngineError> {
    if nid !in m.nodes then
      Failure(UndeclaredNode(nid))
    else if m.nodes[nid].nodeType == DriverNode then
      Success(DriverNodeValue(m, m.nodes[nid], t))
    else if nid !in m.formulas then
      Success(0.0)
    else
      var formula := m.formulas[nid];
      match BindInputs(m, formula.inputs, column, t)
      case Failure(key) => Failure(InputNotFound(key, nid, t))
      case Success(variables) =>
        match Evaluate(formula.expression, variables)
        case Failure(e) => Failure(FormulaFailed(e, nid, t))
        case Success(v) => Success(v)
  }

  // ----- The equations of a model -----

  /** The inputs of a node's formula that its expression really mentions, as node keys. */
  function UsedKeys(m: Model, nid: string): set<string> {
    if nid in m.nodes && m.nodes[nid].nodeType != DriverNode && nid in m.formulas then
      Keys(m, m.formulas[nid].inputs, Mentioned(m.formulas[nid].expression))
    else
      {}
  }

  function Mentioned(expression: Option<Expr>): set<string> {
    match expression
    case None => {}
    case Some(e) => FreeNames(e)
  }

  function Keys(m: Model, inputs: seq<string>, names: set<string>): set<string> {
    if inputs == [] then {}
    else
      var (varName, key) := InputBinding(m, inputs[|inputs| - 1]);
      Keys(m, inputs[..|inputs| - 1], names) + (if varName in names then {key} else {})
  }

  /** The formula equations of a model. */
  function Equations(m: Model): System<string, EngineError> {
    System(m.nodes.Keys, (column, nid, t) => NodeValue(m, column, nid, t), nid => UsedKeys(m, nid))
  }

  lemma {:induction false} BindingsAgree(m: Model, inputs: seq<string>, c0: Column<string>, c1: Column<string>, t: nat,
                                         names: set<string>)
    requires c0.Keys == c1.Keys
    requires forall k | k in c0 && k in Keys(m, inputs, names) :: c0[k] == c1[k]
    ensures var b0, b1 := BindInputs(m, inputs, c0, t), BindInputs(m, inputs, c1, t);
            && b0.Success? == b1.Success?
            && (b0.Failure? ==> b0.error == b1.error)
            && (b0.Success? ==> AgreeOn(names, b0.value, b1.value))
  {
    if inputs != [] {
      BindingsAgree(m, inputs[..|inputs| - 1], c0, c1, t, names);
    }
  }

  /** A node's value depends only on the inputs its expression mentions: inputs that are
      listed but not mentioned need only exist. */
  lemma EquationsAreLocal(m: Model)
    ensures Local(Equations(m))
  {
    var sys := Equations(m);
    forall nid, c0, c1, t | AgreeOnReads(sys, nid, c0, c1)
      ensures sys.value(c0, nid, t) == sys.value(c1, nid, t)
    {
      assert forall k | k in c0 && k in UsedKeys(m, nid) :: k in sys.nodes && k in sys.inputs(nid);
      NodeValueLocality(m, nid, c0, c1, t);
    }
  }

  lemma NodeValueLocality(m: Model, nid: string, c0: Column<string>, c1: Column<string>, t: nat)
    requires c0.Keys == c1.Keys
    requires forall k | k in c0 && k in UsedKeys(m, nid) :: c0[k] == c1[k]
    ensures NodeValue(m, c0, nid, t) == NodeValue(m, c1, nid, t)
  {
    if nid in m.nodes && m.nodes[nid].nodeType != DriverNode && nid in m.formulas {
      var formula := m.formulas[nid];
      BindingsAgree(m, formula.inputs, c0, c1, t, Mentioned(formula.expression));
      var b0, b1 := BindInputs(m, formula.inputs, c0, t), BindInputs(m, formula.inputs, c1, t);
      if b0.Success? && formula.expression.Some? {
        EvalCoincidence(formula.expression.value, b0.value, b1.value);
      }
    }
  }

  // ----- The loops -----

  /** The schedule. Without any assumption on the graph, every node holds what its equation
      gives when the nodes after it still read zero; a failure names such a node. */
  method RunSchedule(m: Model, order: seq<string>, horizon: nat, rampFactors: map<string, seq<real>>)
    returns (r: Result<Series<string>, EngineError>)
    requires NoDup(order)
    requires RampTable(rampFactors, m.launches, horizon, m.exp)
    ensures r.Success? ==> Staged(Equations(m), order, horizon, r.value)
    ensures r.Failure? ==> !r.error.GraphFailure?
    ensures r.Failure? ==> exists column, t: nat, i: nat :: t < horizon && StuckAt(Equations(m), order, column, t, i)
  {
    ghost var sys := Equations(m);
    var timeSeries: Series<string> := map nid | nid in m.nodes :: seq(horizon, _ => 0.0);
    for t := 0 to horizon
      invariant Shaped(sys, horizon, timeSeries)
      invariant forall u: nat | u < t :: StagedColumn(sys, order, ColumnAt(timeSeries, u), u, |order|)
      invariant forall u: nat | t <= u < horizon :: UnwrittenZero(ColumnAt(timeSeries, u), [])
    {
      r := RunPeriod(m, order, horizon, rampFactors, timeSeries, t);
      if r.Failure? {
        return;
      }
      timeSeries := r.value;
    }
    r := Success(timeSeries);
  }

  /** The inner loop over the nodes of one period. */
  method RunPeriod(m: Model, order: seq<string>, horizon: nat, rampFactors: map<string, seq<real>>,
                   before: Series<string>, t: nat)
    returns (r: Result<Series<string>, EngineError>)
    requires NoDup(order) && t < horizon
    requires RampTable(rampFactors, m.launches, horizon, m.exp)
    requires Shaped(Equations(m), horizon, before)
    requires UnwrittenZero(ColumnAt(before, t), [])
    ensures r.Success? ==>
              && Shaped(Equations(m), horizon, r.value)
              && (forall u: nat | u < horizon && u != t :: ColumnAt(r.value, u) == ColumnAt(before, u))
              && StagedColumn(Equations(m), order, ColumnAt(r.value, t), t, |order|)
    ensures r.Failure? ==> !r.error.GraphFailure?
    ensures r.Failure? ==> exists column, i: nat :: StuckAt(Equations(m), order, column, t, i)
  {
    ghost var sys := Equations(m);
    var s := before;
    assert order[..0] == [];
    for i := 0 to |order|
      invariant MidPeriod(sys, order, horizon, before, s, t, i)
    {
      var nid := order[i];
      var column := ColumnAt(s, t);
      var v := ComputeNode(m, rampFactors, column, nid, t, horizon);
      assert sys.value(column, nid, t) == v;
      if v.Failure? {
        MidPeriodStuck(sys, order, horizon, before, s, t, i);
        return Failure(v.error);
      }
      MidPeriodStep(sys, order, horizon, before, s, t, i, v.value);
      s := Write(s, nid, t, v.value);
    }
    r := Success(s);
  }

  method ComputeNode(m: Model, rampFactors: map<string, seq<real>>, column: Column<string>, nid: string, t: nat,
                     horizon: nat)
    returns (r: Result<real, EngineError>)
    requires t < horizon
    requires RampTable(rampFactors, m.launches, horizon, m.exp)
    ensures r == NodeValue(m, column, nid, t)
    ensures r.Success? ==> nid in m.nodes
    ensures r.Failure? ==> !r.error.GraphFailure?
  {
    if nid !in m.nodes {
      return Failure(UndeclaredNode(nid));
    }
    var node := m.nodes[nid];
    if node.nodeType == DriverNode {
      var val := ComputeDriver(m, rampFactors, node, t, horizon);
      return Success(val);
    }
    if nid !in m.formulas {
      return Success(0.0);
    }
    var formula := m.formulas[nid];
    var variables: Variables := map["t" := t as real];
    for k := 0 to |formula.inputs|
      invariant BindInputs(m, formula.inputs[..k], column, t) == Success(variables)
    {
      assert formula.inputs[..k + 1][..k] == formula.inputs[..k];
      var (varName, key) := InputBinding(m, formula.inputs[k]);
      if key !in column {
        BindInputsStops(m, formula.inputs, column, t, k + 1);
        return Failure(InputNotFound(key, nid, t));
      }
      variables := variables[varName := column[key]];
    }
    assert formula.inputs[..|formula.inputs|] == formula.inputs;
    var v := Evaluate(formula.expression, variables);
    if v.Failure? {
      return Failure(FormulaFailed(v.error, nid, t));
    }
    return Success(v.value);
  }

  method ComputeDriver(m: Model, rampFactors: map<string, seq<real>>, node: Node, t: nat, horizon: nat)
    returns (val: real)
    requires t < horizon
    requires RampTable(rampFactors, m.launches, horizon, m.exp)
    ensures val == DriverNodeValue(m, node, t)
  {
    val := 0.0;
    if Truthy(node.ref) && node.ref.value in m.drivers {
      var ref := node.ref.value;
      val := ResolveDriver(m.drivers[ref], t);
      if ref in rampFactors {
        assert IsRamp(rampFactors[ref], m.launches[ref], horizon, m.exp);
        val := val * rampFactors[ref][t];
      }
    }
  }

  lemma {:induction false} BindInputsStops(m: Model, inputs: seq<string>, column: Column<string>, t: nat, k: nat)
    requires k <= |inputs| && BindInputs(m, inputs[..k], column, t).Failure?
    ensures BindInputs(m, inputs, column, t) == BindInputs(m, inputs[..k], column, t)
    decreases |inputs| - k
  {
    if k < |inputs| {
      assert inputs[..k + 1][..k] == inputs[..k];
      BindInputsStops(m, inputs, column, t, k + 1);
    } else {
      assert inputs[..k] == inputs;
    }
  }

  // ----- The whole run -----

  /** The model a configuration describes under the given overrides. */
  ghost function ModelOf(config: Config, overrides: seq<ScenarioOverride>, exp: Exponential): Model {
    var nodes := NodeMap(config.blueprint.nodes);
    var ids := Dedup(NodeIds(config.blueprint.nodes));
    NodeMapKeys(config.blueprint.nodes);
    DedupKeepsElements(NodeIds(config.blueprint.nodes));
    Model(nodes, RefMap(ids, nodes), FormulaMap(config.blueprint.formulas),
          OverriddenMap(DriverMap(AllDrivers(config.assumptions)), overrides),
          LaunchMap(config.assumptions.revenueStreams), exp)
  }

  /** A blueprint fit for running: edges join declared nodes, no cycle, and from every declared
      node that a formula mentions a walk along edges leads to the formula's node. */
  ghost predicate WellFormed(bp: Plan, m: Model) {
    && Closed(GraphOf(bp))
    && !CycleReachable(GraphOf(bp))
    && Covered(Equations(m).nodes, Equations(m).inputs, bp.edges)
  }

  method BuildRefMap(ids: seq<string>, nodes: map<string, Node>) returns (refToNode: map<string, string>)
    requires forall x | x in ids :: x in nodes
    ensures refToNode == RefMap(ids, nodes)
  {
    refToNode := map[];
    for i := 0 to |ids|
      invariant refToNode == RefMap(ids[..i], nodes)
    {
      assert ids[..i + 1][..i] == ids[..i];
      var node := nodes[ids[i]];
      if Truthy(node.ref) {
        refToNode := refToNode[node.ref.value := ids[i]];
      }
    }
    assert ids[..|ids|] == ids;
  }

  /** Runs the engine. On a well-formed blueprint it succeeds exactly when the formula
      equations have a solution, and returns it. */
  method RunEngine(config: Config, overrides: seq<ScenarioOverride>, exp: Exponential)
    returns (r: Result<Series<string>, EngineError>)
    ensures var g, sys := GraphOf(config.blueprint), Equations(ModelOf(config, overrides, exp));
            && (CycleReachable(g) <==> r.Failure? && r.error.GraphFailure? && r.error.error.CycleDetected?)
            && (r.Success? ==> exists order :: KahnOrder(g, order) && Staged(sys, order, config.horizon, r.value))
    ensures var m := ModelOf(config, overrides, exp);
            WellFormed(config.blueprint, m) ==>
              && (r.Success? <==> Solvable(Equations(m), config.horizon))
              && (r.Success? ==> IsSolution(Equations(m), config.horizon, r.value))
  {
    var bp := config.blueprint;
    ghost var m := ModelOf(config, overrides, exp);
    var collected := CollectDriverValuesByRef(config.assumptions);
    DriverMapRefs(AllDrivers(config.assumptions));
    var drivers := ApplyOverrides(collected, overrides);
    var graph := new CalcGraph.FromBlueprint(bp);
    var sorted := graph.TopoSort(bp);
    if sorted.Failure? {
      return Failure(GraphFailure(sorted.error));
    }
    var order := sorted.value;
    var rampFactors := BuildRampFactors(config.assumptions.revenueStreams, config.horizon, exp);
    NodeMapKeys(bp.nodes);
    DedupKeepsElements(NodeIds(bp.nodes));
    var refToNode := BuildRefMap(graph.nodeIds, graph.nodes);
    var model := Model(graph.nodes, refToNode, graph.formulasByOutput, drivers,
                       LaunchMap(config.assumptions.revenueStreams), exp);
    assert model == m;
    r := RunSchedule(model, order, config.horizon, rampFactors);
    if WellFormed(bp, m) {
      ScheduleDecides(bp, m, order, config.horizon, r);
    }
  }

  lemma ScheduleDecides(bp: Plan, m: Model, order: seq<string>, horizon: nat, r: Result<Series<string>, EngineError>)
    requires WellFormed(bp, m) && m.nodes == NodeMap(bp.nodes)
    requires IsTopoOrder(GraphOf(bp), order)
    requires r.Success? ==> Staged(Equations(m), order, horizon, r.value)
    requires r.Failure? ==> exists column, t: nat, i: nat :: t < horizon && StuckAt(Equations(m), order, column, t, i)
    ensures r.Success? <==> Solvable(Equations(m), horizon)
    ensures r.Success? ==> IsSolution(Equations(m), horizon, r.value)
  {
    var g, sys := GraphOf(bp), Equations(m);
    EquationsAreLocal(m);
    NodeMapKeys(bp.nodes);
    assert WellOrdered(sys, g, order);
    if r.Success? {
      ScheduleSolves(sys, g, order, horizon, r.value);
    } else {
      var column, t: nat, i: nat :| t < horizon && StuckAt(sys, order, column, t, i);
      StuckMeansUnsolvable(sys, g, order, column, horizon, t, i);
    }
  }

  // ----- Why inputs must be covered by walks -----

  const READER: Node := BlueprintNode("a", OutputNode, None)
  const SOURCE: Node := BlueprintNode("b", FormulaNode, None)
  const READS_B: Formula := BlueprintFormula("a", Some(Name("b")), ["b"])
  const IS_ONE: Formula := BlueprintFormula("b", Some(Constant(1.0)), [])

  /** A formula that reads node b without an edge from it. */
  function UncoveredModel(exp: Exponential): Model {
    Model(map["a" := READER, "b" := SOURCE], map[], map["a" := READS_B, "b" := IS_ONE], map[], map[], exp)
  }

  /** Without the edge both orders of the two nodes are execution orders, and running the
      reader first leaves it at zero although its equation says one. */
  lemma UncoveredInputReadsZero(exp: Exponential)
    ensures var sys, g := Equations(UncoveredModel(exp)), Digraph(["a", "b"], []);
            && IsTopoOrder(g, ["a", "b"]) && IsTopoOrder(g, ["b", "a"])
            && Staged(sys, ["a", "b"], 1, map["a" := [0.0], "b" := [1.0]])
            && Staged(sys, ["b", "a"], 1, map["a" := [1.0], "b" := [1.0]])
            && !IsSolution(sys, 1, map["a" := [0.0], "b" := [1.0]])
            && IsSolution(sys, 1, map["a" := [1.0], "b" := [1.0]])
  {
    var m := UncoveredModel(exp);
    UncoveredValues(m, exp);
    EdgelessOrders("a", "b");
    UncoveredReadsZero(Equations(m), "a", "b");
  }

  lemma UncoveredValues(m: Model, exp: Exponential)
    requires m == UncoveredModel(exp)
    ensures forall c: Column<string>, t: nat | "b" in c :: NodeValue(m, c, "a", t) == Success(c["b"])
    ensures forall c: Column<string>, t: nat :: NodeValue(m, c, "b", t) == Success(1.0)
  {
    assert InputBinding(m, "b") == ("b", "b");
    forall c: Column<string>, t: nat | "b" in c
      ensures NodeValue(m, c, "a", t) == Success(c["b"])
    {
      assert ["b"][..0] == [];
      assert BindInputs(m, [], c, t) == Success(map["t" := t as real]);
      assert BindInputs(m, ["b"], c, t) == Success(map["t" := t as real, "b" := c["b"]]);
    }
  }
}
