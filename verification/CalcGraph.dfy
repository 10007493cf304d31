/** The calculation graph of a driver blueprint: construction, cycle search and execution
    order (graph.py). Identifiers are only ever compared here, so their type is a parameter. */
module CalcGraphs {
  import opened Digraphs
  import opened Evaluator
  import opened Sequences
  import opened Wrappers

  datatype NodeType = DriverNode | FormulaNode | OutputNode

  datatype BlueprintNode<Id> = BlueprintNode(nodeId: Id, nodeType: NodeType, ref: Option<Id>)

  /** expression is None when the formula's text does not parse. */
  datatype BlueprintFormula<Id> = BlueprintFormula(outputNodeId: Id, expression: Option<Expr>, inputs: seq<Id>)

  datatype Blueprint<Id> = Blueprint(
    nodes: seq<BlueprintNode<Id>>,
    edges: seq<Edge<Id>>,
    formulas: seq<BlueprintFormula<Id>>)

  /** stranded: nodes were left over although no cycle is reachable. */
  datatype GraphError<Id> = CycleDetected(path: seq<Id>) | Stranded

  function NodeIds<Id>(nodes: seq<BlueprintNode<Id>>): seq<Id> {
    seq(|nodes|, i requires 0 <= i < |nodes| => nodes[i].nodeId)
  }

  function GraphOf<Id>(bp: Blueprint<Id>): Digraph<Id> {
    Digraph(NodeIds(bp.nodes), bp.edges)
  }

  /** The dictionary from node id to node; a later node replaces an earlier namesake. */
  function NodeMap<Id>(nodes: seq<BlueprintNode<Id>>): map<Id, BlueprintNode<Id>> {
    if nodes == [] then map[]
    else
      var last := nodes[|nodes| - 1];
      NodeMap(nodes[..|nodes| - 1])[last.nodeId := last]
  }

  lemma NodeMapKeys<Id>(nodes: seq<BlueprintNode<Id>>)
    ensures forall x :: x in NodeMap(nodes) <==> x in NodeIds(nodes)
    ensures forall x | x in NodeMap(nodes) :: NodeMap(nodes)[x] in nodes && NodeMap(nodes)[x].nodeId == x
  {
    if nodes != [] {
      var init, last := nodes[..|nodes| - 1], nodes[|nodes| - 1];
      NodeMapKeys(init);
      assert nodes == init + [last];
      assert NodeIds(nodes) == NodeIds(init) + [last.nodeId];
    }
  }

  function FormulaMap<Id>(formulas: seq<BlueprintFormula<Id>>): map<Id, BlueprintFormula<Id>> {
    if formulas == [] then map[]
    else
      var last := formulas[|formulas| - 1];
      FormulaMap(formulas[..|formulas| - 1])[last.outputNodeId := last]
  }

  /** The adjacency table holds the successor lists of exactly the edges given. */
  ghost predicate IsAdjacency<Id(!new)>(adj: map<Id, seq<Id>>, edges: seq<Edge<Id>>) {
    forall x :: Lookup(adj, x, []) == Targets(edges, x)
  }

  /** Depth-first search for a cycle; the closure's variables are this object's fields. */
  class CycleSearch<Id(==,!new)> {
    const adj: map<Id, seq<Id>>
    ghost const graph: Digraph<Id>
    var visited: set<Id>
    var recStack: set<Id>
    var path: seq<Id>
    var nodeToIdx: map<Id, nat>
    ghost var finished: seq<Id>

    constructor (adj: map<Id, seq<Id>>, ghost graph: Digraph<Id>)
      requires IsAdjacency(adj, graph.edges)
      ensures this.graph == graph && this.adj == adj
      ensures Valid() && path == [] && visited == {} && finished == []
    {
      this.adj := adj;
      this.graph := graph;
      visited := {};
      recStack := {};
      path := [];
      nodeToIdx := map[];
      finished := [];
    }

    ghost function Universe(): set<Id> {
      ToSet(graph.ids) + set e | e in graph.edges :: e.target
    }

    /** The open nodes form a walk from a declared node, the closed ones a finish order. */
    ghost predicate Valid()
      reads this
    {
      && IsAdjacency(adj, graph.edges)
      && visited == ToSet(path) + ToSet(finished) <= Universe()
      && OpenNodes(recStack, path, nodeToIdx)
      && ClosedNodes(path, finished)
    }

    ghost predicate OpenNodes(recStack: set<Id>, path: seq<Id>, nodeToIdx: map<Id, nat>) {
      && NoDup(path)
      && recStack == ToSet(path)
      && (forall i | 0 <= i < |path| :: path[i] in nodeToIdx && nodeToIdx[path[i]] == i)
      && (path != [] ==> IsWalk(graph.edges, path) && path[0] in graph.ids)
    }

    ghost predicate ClosedNodes(path: seq<Id>, finished: seq<Id>) {
      FinishOrder(graph.edges, finished) && ToSet(path) !! ToSet(finished)
    }

    /** nid may be entered: a declared root, or a successor of the last open node. */
    ghost predicate Enterable(nid: Id)
      reads this
    {
      if path == [] then nid in graph.ids
      else Edge(path[|path| - 1], nid) in graph.edges
    }

    method Dfs(nid: Id) returns (cycle: Option<seq<Id>>)
      requires Valid() && nid !in visited && Enterable(nid)
      modifies this
      ensures cycle.Some? ==> IsCycle(graph.edges, cycle.value) && CycleReachable(graph)
      ensures cycle.None? ==> Valid() && path == old(path) && nid in finished
      ensures cycle.None? ==> old(visited) <= visited && old(finished) <= finished
      decreases Universe() - visited
    {
      Enter(nid);
      var succs := Lookup(adj, nid, []);
      TargetsAreEdges(graph.edges, nid);
      var k := 0;
      while k < |succs|
        invariant k <= |succs|
        invariant Valid() && path == old(path) + [nid]
        invariant old(visited) + {nid} <= visited && old(finished) <= finished
        invariant forall j | 0 <= j < k :: succs[j] in finished
      {
        var succ := succs[k];
        assert succ in succs;
        if succ !in visited {
          var r := Dfs(succ);
          if r.Some? {
            return r;
          }
        } else if succ in recStack {
          var start := nodeToIdx[succ];
          ClosedWalk(succ);
          return Some(path[start..] + [succ]);
        }
        k := k + 1;
      }
      SuccessorsClosed(old(path), nid);
      Leave(nid, old(path));
      cycle := None;
    }

    method Enter(nid: Id)
      requires Valid() && nid !in visited && Enterable(nid)
      modifies this
      ensures Valid() && path == old(path) + [nid]
      ensures visited == old(visited) + {nid} && finished == old(finished)
    {
      EnterFacts(nid);
      visited := visited + {nid};
      recStack := recStack + {nid};
      path := path + [nid];
      nodeToIdx := nodeToIdx[nid := |path| - 1];
    }

    lemma EnterFacts(nid: Id)
      requires Valid() && nid !in visited && Enterable(nid)
      ensures nid in Universe()
      ensures ToSet(path + [nid]) == ToSet(path) + {nid}
      ensures OpenNodes(recStack + {nid}, path + [nid], nodeToIdx[nid := |path|])
      ensures ClosedNodes(path + [nid], finished)
    {
      ToSetSnoc(path, nid);
      NoDupSnoc(path, nid);
      if path != [] {
        var last := path[|path| - 1];
        var e := Edge(last, nid);
        assert e in graph.edges && e.target == nid;
        WalkJoin(graph.edges, path, [last, nid]);
        assert path + [nid] == path + [last, nid][1..];
      }
    }

    /** The state after nid is closed, with before the open nodes below it, is valid. */
    ghost predicate Closable(before: seq<Id>, nid: Id)
      reads this
    {
      && path == before + [nid] && nid in recStack
      && IsAdjacency(adj, graph.edges)
      && visited == ToSet(before) + ToSet(finished + [nid]) <= Universe()
      && OpenNodes(recStack - {nid}, before, nodeToIdx)
      && ClosedNodes(before, finished + [nid])
    }

    /** Closing the innermost open node. */
    method Leave(nid: Id, ghost before: seq<Id>)
      requires Closable(before, nid)
      modifies this`recStack, this`path, this`finished
      ensures Valid() && path == before
      ensures finished == old(finished) + [nid]
    {
      var rest := path[..|path| - 1];
      assert rest == before;
      recStack, path, finished := recStack - {nid}, rest, finished + [nid];
    }

    /** The innermost open node may be closed once all its successors are. */
    lemma SuccessorsClosed(before: seq<Id>, nid: Id)
      requires Valid() && path == before + [nid]
      requires forall x | x in Targets(graph.edges, nid) :: x in finished
      ensures Closable(before, nid)
    {
      TargetsAreEdges(graph.edges, nid);
      assert forall e | e in graph.edges && e.source == nid :: e == Edge(nid, e.target);
      LeaveOpen(recStack, before, nodeToIdx, nid);
      LeaveClosed(before, finished, nid);
    }

    lemma LeaveOpen(recStack: set<Id>, before: seq<Id>, nodeToIdx: map<Id, nat>, nid: Id)
      requires OpenNodes(recStack, before + [nid], nodeToIdx)
      ensures nid in recStack
      ensures OpenNodes(recStack - {nid}, before, nodeToIdx)
    {
      var p := before + [nid];
      ToSetSnoc(before, nid);
      NoDupSnoc(before, nid);
      assert forall i | 0 <= i < |before| :: before[i] == p[i];
      if before != [] {
        WalkSlice(graph.edges, p, 0, |before|);
        assert before == p[0..|before|];
      }
    }

    lemma LeaveClosed(before: seq<Id>, finished: seq<Id>, nid: Id)
      requires ClosedNodes(before + [nid], finished) && NoDup(before + [nid])
      requires forall e | e in graph.edges && e.source == nid :: e.target in finished
      ensures ClosedNodes(before, finished + [nid])
      ensures ToSet(before + [nid]) + ToSet(finished) == ToSet(before) + ToSet(finished + [nid])
    {
      ToSetSnoc(before, nid);
      NoDupSnoc(before, nid);
      ToSetSnoc(finished, nid);
      assert nid in ToSet(before + [nid]);
      FinishSnoc(graph.edges, finished, nid);
    }

    /** An edge from the innermost open node back to an open one closes a cycle. */
    lemma ClosedWalk(succ: Id)
      requires Valid() && path != [] && succ in path
      requires Edge(path[|path| - 1], succ) in graph.edges
      ensures succ in nodeToIdx && nodeToIdx[succ] < |path| && path[nodeToIdx[succ]] == succ
      ensures IsCycle(graph.edges, path[nodeToIdx[succ]..] + [succ])
      ensures CycleReachable(graph)
    {
      var i :| 0 <= i < |path| && path[i] == succ;
      var last := path[|path| - 1];
      WalkSlice(graph.edges, path, i, |path|);
      assert path[i..|path|] == path[i..];
      WalkJoin(graph.edges, path[i..], [last, succ]);
      assert path[i..] + [last, succ][1..] == path[i..] + [succ];
      WalkJoin(graph.edges, path, [last, succ]);
      var w := path + [last, succ][1..];
      assert w[i] == w[|w| - 1];
    }
  }

  class CalcGraph<Id(==,!new)> {
    var nodes: map<Id, BlueprintNode<Id>>
    var nodeIds: seq<Id>
    var edges: seq<Edge<Id>>
    var formulasByOutput: map<Id, BlueprintFormula<Id>>
    var adj: map<Id, seq<Id>>
    var inDegree: map<Id, int>
    var inDegreeIds: seq<Id>

    /** The tables are those of the given blueprint. nodeIds and inDegreeIds give the
        iteration order of the two dictionaries. */
    ghost predicate Represents(bp: Blueprint<Id>)
      reads this
    {
      && nodes == NodeMap(bp.nodes)
      && nodeIds == Dedup(NodeIds(bp.nodes))
      && edges == bp.edges
      && formulasByOutput == FormulaMap(bp.formulas)
      && IsAdjacency(adj, bp.edges)
      && IsInDegree(bp.edges)
      && NoDup(inDegreeIds)
      && (forall x :: x in inDegreeIds <==> Scheduled(GraphOf(bp), x))
    }

    ghost predicate IsInDegree(done: seq<Edge<Id>>)
      reads this
    {
      DegreeTable(inDegree, inDegreeIds, done)
    }

    static ghost predicate DegreeTable(inDegree: map<Id, int>, inDegreeIds: seq<Id>, done: seq<Edge<Id>>) {
      && (forall x :: x in inDegree <==> x in inDegreeIds)
      && (forall x | x in inDegree :: inDegree[x] == Pending(done, x, {}))
    }

    /** Exactly the scheduled nodes are listed, once each. */
    static ghost predicate ListsScheduled(inDegreeIds: seq<Id>, ids: seq<Id>, done: seq<Edge<Id>>) {
      NoDup(inDegreeIds) && forall x :: x in inDegreeIds <==> Scheduled(Digraph(ids, done), x)
    }

    constructor FromBlueprint(bp: Blueprint<Id>)
      ensures Represents(bp)
    {
      nodes, nodeIds, edges := map[], [], [];
      formulasByOutput, adj, inDegree, inDegreeIds := map[], map[], map[], [];
      new;
      AddNodes(bp);
      AddEdges(bp);
      for i := 0 to |bp.formulas|
        invariant formulasByOutput == FormulaMap(bp.formulas[..i])
        invariant nodes == NodeMap(bp.nodes) && nodeIds == Dedup(NodeIds(bp.nodes))
        invariant edges == bp.edges && IsAdjacency(adj, bp.edges) && IsInDegree(bp.edges)
        invariant NoDup(inDegreeIds)
        invariant forall x :: x in inDegreeIds <==> Scheduled(GraphOf(bp), x)
      {
        var formula := bp.formulas[i];
        formulasByOutput := formulasByOutput[formula.outputNodeId := formula];
        assert bp.formulas[..i + 1][..i] == bp.formulas[..i];
      }
      assert bp.formulas[..|bp.formulas|] == bp.formulas;
    }

    method AddNodes(bp: Blueprint<Id>)
      requires nodes == map[] && nodeIds == [] && inDegree == map[] && inDegreeIds == []
      modifies this`nodes, this`nodeIds, this`inDegree, this`inDegreeIds
      ensures nodes == NodeMap(bp.nodes)
      ensures nodeIds == Dedup(NodeIds(bp.nodes)) == inDegreeIds
      ensures IsInDegree([])
    {
      var ids := NodeIds(bp.nodes);
      for i := 0 to |bp.nodes|
        invariant nodes == NodeMap(bp.nodes[..i])
        invariant nodeIds == Dedup(ids[..i]) == inDegreeIds
        invariant IsInDegree([])
      {
        var node := bp.nodes[i];
        NodeTables(bp.nodes, i);
        if node.nodeId !in nodes {
          nodeIds := nodeIds + [node.nodeId];
        }
        nodes := nodes[node.nodeId := node];
        if node.nodeId !in inDegree {
          inDegree := inDegree[node.nodeId := 0];
          inDegreeIds := inDegreeIds + [node.nodeId];
        }
      }
      assert bp.nodes[..|bp.nodes|] == bp.nodes;
      assert ids[..|ids|] == ids;
    }

    static lemma NodeTables(nodes: seq<BlueprintNode<Id>>, i: nat)
      requires i < |nodes|
      ensures NodeMap(nodes[..i + 1]) == NodeMap(nodes[..i])[nodes[i].nodeId := nodes[i]]
      ensures nodes[i].nodeId in NodeMap(nodes[..i]) <==> nodes[i].nodeId in Dedup(NodeIds(nodes)[..i])
      ensures Dedup(NodeIds(nodes)[..i + 1])
           == Dedup(NodeIds(nodes)[..i]) + (if nodes[i].nodeId in NodeMap(nodes[..i]) then [] else [nodes[i].nodeId])
    {
      var ids := NodeIds(nodes);
      DedupKeepsElements(ids[..i]);
      NodeMapKeys(nodes[..i]);
      assert NodeIds(nodes[..i]) == ids[..i];
      assert nodes[..i + 1][..i] == nodes[..i];
      assert ids[..i + 1][..i] == ids[..i];
    }

    method AddEdges(bp: Blueprint<Id>)
      requires edges == [] && adj == map[] && IsInDegree([])
      requires inDegreeIds == Dedup(NodeIds(bp.nodes))
      modifies this`edges, this`adj, this`inDegree, this`inDegreeIds
      ensures edges == bp.edges && IsAdjacency(adj, bp.edges) && IsInDegree(bp.edges)
      ensures NoDup(inDegreeIds)
      ensures forall x :: x in inDegreeIds <==> Scheduled(GraphOf(bp), x)
    {
      var ids := NodeIds(bp.nodes);
      DedupKeepsElements(ids);
      for i := 0 to |bp.edges|
        invariant edges == bp.edges[..i]
        invariant IsAdjacency(adj, bp.edges[..i])
        invariant IsInDegree(bp.edges[..i])
        invariant ListsScheduled(inDegreeIds, ids, bp.edges[..i])
      {
        assert bp.edges[..i + 1] == bp.edges[..i] + [bp.edges[i]];
        AddEdge(bp.edges[i], ids);
      }
      assert bp.edges[..|bp.edges|] == bp.edges;
    }

    method AddEdge(edge: Edge<Id>, ghost ids: seq<Id>)
      requires IsAdjacency(adj, edges) && IsInDegree(edges) && ListsScheduled(inDegreeIds, ids, edges)
      modifies this`edges, this`adj, this`inDegree, this`inDegreeIds
      ensures edges == old(edges) + [edge]
      ensures IsAdjacency(adj, edges) && IsInDegree(edges) && ListsScheduled(inDegreeIds, ids, edges)
    {
      AdjacencyGrows(adj, edges, edge);
      DegreesGrow(inDegree, inDegreeIds, ids, edges, edge);
      ListGrows(inDegree, inDegreeIds, ids, edges, edge);
      edges := edges + [edge];
      adj := adj[edge.source := Lookup(adj, edge.source, []) + [edge.target]];
      if edge.target !in inDegree {
        inDegreeIds := inDegreeIds + [edge.target];
      }
      inDegree := inDegree[edge.target := Lookup(inDegree, edge.target, 0) + 1];
    }

    static function ListedWith(inDegree: map<Id, int>, inDegreeIds: seq<Id>, x: Id): seq<Id> {
      if x !in inDegree then inDegreeIds + [x] else inDegreeIds
    }

    static lemma AdjacencyGrows(adj: map<Id, seq<Id>>, edges: seq<Edge<Id>>, edge: Edge<Id>)
      requires IsAdjacency(adj, edges)
      ensures IsAdjacency(adj[edge.source := Lookup(adj, edge.source, []) + [edge.target]], edges + [edge])
    {
      forall x {
        EdgeSnoc(edges, edge, x, {});
      }
    }

    static lemma DegreesGrow(inDegree: map<Id, int>, inDegreeIds: seq<Id>, ids: seq<Id>, edges: seq<Edge<Id>>, edge: Edge<Id>)
      requires DegreeTable(inDegree, inDegreeIds, edges) && ListsScheduled(inDegreeIds, ids, edges)
      ensures DegreeTable(inDegree[edge.target := Lookup(inDegree, edge.target, 0) + 1],
                          ListedWith(inDegree, inDegreeIds, edge.target), edges + [edge])
    {
      PendingZero(edges, edge.target, {});
      forall x {
        EdgeSnoc(edges, edge, x, {});
      }
    }

    static lemma ListGrows(inDegree: map<Id, int>, inDegreeIds: seq<Id>, ids: seq<Id>, edges: seq<Edge<Id>>, edge: Edge<Id>)
      requires DegreeTable(inDegree, inDegreeIds, edges) && ListsScheduled(inDegreeIds, ids, edges)
      ensures ListsScheduled(ListedWith(inDegree, inDegreeIds, edge.target), ids, edges + [edge])
    {
      NoDupSnoc(inDegreeIds, edge.target);
      assert edge in edges + [edge];
      forall x
        ensures Scheduled(Digraph(ids, edges + [edge]), x) <==> Scheduled(Digraph(ids, edges), x) || x == edge.target
      {
      }
    }

    /** A reported path is a genuine cycle; none is reported exactly when none is reachable
        from the declared nodes. */
    method DetectCycles(ghost bp: Blueprint<Id>) returns (cycle: Option<seq<Id>>)
      requires Represents(bp)
      ensures cycle.Some? ==> IsCycle(bp.edges, cycle.value)
      ensures cycle.None? <==> !CycleReachable(GraphOf(bp))
    {
      ghost var g := GraphOf(bp);
      DedupKeepsElements(g.ids);
      var search := new CycleSearch(adj, g);
      for i := 0 to |nodeIds|
        invariant search.graph == g
        invariant search.Valid() && search.path == []
        invariant forall j | 0 <= j < i :: nodeIds[j] in search.finished
      {
        var nid := nodeIds[i];
        assert nid in nodeIds;
        if nid !in search.visited {
          var r := search.Dfs(nid);
          if r.Some? {
            return r;
          }
        }
      }
      FinishOrderExcludesCycles(g, search.finished);
      cycle := None;
    }

    /** Execution order by Kahn's algorithm. */
    method TopoSort(ghost bp: Blueprint<Id>) returns (r: Result<seq<Id>, GraphError<Id>>)
      requires Represents(bp)
      ensures CycleReachable(GraphOf(bp)) <==> r.Failure? && r.error.CycleDetected?
      ensures r.Failure? && r.error.CycleDetected? ==> IsCycle(bp.edges, r.error.path)
      ensures r.Success? ==> KahnOrder(GraphOf(bp), r.value)
      ensures r == Failure(Stranded)
         <==> !CycleReachable(GraphOf(bp)) && |HeldNodes(GraphOf(bp))| != |StrayTargets(GraphOf(bp))|
      ensures r == Failure(Stranded) ==> !Closed(GraphOf(bp))
      ensures Closed(GraphOf(bp)) && !CycleReachable(GraphOf(bp))
              ==> r.Success? && IsTopoOrder(GraphOf(bp), r.value)
    {
      var cycle := DetectCycles(bp);
      if cycle.Some? {
        return Failure(CycleDetected(cycle.value));
      }
      var order := Kahn(bp);
      NodeMapKeys(bp.nodes);
      DedupKeepsElements(NodeIds(bp.nodes));
      assert nodes.Keys == ToSet(GraphOf(bp).ids);
      SortOutcome(GraphOf(bp), order);
      if |order| != |nodes| {
        return Failure(Stranded);
      }
      return Success(order);
    }

    /** The emission loop, on any graph. */
    method Kahn(ghost bp: Blueprint<Id>) returns (order: seq<Id>)
      requires Represents(bp)
      ensures KahnOrder(GraphOf(bp), order)
    {
      var inDeg := inDegree;
      var queue := ZeroDegree(inDegreeIds, inDeg);
      order := [];
      ghost var g := GraphOf(bp);
      ZeroDegreeMeaning(inDegreeIds, inDeg);
      assert [] + queue == queue;
      assert ToSet<Id>([]) == {};
      while queue != []
        invariant inDeg.Keys == inDegree.Keys
        invariant Counts(bp.edges, inDeg, ToSet(order))
        invariant Frontier(order, queue, inDeg)
        invariant SourcesFirst(bp.edges, order)
        decreases |inDegree| - |order|
      {
        var nid := queue[0];
        FrontierAdvance(order, queue, inDeg);
        PendingZero(bp.edges, nid, ToSet(order));
        SourcesFirstSnoc(bp.edges, order, nid);
        CountsRetire(bp.edges, inDeg, order, nid);
        ToSetSnoc(order, nid);
        ghost var before := order;
        order := order + [nid];
        var succs := Lookup(adj, nid, []);
        SuccessorsAreScheduled(bp, nid);
        ghost var retired := inDeg;
        inDeg, queue := Release(succs, order, inDeg, queue[1..]);
        CountsReduced(bp.edges, retired, inDeg, nid, ToSet(order));
        OrderFits(order, queue, inDeg);
      }
      KahnDone(g, order, inDeg);
    }

    /** order + queue lists the nodes of current in-degree zero, once each. */
    static ghost predicate Frontier(order: seq<Id>, queue: seq<Id>, inDeg: map<Id, int>) {
      && NoDup(order + queue)
      && (forall x :: x in order + queue <==> x in inDeg && inDeg[x] == 0)
    }

    static ghost predicate Counts(edges: seq<Edge<Id>>, inDeg: map<Id, int>, done: set<Id>) {
      forall x | x in inDeg :: inDeg[x] == Pending(edges, x, done)
    }

    static ghost predicate SourcesFirst(edges: seq<Edge<Id>>, order: seq<Id>) {
      forall j | 0 <= j < |order| :: AllSourcesIn(edges, order[j], order[..j])
    }

    static lemma FrontierAdvance(order: seq<Id>, queue: seq<Id>, inDeg: map<Id, int>)
      requires Frontier(order, queue, inDeg) && queue != []
      ensures Frontier(order + [queue[0]], queue[1..], inDeg)
      ensures queue[0] !in order && queue[0] in inDeg && inDeg[queue[0]] == 0
    {
      var all := order + queue;
      assert order + [queue[0]] + queue[1..] == all;
      assert all[|order|] == queue[0];
      assert forall i | 0 <= i < |order| :: all[i] == order[i];
    }

    static lemma FrontierDecrement(order: seq<Id>, queue: seq<Id>, inDeg: map<Id, int>, x: Id)
      requires Frontier(order, queue, inDeg)
      requires x in inDeg && inDeg[x] > 0
      ensures var d := inDeg[x := inDeg[x] - 1];
              Frontier(order, if d[x] == 0 then queue + [x] else queue, d)
    {
      assert x !in order + queue;
      if inDeg[x] == 1 {
        NoDupSnoc(order + queue, x);
        assert order + (queue + [x]) == (order + queue) + [x];
      }
    }

    static lemma SourcesFirstSnoc(edges: seq<Edge<Id>>, order: seq<Id>, x: Id)
      requires SourcesFirst(edges, order)
      requires forall e | e in edges && e.target == x :: e.source in ToSet(order)
      ensures SourcesFirst(edges, order + [x])
    {
      var longer := order + [x];
      forall j | 0 <= j < |longer|
        ensures AllSourcesIn(edges, longer[j], longer[..j])
      {
        assert longer[..j] == order[..j];
        if j == |order| {
          assert order[..j] == order;
        } else {
          assert AllSourcesIn(edges, order[j], order[..j]);
        }
      }
    }

    static lemma CountsRetire(edges: seq<Edge<Id>>, inDeg: map<Id, int>, order: seq<Id>, nid: Id)
      requires Counts(edges, inDeg, ToSet(order)) && nid !in order
      ensures forall x | x in inDeg ::
                inDeg[x] == Pending(edges, x, ToSet(order) + {nid}) + multiset(Targets(edges, nid))[x]
    {
      forall x | x in inDeg
        ensures inDeg[x] == Pending(edges, x, ToSet(order) + {nid}) + multiset(Targets(edges, nid))[x]
      {
        PendingAfter(edges, x, ToSet(order), nid);
      }
    }

    static lemma CountsReduced(edges: seq<Edge<Id>>, inDeg0: map<Id, int>, inDeg: map<Id, int>, nid: Id, done: set<Id>)
      requires Reduced(inDeg, inDeg0, Targets(edges, nid))
      requires forall x | x in inDeg0 :: inDeg0[x] == Pending(edges, x, done) + multiset(Targets(edges, nid))[x]
      ensures Counts(edges, inDeg, done)
    {
    }

    static lemma OrderFits(order: seq<Id>, queue: seq<Id>, inDeg: map<Id, int>)
      requires Frontier(order, queue, inDeg)
      ensures |order| <= |inDeg|
    {
      forall x | x in order
        ensures x in inDeg.Keys
      {
        assert x in order + queue;
      }
      assert forall i | 0 <= i < |order| :: (order + queue)[i] == order[i];
      NoDupBound(order, inDeg.Keys);
    }

    static lemma KahnDone(g: Digraph<Id>, order: seq<Id>, inDeg: map<Id, int>)
      requires forall x :: x in inDeg <==> Scheduled(g, x)
      requires Counts(g.edges, inDeg, ToSet(order))
      requires Frontier(order, [], inDeg)
      requires SourcesFirst(g.edges, order)
      ensures KahnOrder(g, order)
    {
      assert order + [] == order;
      forall x
        ensures x in order <==> Scheduled(g, x) && AllSourcesIn(g.edges, x, order)
      {
        PendingZero(g.edges, x, ToSet(order));
      }
    }

    /** Emitting a node: each successor loses one unit per edge and joins the queue at zero. */
    static method Release(succs: seq<Id>, ghost order: seq<Id>, inDeg0: map<Id, int>, queue0: seq<Id>)
      returns (inDeg: map<Id, int>, queue: seq<Id>)
      requires Frontier(order, queue0, inDeg0)
      requires forall x | x in succs :: x in inDeg0
      requires forall x | x in inDeg0 :: inDeg0[x] >= multiset(succs)[x]
      ensures Reduced(inDeg, inDeg0, succs)
      ensures Frontier(order, queue, inDeg)
    {
      inDeg, queue := inDeg0, queue0;
      var k := 0;
      while k < |succs|
        invariant k <= |succs|
        invariant Reduced(inDeg, inDeg0, succs[..k])
        invariant Frontier(order, queue, inDeg)
      {
        var succ := succs[k];
        ReducedStep(inDeg, inDeg0, succs, k);
        FrontierDecrement(order, queue, inDeg, succ);
        inDeg := inDeg[succ := inDeg[succ] - 1];
        if inDeg[succ] == 0 {
          queue := queue + [succ];
        }
        k := k + 1;
      }
      assert succs[..|succs|] == succs;
    }

    /** inDeg is inDeg0 less one unit for each occurrence in s. */
    static ghost predicate Reduced(inDeg: map<Id, int>, inDeg0: map<Id, int>, s: seq<Id>) {
      && inDeg.Keys == inDeg0.Keys
      && (forall x | x in inDeg :: inDeg[x] == inDeg0[x] - multiset(s)[x])
    }

    static lemma ReducedStep(inDeg: map<Id, int>, inDeg0: map<Id, int>, s: seq<Id>, k: nat)
      requires k < |s| && Reduced(inDeg, inDeg0, s[..k])
      requires s[k] in inDeg0 && inDeg0[s[k]] >= multiset(s)[s[k]]
      ensures inDeg[s[k]] > 0
      ensures Reduced(inDeg[s[k] := inDeg[s[k]] - 1], inDeg0, s[..k + 1])
    {
      assert s == s[..k] + ([s[k]] + s[k + 1..]);
      assert s[..k + 1] == s[..k] + [s[k]];
    }

    lemma SuccessorsAreScheduled(bp: Blueprint<Id>, nid: Id)
      requires Represents(bp)
      ensures forall x | x in Targets(bp.edges, nid) :: x in inDegree
    {
      TargetsAreEdges(bp.edges, nid);
      forall x | x in Targets(bp.edges, nid)
        ensures x in inDegree
      {
        var e := Edge(nid, x);
        assert e in bp.edges && e.target == x;
      }
    }

    static function ZeroDegree(ids: seq<Id>, inDeg: map<Id, int>): seq<Id>
      requires forall x | x in ids :: x in inDeg
    {
      if ids == [] then []
      else
        var init, last := ids[..|ids| - 1], ids[|ids| - 1];
        ZeroDegree(init, inDeg) + (if inDeg[last] == 0 then [last] else [])
    }

    static lemma {:induction false} ZeroDegreeMeaning(ids: seq<Id>, inDeg: map<Id, int>)
      requires forall x | x in ids :: x in inDeg
      requires NoDup(ids)
      ensures NoDup(ZeroDegree(ids, inDeg))
      ensures forall x :: x in ZeroDegree(ids, inDeg) <==> x in ids && inDeg[x] == 0
    {
      if ids != [] {
        ZeroDegreeMeaning(ids[..|ids| - 1], inDeg);
        assert ids == ids[..|ids| - 1] + [ids[|ids| - 1]];
      }
    }
  }
}
