/** Walks, cycles and execution orders of a directed graph given by declared ids and edges. */
module Digraphs {
  import opened Sequences

  datatype Edge<T> = Edge(source: T, target: T)

  /** ids lists the declared nodes; an edge may name others. */
  datatype Digraph<T> = Digraph(ids: seq<T>, edges: seq<Edge<T>>)

  /** Every edge endpoint is a declared node. Building a graph does not check this. */
  predicate Closed<T(==)>(g: Digraph<T>) {
    forall e | e in g.edges :: e.source in g.ids && e.target in g.ids
  }

  // ----- Adjacency lists and in-degrees -----

  /** The targets of the edges leaving x, in edge order, with multiplicity. */
  function Targets<T(==)>(edges: seq<Edge<T>>, x: T): seq<T> {
    if edges == [] then []
    else
      var init, last := edges[..|edges| - 1], edges[|edges| - 1];
      Targets(init, x) + (if last.source == x then [last.target] else [])
  }

  lemma {:induction false} TargetsAreEdges<T>(edges: seq<Edge<T>>, x: T)
    ensures forall y :: y in Targets(edges, x) <==> Edge(x, y) in edges
  {
    if edges != [] {
      TargetsAreEdges(edges[..|edges| - 1], x);
      assert edges == edges[..|edges| - 1] + [edges[|edges| - 1]];
    }
  }

  /** How many edges into x leave a node outside done. */
  function Pending<T(==)>(edges: seq<Edge<T>>, x: T, done: set<T>): nat {
    if edges == [] then 0
    else
      var init, last := edges[..|edges| - 1], edges[|edges| - 1];
      Pending(init, x, done) + (if last.target == x && last.source !in done then 1 else 0)
  }

  lemma {:induction false} PendingZero<T>(edges: seq<Edge<T>>, x: T, done: set<T>)
    ensures Pending(edges, x, done) == 0 <==>
            forall e | e in edges && e.target == x :: e.source in done
  {
    if edges != [] {
      PendingZero(edges[..|edges| - 1], x, done);
      assert edges == edges[..|edges| - 1] + [edges[|edges| - 1]];
    }
  }

  lemma EdgeSnoc<T>(edges: seq<Edge<T>>, e: Edge<T>, x: T, done: set<T>)
    ensures Targets(edges + [e], x) == Targets(edges, x) + (if e.source == x then [e.target] else [])
    ensures Pending(edges + [e], x, done)
         == Pending(edges, x, done) + (if e.target == x && e.source !in done then 1 else 0)
  {
    assert (edges + [e])[..|edges|] == edges;
  }

  /** Finishing n retires exactly the edges from n. */
  lemma {:induction false} PendingAfter<T>(edges: seq<Edge<T>>, x: T, done: set<T>, n: T)
    requires n !in done
    ensures Pending(edges, x, done) == Pending(edges, x, done + {n}) + multiset(Targets(edges, n))[x]
  {
    if edges != [] {
      PendingAfter(edges[..|edges| - 1], x, done, n);
    }
  }

  // ----- Walks and cycles -----

  ghost predicate IsWalk<T>(edges: seq<Edge<T>>, w: seq<T>) {
    w != [] && forall i | 0 <= i < |w| - 1 :: Edge(w[i], w[i + 1]) in edges
  }

  ghost predicate IsCycle<T>(edges: seq<Edge<T>>, c: seq<T>) {
    |c| >= 2 && IsWalk(edges, c) && c[0] == c[|c| - 1]
  }

  /** Some walk from a declared node meets a node twice. */
  ghost predicate CycleReachable<T(!new)>(g: Digraph<T>) {
    exists w :: IsWalk(g.edges, w) && w[0] in g.ids && !NoDup(w)
  }

  lemma WalkSlice<T>(edges: seq<Edge<T>>, w: seq<T>, i: nat, j: nat)
    requires IsWalk(edges, w) && i < j <= |w|
    ensures IsWalk(edges, w[i..j])
  {
    forall k | 0 <= k < j - i - 1
      ensures Edge(w[i..j][k], w[i..j][k + 1]) in edges
    {
      assert Edge(w[i + k], w[i + k + 1]) in edges;
    }
  }

  lemma WalkJoin<T>(edges: seq<Edge<T>>, w: seq<T>, c: seq<T>)
    requires IsWalk(edges, w) && IsWalk(edges, c) && w[|w| - 1] == c[0]
    ensures IsWalk(edges, w + c[1..])
  {
    var u := w + c[1..];
    forall k | 0 <= k < |u| - 1
      ensures Edge(u[k], u[k + 1]) in edges
    {
      if k < |w| - 1 {
        assert Edge(w[k], w[k + 1]) in edges;
      } else {
        var m := k - (|w| - 1);
        assert u[k] == c[m] && u[k + 1] == c[m + 1];
        assert Edge(c[m], c[m + 1]) in edges;
      }
    }
  }

  lemma WalkPrepend<T>(edges: seq<Edge<T>>, y: T, w: seq<T>)
    requires IsWalk(edges, w) && Edge(y, w[0]) in edges
    ensures IsWalk(edges, [y] + w)
  {
    WalkJoin(edges, [y, w[0]], w);
    assert [y, w[0]] + w[1..] == [y] + w;
  }

  /** A closed walk hangs off a declared node. */
  ghost predicate Lasso<T>(g: Digraph<T>, w: seq<T>, c: seq<T>) {
    && IsWalk(g.edges, w) && w[0] in g.ids
    && IsCycle(g.edges, c) && w[|w| - 1] == c[0]
  }

  /** A cycle is reachable in the sense above exactly when some walk from a declared node
      leads onto a closed walk. */
  lemma CycleReachableMeaning<T(!new)>(g: Digraph<T>)
    ensures CycleReachable(g) <==> exists w, c :: Lasso(g, w, c)
  {
    if CycleReachable(g) {
      var w :| IsWalk(g.edges, w) && w[0] in g.ids && !NoDup(w);
      var i, j :| 0 <= i < j < |w| && w[i] == w[j];
      WalkSlice(g.edges, w, 0, i + 1);
      WalkSlice(g.edges, w, i, j + 1);
      assert Lasso(g, w[0..i + 1], w[i..j + 1]);
    }
    if exists w, c :: Lasso(g, w, c) {
      var w, c :| Lasso(g, w, c);
      WalkJoin(g.edges, w, c);
      var u := w + c[1..];
      assert u[|w| - 1] == u[|u| - 1];
      assert !NoDup(u);
    }
  }

  /** A numbering in which every node's successors come earlier rules cycles out. */
  ghost predicate FinishOrder<T>(edges: seq<Edge<T>>, finish: seq<T>) {
    && NoDup(finish)
    && forall i, e | 0 <= i < |finish| && e in edges && e.source == finish[i] :: e.target in finish[..i]
  }

  lemma FinishSnoc<T>(edges: seq<Edge<T>>, finish: seq<T>, x: T)
    requires FinishOrder(edges, finish) && x !in finish
    requires forall e | e in edges && e.source == x :: e.target in finish
    ensures FinishOrder(edges, finish + [x])
  {
    var longer := finish + [x];
    forall i, e | 0 <= i < |longer| && e in edges && e.source == longer[i]
      ensures e.target in longer[..i]
    {
      if i == |finish| {
        assert longer[..i] == finish;
      } else {
        assert longer[..i] == finish[..i];
      }
    }
  }

  lemma {:induction false} FinishedWalksDescend<T>(edges: seq<Edge<T>>, finish: seq<T>, w: seq<T>, k: nat)
    requires FinishOrder(edges, finish) && IsWalk(edges, w)
    requires k < |finish| && w[0] == finish[k]
    ensures NoDup(w)
    ensures forall x | x in w :: x in finish[..k + 1]
    decreases |w|
  {
    if |w| > 1 {
      assert Edge(w[0], w[1]) in edges;
      var m :| 0 <= m < k && finish[m] == w[1];
      WalkSlice(edges, w, 1, |w|);
      FinishedWalksDescend(edges, finish, w[1..], m);
      assert forall x | x in w[1..] :: x in finish[..m + 1];
      assert w == [w[0]] + w[1..];
      assert w[0] !in finish[..m + 1];
      assert forall j | 1 <= j < |w| :: w[j] in w[1..];
    }
  }

  lemma FinishOrderExcludesCycles<T(!new)>(g: Digraph<T>, finish: seq<T>)
    requires FinishOrder(g.edges, finish)
    requires forall x | x in g.ids :: x in finish
    ensures !CycleReachable(g)
  {
    forall w | IsWalk(g.edges, w) && w[0] in g.ids
      ensures NoDup(w)
    {
      var k :| 0 <= k < |finish| && finish[k] == w[0];
      FinishedWalksDescend(g.edges, finish, w, k);
    }
  }

  // ----- Execution orders -----

  ghost predicate Precedes<T>(order: seq<T>, a: T, b: T) {
    exists i, j :: 0 <= i < j < |order| && order[i] == a && order[j] == b
  }

  /** Every declared node once, nothing else, sources before targets. */
  ghost predicate IsTopoOrder<T(!new)>(g: Digraph<T>, order: seq<T>) {
    && NoDup(order)
    && (forall x :: x in order <==> x in g.ids)
    && (forall e | e in g.edges :: Precedes(order, e.source, e.target))
  }

  lemma PrecedesTransitive<T>(order: seq<T>, a: T, b: T, c: T)
    requires NoDup(order) && Precedes(order, a, b) && Precedes(order, b, c)
    ensures Precedes(order, a, c)
  {
    var i, j :| 0 <= i < j < |order| && order[i] == a && order[j] == b;
    var k, l :| 0 <= k < l < |order| && order[k] == b && order[l] == c;
    assert j == k;
  }

  /** A walk of at least one edge leads from a to b. */
  ghost predicate Reaches<T(!new)>(edges: seq<Edge<T>>, a: T, b: T) {
    exists w :: IsWalk(edges, w) && |w| >= 2 && w[0] == a && w[|w| - 1] == b
  }

  lemma {:induction false} WalkIsOrdered<T(!new)>(g: Digraph<T>, order: seq<T>, w: seq<T>)
    requires IsTopoOrder(g, order) && IsWalk(g.edges, w) && |w| >= 2
    ensures Precedes(order, w[0], w[|w| - 1])
    decreases |w|
  {
    assert Edge(w[0], w[1]) in g.edges;
    assert Precedes(order, w[0], w[1]);
    if |w| > 2 {
      WalkSlice(g.edges, w, 1, |w|);
      WalkIsOrdered(g, order, w[1..]);
      PrecedesTransitive(order, w[0], w[1], w[|w| - 1]);
    }
  }

  /** In an execution order a node comes after all that reach it. */
  lemma ReachedLater<T(!new)>(g: Digraph<T>, order: seq<T>, a: T, b: T)
    requires IsTopoOrder(g, order) && Reaches(g.edges, a, b)
    ensures Precedes(order, a, b)
  {
    var w :| IsWalk(g.edges, w) && |w| >= 2 && w[0] == a && w[|w| - 1] == b;
    WalkIsOrdered(g, order, w);
  }

  lemma ReachesFrom<T(!new)>(edges: seq<Edge<T>>, x: T, y: T, n: T)
    requires Edge(x, y) in edges && (y == n || Reaches(edges, y, n))
    ensures Reaches(edges, x, n)
  {
    if y == n {
      assert IsWalk(edges, [x, y]);
    } else {
      var w :| IsWalk(edges, w) && |w| >= 2 && w[0] == y && w[|w| - 1] == n;
      WalkPrepend(edges, x, w);
      assert ([x] + w)[|w|] == n;
    }
  }

  // ----- Rearranging an execution order -----

  /** The elements of s that are in keep, in their order. */
  ghost function Only<T>(s: seq<T>, keep: set<T>): seq<T> {
    if s == [] then []
    else
      var init, last := s[..|s| - 1], s[|s| - 1];
      Only(init, keep) + (if last in keep then [last] else [])
  }

  lemma {:induction false} OnlyElements<T>(s: seq<T>, keep: set<T>)
    ensures forall x :: x in Only(s, keep) <==> x in s && x in keep
    ensures NoDup(s) ==> NoDup(Only(s, keep))
  {
    if s != [] {
      OnlyElements(s[..|s| - 1], keep);
      assert s == s[..|s| - 1] + [s[|s| - 1]];
    }
  }

  lemma {:induction false} OnlyKeepsOrder<T>(s: seq<T>, keep: set<T>, a: T, b: T)
    requires Precedes(s, a, b) && a in keep && b in keep
    ensures Precedes(Only(s, keep), a, b)
  {
    var i, j :| 0 <= i < j < |s| && s[i] == a && s[j] == b;
    var init, last := s[..|s| - 1], s[|s| - 1];
    if j < |s| - 1 {
      assert init[i] == a && init[j] == b;
      OnlyKeepsOrder(init, keep, a, b);
      PrecedesInSum(Only(init, keep), if last in keep then [last] else [], a, b);
    } else {
      OnlyElements(init, keep);
      assert init[i] == a;
      PrecedesAcross(Only(init, keep), [last], a, b);
    }
  }

  lemma PrecedesInSum<T>(s: seq<T>, r: seq<T>, a: T, b: T)
    requires Precedes(s, a, b) || Precedes(r, a, b)
    ensures Precedes(s + r, a, b)
  {
    if Precedes(s, a, b) {
      var i, j :| 0 <= i < j < |s| && s[i] == a && s[j] == b;
      assert (s + r)[i] == a && (s + r)[j] == b;
    } else {
      var i, j :| 0 <= i < j < |r| && r[i] == a && r[j] == b;
      assert (s + r)[|s| + i] == a && (s + r)[|s| + j] == b;
    }
  }

  lemma PrecedesAcross<T>(s: seq<T>, r: seq<T>, a: T, b: T)
    requires a in s && b in r
    ensures Precedes(s + r, a, b)
  {
    var i, j :| 0 <= i < |s| && s[i] == a && 0 <= j < |r| && r[j] == b;
    assert (s + r)[i] == a && (s + r)[|s| + j] == b;
  }

  /** Moving a set of nodes that is closed under predecessors to the front keeps an execution order. */
  lemma MoveToFront<T(!new)>(g: Digraph<T>, order: seq<T>, front: set<T>, back: set<T>)
    requires IsTopoOrder(g, order) && front !! back && front + back == ToSet(order)
    requires forall e | e in g.edges && e.target in front :: e.source in front
    ensures IsTopoOrder(g, Only(order, front) + Only(order, back))
  {
    var a, b := Only(order, front), Only(order, back);
    OnlyElements(order, front);
    OnlyElements(order, back);
    JoinDistinct(a, b);
    forall x
      ensures x in a + b <==> x in g.ids
    {
      assert x in order <==> x in ToSet(order);
    }
    forall e | e in g.edges
      ensures Precedes(a + b, e.source, e.target)
    {
      EdgeStaysOrdered(g, order, front, back, e);
    }
  }

  lemma JoinDistinct<T>(a: seq<T>, b: seq<T>)
    requires NoDup(a) && NoDup(b) && forall x | x in a :: x !in b
    ensures NoDup(a + b)
  {
    forall i, j | 0 <= i < j < |a + b|
      ensures (a + b)[i] != (a + b)[j]
    {
      if i < |a| <= j {
        assert a[i] in a && b[j - |a|] in b;
      }
    }
  }

  lemma EdgeStaysOrdered<T(!new)>(g: Digraph<T>, order: seq<T>, front: set<T>, back: set<T>, e: Edge<T>)
    requires IsTopoOrder(g, order) && front !! back && front + back == ToSet(order)
    requires e in g.edges && (e.target in front ==> e.source in front)
    ensures Precedes(Only(order, front) + Only(order, back), e.source, e.target)
  {
    var a, b := Only(order, front), Only(order, back);
    assert Precedes(order, e.source, e.target);
    assert e.source in ToSet(order) && e.target in ToSet(order);
    OnlyElements(order, front);
    OnlyElements(order, back);
    if e.target in front {
      OnlyKeepsOrder(order, front, e.source, e.target);
      PrecedesInSum(a, b, e.source, e.target);
    } else if e.source in back {
      OnlyKeepsOrder(order, back, e.source, e.target);
      PrecedesInSum(a, b, e.source, e.target);
    } else {
      PrecedesAcross(a, b, e.source, e.target);
    }
  }

  /** Where no walk leads from k to n, some execution order puts n before k. */
  lemma CanComeFirst<T(!new)>(g: Digraph<T>, order: seq<T>, n: T, k: T) returns (other: seq<T>)
    requires IsTopoOrder(g, order) && n in g.ids && k in g.ids && n != k && !Reaches(g.edges, k, n)
    ensures IsTopoOrder(g, other) && Precedes(other, n, k)
  {
    var front := set x | x in ToSet(order) && (x == n || Reaches(g.edges, x, n));
    var back := ToSet(order) - front;
    forall e | e in g.edges && e.target in front
      ensures e.source in front
    {
      ReachesFrom(g.edges, e.source, e.target, n);
      assert Precedes(order, e.source, e.target);
    }
    MoveToFront(g, order, front, back);
    OnlyElements(order, front);
    OnlyElements(order, back);
    PrecedesAcross(Only(order, front), Only(order, back), n, k);
    other := Only(order, front) + Only(order, back);
  }

  /** The keys of the in-degree table: declared nodes and edge targets. */
  ghost predicate Scheduled<T>(g: Digraph<T>, x: T) {
    x in g.ids || exists e :: e in g.edges && e.target == x
  }

  ghost predicate AllSourcesIn<T>(edges: seq<Edge<T>>, x: T, s: seq<T>) {
    forall e | e in edges && e.target == x :: e.source in s
  }

  /** What Kahn's loop emits on any graph at all: among the scheduled nodes, exactly those
      all of whose predecessors were emitted, and each after its predecessors. */
  ghost predicate KahnOrder<T(!new)>(g: Digraph<T>, order: seq<T>) {
    && NoDup(order)
    && (forall x :: x in order <==> Scheduled(g, x) && AllSourcesIn(g.edges, x, order))
    && (forall j | 0 <= j < |order| :: AllSourcesIn(g.edges, order[j], order[..j]))
  }

  lemma KahnOrderAt<T(!new)>(g: Digraph<T>, order: seq<T>, i: nat)
    requires KahnOrder(g, order) && i < |order|
    ensures Scheduled(g, order[i]) && AllSourcesIn(g.edges, order[i], order[..i])
  {
    assert order[i] in order;
  }

  lemma KahnOrderTakes<T(!new)>(g: Digraph<T>, order: seq<T>, x: T, sources: seq<T>)
    requires KahnOrder(g, order) && Scheduled(g, x) && AllSourcesIn(g.edges, x, sources)
    requires forall y | y in sources :: y in order
    ensures x in order
  {
    assert AllSourcesIn(g.edges, x, order);
  }

  lemma {:induction false} EmittedByBoth<T(!new)>(g: Digraph<T>, a: seq<T>, b: seq<T>, n: nat)
    requires KahnOrder(g, a) && KahnOrder(g, b) && n <= |a|
    ensures forall i | 0 <= i < n :: a[i] in b
  {
    if n > 0 {
      EmittedByBoth(g, a, b, n - 1);
      KahnOrderAt(g, a, n - 1);
      KahnOrderTakes(g, b, a[n - 1], a[..n - 1]);
    }
  }

  /** Which nodes the loop emits does not depend on its choices. */
  lemma SameNodesEmitted<T(!new)>(g: Digraph<T>, a: seq<T>, b: seq<T>)
    requires KahnOrder(g, a) && KahnOrder(g, b)
    ensures ToSet(a) == ToSet(b) && |a| == |b|
  {
    EmittedByBoth(g, a, b, |a|);
    EmittedByBoth(g, b, a, |b|);
    NoDupCardinality(a);
    NoDupCardinality(b);
  }

  // ----- Which nodes are emitted -----

  /** A walk that no emission order can follow: it meets a node twice, or starts at a node that is
      neither declared nor a target. */
  ghost predicate Blocked<T(!new)>(g: Digraph<T>, w: seq<T>) {
    IsWalk(g.edges, w) && (!NoDup(w) || !Scheduled(g, w[0]))
  }

  /** Such a walk leads to x. */
  ghost predicate HeldUp<T(!new)>(g: Digraph<T>, x: T) {
    exists w :: Blocked(g, w) && w[|w| - 1] == x
  }

  /** A walk to an emitted node was emitted before it, node by node. */
  lemma {:induction false} EmittedWalk<T(!new)>(g: Digraph<T>, order: seq<T>, w: seq<T>, k: nat)
    requires KahnOrder(g, order) && IsWalk(g.edges, w) && k < |order| && w[|w| - 1] == order[k]
    ensures NoDup(w) && forall x | x in w :: x in order[..k + 1]
    decreases |w|
  {
    var n := |w| - 1;
    if n > 0 {
      WalkSlice(g.edges, w, 0, n);
      var j := EmittedSource(g, order, k, Edge(w[n - 1], w[n]));
      EmittedWalk(g, order, w[..n], j);
      OneLater(order, w[..n], j, k);
      assert w == w[..n] + [order[k]];
    }
  }

  /** The source of an edge to an emitted node was emitted before. */
  lemma EmittedSource<T(!new)>(g: Digraph<T>, order: seq<T>, k: nat, e: Edge<T>) returns (j: nat)
    requires KahnOrder(g, order) && k < |order| && e in g.edges && e.target == order[k]
    ensures j < k && order[j] == e.source
  {
    KahnOrderAt(g, order, k);
    j :| 0 <= j < k && order[j] == e.source;
  }

  lemma OneLater<T>(order: seq<T>, s: seq<T>, j: nat, k: nat)
    requires NoDup(order) && j < k < |order| && NoDup(s) && forall x | x in s :: x in order[..j + 1]
    ensures NoDup(s + [order[k]]) && forall x | x in s + [order[k]] :: x in order[..k + 1]
  {
    var longer := order[..k + 1];
    forall x | x in s
      ensures x in longer && x != order[k]
    {
      var i :| 0 <= i <= j && order[i] == x;
      assert longer[i] == x;
    }
    assert longer[k] == order[k];
    NoDupSnoc(s, order[k]);
  }

  lemma EmittedIsFree<T(!new)>(g: Digraph<T>, order: seq<T>, x: T)
    requires KahnOrder(g, order) && x in order
    ensures Scheduled(g, x) && !HeldUp(g, x)
  {
    var k :| 0 <= k < |order| && order[k] == x;
    forall w | IsWalk(g.edges, w) && w[|w| - 1] == x
      ensures !Blocked(g, w)
    {
      EmittedWalk(g, order, w, k);
      assert w[0] in w && w[0] in order[..k + 1];
      assert w[0] in order;
    }
  }

  /** All nodes there are. */
  ghost function Nodes<T>(g: Digraph<T>): set<T> {
    ToSet(g.ids) + (set e | e in g.edges :: e.source) + (set e | e in g.edges :: e.target)
  }

  /** Stepping back from a node that is not emitted ends at a node that is not scheduled or meets a
      node twice. */
  lemma {:induction false} RetreatIsBlocked<T(!new)>(g: Digraph<T>, order: seq<T>, w: seq<T>) returns (longer: seq<T>)
    requires KahnOrder(g, order) && IsWalk(g.edges, w) && ToSet(w) <= Nodes(g) && w[0] !in order
    ensures Blocked(g, longer) && longer[|longer| - 1] == w[|w| - 1]
    decreases |Nodes(g)| - |w|
  {
    if !NoDup(w) || !Scheduled(g, w[0]) {
      longer := w;
    } else {
      var e :| e in g.edges && e.target == w[0] && e.source !in order;
      WalkPrepend(g.edges, e.source, w);
      longer := [e.source] + w;
      assert ToSet(longer) == {e.source} + ToSet(w);
      if NoDup(longer) {
        assert forall x | x in longer :: x in ToSet(longer);
        NoDupBound(longer, Nodes(g));
        longer := RetreatIsBlocked(g, order, longer);
      }
    }
  }

  /** The loop emits exactly the scheduled nodes that nothing holds up, on any graph. */
  lemma EmittedIff<T(!new)>(g: Digraph<T>, order: seq<T>, x: T)
    requires KahnOrder(g, order)
    ensures x in order <==> Scheduled(g, x) && !HeldUp(g, x)
  {
    if x in order {
      EmittedIsFree(g, order, x);
    } else if Scheduled(g, x) {
      assert ToSet([x]) == {x} && x in Nodes(g);
      var w := RetreatIsBlocked(g, order, [x]);
    }
  }

  /** The declared nodes that are held up. */
  ghost function HeldNodes<T(!new)>(g: Digraph<T>): set<T> {
    set x | x in ToSet(g.ids) && HeldUp(g, x)
  }

  /** The undeclared targets that are not. */
  ghost function StrayTargets<T(!new)>(g: Digraph<T>): set<T> {
    set e | e in g.edges && e.target !in g.ids && !HeldUp(g, e.target) :: e.target
  }

  /** As many nodes are emitted as are declared exactly if as many declared ones are held up as
      undeclared ones are emitted. */
  lemma LengthsMatchIff<T(!new)>(g: Digraph<T>, order: seq<T>)
    requires KahnOrder(g, order)
    ensures |order| == |ToSet(g.ids)| <==> |HeldNodes(g)| == |StrayTargets(g)|
  {
    var emitted, declared := ToSet(order), ToSet(g.ids);
    forall x
      ensures x in emitted <==> Scheduled(g, x) && !HeldUp(g, x)
    {
      EmittedIff(g, order, x);
    }
    assert declared - emitted == HeldNodes(g);
    forall x
      ensures x in emitted - declared <==> x in StrayTargets(g)
    {
      if x in emitted - declared {
        var e :| e in g.edges && e.target == x;
      }
    }
    assert emitted - declared == StrayTargets(g);
    NoDupCardinality(order);
    assert emitted == (emitted * declared) + (emitted - declared);
    assert declared == (emitted * declared) + (declared - emitted);
  }

  /** With declared sources, and without reachable cycles, only a dangling target is noticed. */
  lemma DanglingTargets<T(!new)>(g: Digraph<T>)
    requires !CycleReachable(g) && forall e | e in g.edges :: e.source in g.ids
    ensures |HeldNodes(g)| == |StrayTargets(g)| <==> Closed(g)
  {
    forall w | IsWalk(g.edges, w) && Scheduled(g, w[|w| - 1])
      ensures !Blocked(g, w)
    {
      if |w| > 1 {
        assert Edge(w[0], w[1]) in g.edges;
      }
    }
    assert HeldNodes(g) == {};
    forall e | e in g.edges && e.target !in g.ids
      ensures e.target in StrayTargets(g)
    {
      assert Scheduled(g, e.target);
    }
    if Closed(g) {
      assert StrayTargets(g) == {};
    }
  }

  /** With declared targets, only a dangling source is. */
  lemma DanglingSources<T(!new)>(g: Digraph<T>)
    requires !CycleReachable(g) && forall e | e in g.edges :: e.target in g.ids
    ensures |HeldNodes(g)| == |StrayTargets(g)| <==> Closed(g)
  {
    assert StrayTargets(g) == {};
    if Closed(g) {
      DanglingTargets(g);
    } else {
      var e :| e in g.edges && e.source !in g.ids;
      assert Blocked(g, [e.source, e.target]) by {
        assert Edge(e.source, e.target) == e;
      }
      assert e.target in HeldNodes(g);
    }
  }

  /** A stranded node has a stranded predecessor. */
  lemma StrandedPredecessor<T(!new)>(g: Digraph<T>, order: seq<T>, x: T) returns (y: T)
    requires Closed(g) && KahnOrder(g, order)
    requires x in g.ids && x !in order
    ensures y in g.ids && y !in order && Edge(y, x) in g.edges
  {
    assert Scheduled(g, x);
    var e :| e in g.edges && e.target == x && e.source !in order;
    y := e.source;
    assert e == Edge(y, x);
  }

  /** Stepping back from a stranded node never ends, but a walk that meets no node twice is
      no longer than the set of declared nodes: so no node is stranded. */
  lemma {:induction false} NoEndlessRetreat<T(!new)>(g: Digraph<T>, order: seq<T>, w: seq<T>)
    requires Closed(g) && !CycleReachable(g)
    requires KahnOrder(g, order)
    requires IsWalk(g.edges, w) && ToSet(w) <= ToSet(g.ids) && w[0] !in order
    ensures false
    decreases |ToSet(g.ids)| - |w|
  {
    assert w[0] in ToSet(w);
    var y := StrandedPredecessor(g, order, w[0]);
    WalkPrepend(g.edges, y, w);
    var longer := [y] + w;
    assert ToSet(longer) == {y} + ToSet(w);
    assert NoDup(longer);
    assert forall x | x in longer :: x in ToSet(longer);
    NoDupBound(longer, ToSet(g.ids));
    NoEndlessRetreat(g, order, longer);
  }

  /** On a closed graph without cycles Kahn's loop cannot strand a node. */
  lemma KahnIsTotal<T(!new)>(g: Digraph<T>, order: seq<T>)
    requires Closed(g) && !CycleReachable(g)
    requires KahnOrder(g, order)
    ensures IsTopoOrder(g, order)
  {
    forall x | x in g.ids
      ensures x in order
    {
      if x !in order {
        assert ToSet([x]) == {x};
        NoEndlessRetreat(g, order, [x]);
      }
    }
    forall x | x in order
      ensures x in g.ids
    {
      assert Scheduled(g, x);
    }
    forall e | e in g.edges
      ensures Precedes(order, e.source, e.target)
    {
      var j :| 0 <= j < |order| && order[j] == e.target;
      assert AllSourcesIn(g.edges, order[j], order[..j]);
      var i :| 0 <= i < j && order[i] == e.source;
    }
  }

  /** What Kahn's loop has emitted at any time. */
  ghost predicate KahnSoFar<T(!new)>(g: Digraph<T>, order: seq<T>) {
    && NoDup(order)
    && (forall x | x in order :: Scheduled(g, x) && AllSourcesIn(g.edges, x, order))
    && (forall j | 0 <= j < |order| :: AllSourcesIn(g.edges, order[j], order[..j]))
  }

  lemma KahnSoFarSnoc<T(!new)>(g: Digraph<T>, order: seq<T>, x: T)
    requires KahnSoFar(g, order) && Scheduled(g, x) && AllSourcesIn(g.edges, x, order) && x !in order
    ensures KahnSoFar(g, order + [x])
  {
    var longer := order + [x];
    NoDupSnoc(order, x);
    forall j | 0 <= j < |longer|
      ensures AllSourcesIn(g.edges, longer[j], longer[..j])
    {
      assert longer[..j] == if j < |order| then order[..j] else order;
    }
  }

  /** On a closed graph without cycles what has been emitted can be completed. */
  lemma {:induction false} CompleteOrder<T(!new)>(g: Digraph<T>, order: seq<T>) returns (whole: seq<T>)
    requires Closed(g) && !CycleReachable(g) && KahnSoFar(g, order)
    ensures IsTopoOrder(g, whole)
    decreases |ToSet(g.ids)| - |order|
  {
    forall x | x in order
      ensures x in ToSet(g.ids)
    {
      assert Scheduled(g, x);
    }
    NoDupBound(order, ToSet(g.ids));
    if x :| x in g.ids && AllSourcesIn(g.edges, x, order) && x !in order {
      KahnSoFarSnoc(g, order, x);
      NoDupBound(order + [x], ToSet(g.ids));
      whole := CompleteOrder(g, order + [x]);
    } else {
      assert KahnOrder(g, order);
      KahnIsTotal(g, order);
      whole := order;
    }
  }

  /** What the length check decides after the loop has emitted order. */
  lemma SortOutcome<T(!new)>(g: Digraph<T>, order: seq<T>)
    requires !CycleReachable(g) && KahnOrder(g, order)
    ensures |order| == |ToSet(g.ids)| <==> |HeldNodes(g)| == |StrayTargets(g)|
    ensures Closed(g) ==> |order| == |ToSet(g.ids)| && IsTopoOrder(g, order)
  {
    LengthsMatchIff(g, order);
    if Closed(g) {
      KahnIsTotal(g, order);
      NoDupCardinality(order);
      assert ToSet(order) == ToSet(g.ids);
    }
  }

  /** An order emitted on a graph without reachable cycles respects every edge and holds
      exactly the declared nodes if and only if the graph is closed. */
  lemma ClosedIsExact<T(!new)>(g: Digraph<T>, order: seq<T>)
    requires !CycleReachable(g)
    requires KahnOrder(g, order)
    ensures IsTopoOrder(g, order) <==> Closed(g)
  {
    if Closed(g) {
      KahnIsTotal(g, order);
    }
    if IsTopoOrder(g, order) {
      forall e | e in g.edges
        ensures e.source in g.ids && e.target in g.ids
      {
        assert Precedes(order, e.source, e.target);
      }
    }
  }

  /** The length check alone is no substitute for closedness: with a dangling source and a
      dangling target the order has the right length but names an undeclared node. */
  lemma LengthCheckCanBeFooled()
    ensures var g := Digraph(["a", "b"], [Edge("x", "a"), Edge("b", "y")]);
            && !Closed(g) && !CycleReachable(g)
            && KahnOrder(g, ["b", "y"])
            && |["b", "y"]| == |Dedup(g.ids)|
            && "y" !in g.ids
  {
    DedupOfNoDup(["a", "b"]);
    DanglingIsAcyclic("a", "b", "x", "y");
    DanglingOrder("a", "b", "x", "y");
  }

  lemma DanglingIsAcyclic<T(!new)>(a: T, b: T, x: T, y: T)
    requires NoDup([a, b, x, y])
    ensures var g := Digraph([a, b], [Edge(x, a), Edge(b, y)]);
            !Closed(g) && !CycleReachable(g)
  {
    var names, g := [a, b, x, y], Digraph([a, b], [Edge(x, a), Edge(b, y)]);
    assert names[0] != names[1] && names[0] != names[2] && names[0] != names[3]
        && names[1] != names[2] && names[1] != names[3] && names[2] != names[3];
    assert g.edges[0] == Edge(x, a);
    assert [y, b, a][..1] == [y];
    FinishOrderExcludesCycles(g, [y, b, a]);
  }

  lemma DanglingOrder<T(!new)>(a: T, b: T, x: T, y: T)
    requires NoDup([a, b, x, y])
    ensures KahnOrder(Digraph([a, b], [Edge(x, a), Edge(b, y)]), [b, y])
  {
    var names := [a, b, x, y];
    assert names[0] != names[1] && names[0] != names[2] && names[0] != names[3]
        && names[1] != names[2] && names[1] != names[3] && names[2] != names[3];
    var g := Digraph([a, b], [Edge(x, a), Edge(b, y)]);
    assert g.edges[0] == Edge(x, a) && g.edges[1] == Edge(b, y);
    assert Edge(x, a) in g.edges && Edge(b, y) in g.edges;
    assert [b, y][..1] == [b];
    assert Scheduled(g, y);
  }
}
