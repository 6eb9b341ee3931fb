/** The deadlock detector object. The cycle search is a depth-first search and the
    topological sort repeatedly takes a node that no remaining node depends on. */
module DeadlockDetection {
  import opened Options
  import opened Graphs
  import opened TaskGraph

  /** The nodes of a simple cycle, as get_cycle lists them. */
  ghost predicate IsCycle(a: Adj, c: seq<Name>) {
    c != [] && Distinct(c) && Walk(a, c) && Edge(a, c[|c| - 1], c[0])
  }

  lemma CycleIsCyclic(a: Adj, c: seq<Name>)
    requires IsCycle(a, c)
    ensures Cyclic(a)
  {
    assert ClosedWalk(a, c + [c[0]]);
  }

  /** The listing of a finished search extended by a node whose dependencies are all in it. */
  lemma ListOneMore(a: Adj, done: seq<Name>, n: Name)
    requires DependenciesFirst(a, done) && n !in done
    requires forall y :: Edge(a, n, y) ==> y in done
    ensures DependenciesFirst(a, done + [n])
  {
    var all := done + [n];
    forall i, y | 0 <= i < |all| && Edge(a, all[i], y) ensures y in all[..i] {
      if i < |done| {
        assert all[..i] == done[..i];
      } else {
        assert all[..i] == done;
      }
    }
  }

  /** Everything that is on the search path, and nothing that is finished. */
  ghost predicate SearchState(g: Graph, path: seq<Name>, done: seq<Name>) {
    && path != [] && Walk(g.adj, path) && Distinct(path)
    && (forall x :: x in path ==> x in g.adj && x !in done)
    && DependenciesFirst(g.adj, done)
  }

  lemma PathFits(g: Graph, path: seq<Name>)
    requires Distinct(path) && forall x :: x in path ==> x in g.adj
    ensures |path| <= |g.adj.Keys|
  {
    DistinctBound(path, g.adj.Keys);
  }

  /** Searches everything below the last node of the path. Either finds a cycle, or finishes
      that node: it and all it depends on join the dependency-first listing. */
  method Visit(g: Graph, path: seq<Name>, done: seq<Name>) returns (cycle: Option<seq<Name>>, done': seq<Name>)
    requires WellFormed(g) && SearchState(g, path, done)
    ensures cycle.Some? ==> IsCycle(g.adj, cycle.value)
    ensures cycle.None? ==> done <= done' && DependenciesFirst(g.adj, done') && path[|path| - 1] in done'
    ensures cycle.None? ==> forall x :: x in path[..|path| - 1] ==> x !in done'
    decreases |g.adj.Keys| - |path|
  {
    PathFits(g, path);
    var n := path[|path| - 1];
    var succ := g.adj[n];
    done' := done;
    var i := 0;
    while i < |succ|
      invariant 0 <= i <= |succ|
      invariant done <= done' && SearchState(g, path, done')
      invariant forall k :: 0 <= k < i ==> succ[k] in done'
    {
      var y := succ[i];
      assert Edge(g.adj, n, y);
      if y in path {
        var k :| 0 <= k < |path| && path[k] == y;
        WalkSuffix(g.adj, path, k);
        return Some(path[k..]), done';
      }
      if y !in done' {
        var longer := path + [y];
        assert Walk(g.adj, longer);
        PathFits(g, longer);
        cycle, done' := Visit(g, longer, done');
        if cycle.Some? {
          return;
        }
        assert longer[..|longer| - 1] == path;
      }
      i := i + 1;
    }
    forall y | Edge(g.adj, n, y) ensures y in done' {
      assert y in succ;
    }
    ListOneMore(g.adj, done', n);
    done' := done' + [n];
    cycle := None;
    forall x | x in path[..|path| - 1] ensures x !in done' {
      assert x in path;
    }
  }

  /** nx.find_cycle: a simple cycle if there is one, otherwise nothing. */
  method FindCycle(g: Graph) returns (cycle: Option<seq<Name>>)
    requires WellFormed(g)
    ensures cycle.Some? ==> IsCycle(g.adj, cycle.value)
    ensures cycle.Some? <==> Cyclic(g.adj)
  {
    NodesInAdj(g);
    var done: seq<Name> := [];
    var i := 0;
    while i < |g.nodes|
      invariant 0 <= i <= |g.nodes|
      invariant DependenciesFirst(g.adj, done)
      invariant forall k :: 0 <= k < i ==> g.nodes[k] in done
    {
      if g.nodes[i] !in done {
        assert Walk(g.adj, [g.nodes[i]]) && g.nodes[i] in g.nodes;
        cycle, done := Visit(g, [g.nodes[i]], done);
        if cycle.Some? {
          CycleIsCyclic(g.adj, cycle.value);
          return;
        }
      }
      i := i + 1;
    }
    cycle := None;
    forall n | n in g.adj ensures n in Elements(done) {
      assert n in g.nodes;
    }
    AcyclicIfListed(g.adj, done);
  }

  // ----- topological order -----

  /** Every edge that enters an element of s starts at an earlier element. */
  ghost predicate DependentsFirst(a: Adj, s: seq<Name>) {
    forall i, x :: 0 <= i < |s| && Edge(a, x, s[i]) ==> x in s[..i]
  }

  /** No node outside `order` depends on n. */
  predicate NoDependentLeft(g: Graph, order: seq<Name>, n: Name)
    requires forall m :: m in g.nodes ==> m in g.adj
  {
    forall x :: x in g.nodes && x !in order ==> n !in g.adj[x]
  }

  function Reversed(s: seq<Name>): seq<Name> {
    seq(|s|, i requires 0 <= i < |s| => s[|s| - 1 - i])
  }

  lemma ReversedListing(g: Graph, order: seq<Name>)
    requires WellFormed(g) && DependentsFirst(g.adj, order) && Distinct(order) && Elements(order) == g.adj.Keys
    ensures DependenciesFirst(g.adj, Reversed(order)) && Distinct(Reversed(order))
    ensures Elements(Reversed(order)) == g.adj.Keys
  {
    var r := Reversed(order);
    forall i, y | 0 <= i < |r| && Edge(g.adj, r[i], y) ensures y in r[..i] {
      var x := r[i];
      assert y in Elements(order);
      var k :| 0 <= k < |order| && order[k] == y;
      assert x in order[..k];
      var m :| 0 <= m < k && order[m] == x;
      assert m == |order| - 1 - i;
      assert r[..i][|order| - 1 - k] == y;
    }
    forall x | x in g.adj ensures x in Elements(r) {
      assert x in Elements(order);
      var k :| 0 <= k < |order| && order[k] == x;
      assert r[|order| - 1 - k] == x;
    }
  }

  /** In an acyclic graph, among the nodes not yet ordered, one has no dependent left: the one
      that a complete dependency-first listing names last. */
  lemma SomeoneWithoutDependents(g: Graph, order: seq<Name>) returns (n: Name)
    requires WellFormed(g) && !Cyclic(g.adj)
    requires exists m :: m in g.nodes && m !in order
    ensures n in g.nodes && n !in order
    ensures forall x :: x in g.nodes && x !in order ==> !Edge(g.adj, x, n)
  {
    var all := Drained(g, |g.nodes|);
    AcyclicDrainsAll(g);
    NodesInAdj(g);
    assert forall x :: x in g.nodes ==> x in Elements(all);
    var m :| m in g.nodes && m !in order;
    assert m in Elements(all);
    var i := LastOutside(all, order);
    n := all[i];
    assert n in Elements(all);
    forall x | x in g.nodes && x !in order ensures !Edge(g.adj, x, n) {
      assert x in Elements(all);
      var k :| 0 <= k < |all| && all[k] == x;
      NoForwardEdge(g.adj, all, k, i);
    }
  }

  lemma {:induction false} LastOutside(s: seq<Name>, order: seq<Name>) returns (i: nat)
    requires exists x :: x in s && x !in order
    ensures i < |s| && s[i] !in order && forall k :: i < k < |s| ==> s[k] in order
    decreases |s|
  {
    var n := |s| - 1;
    if s[n] in order {
      assert s == s[..n] + [s[n]];
      i := LastOutside(s[..n], order);
    } else {
      i := n;
    }
  }

  lemma NoForwardEdge(a: Adj, s: seq<Name>, k: nat, i: nat)
    requires DependenciesFirst(a, s) && Distinct(s) && k <= i < |s|
    ensures !Edge(a, s[k], s[i])
  {
    assert s[i] !in s[..k];
  }

  /** nx.topological_sort: tasks before what they depend on; fails exactly on a cycle. */
  method TopologicalSort(g: Graph) returns (r: Option<seq<Name>>)
    requires WellFormed(g)
    ensures r.Some? <==> !Cyclic(g.adj)
    ensures r.Some? ==> DependentsFirst(g.adj, r.value) && Distinct(r.value) && Elements(r.value) == g.adj.Keys
  {
    NodesInAdj(g);
    var order: seq<Name> := [];
    while |order| < |g.nodes|
      invariant Distinct(order) && (forall x :: x in order ==> x in g.adj)
      invariant DependentsFirst(g.adj, order)
      invariant |order| <= |g.nodes|
    {
      var i := 0;
      while i < |g.nodes| && (g.nodes[i] in order || !NoDependentLeft(g, order, g.nodes[i]))
        invariant 0 <= i <= |g.nodes|
        invariant forall k :: 0 <= k < i ==> g.nodes[k] in order || !NoDependentLeft(g, order, g.nodes[k])
      {
        i := i + 1;
      }
      if i == |g.nodes| {
        StuckIsCyclic(g, order);
        return None;
      }
      TakeNext(g, order, g.nodes[i]);
      order := order + [g.nodes[i]];
      DistinctBound(order, g.adj.Keys);
      DistinctCount(g.nodes);
    }
    DistinctCount(g.nodes);
    DistinctBound(order, g.adj.Keys);
    ReversedListing(g, order);
    AcyclicIfListed(g.adj, Reversed(order));
    return Some(order);
  }

  lemma StuckIsCyclic(g: Graph, order: seq<Name>)
    requires WellFormed(g) && Distinct(order) && |order| < |g.nodes|
    requires forall m :: m in g.nodes <==> m in g.adj
    requires forall k :: 0 <= k < |g.nodes| ==> g.nodes[k] in order || !NoDependentLeft(g, order, g.nodes[k])
    ensures Cyclic(g.adj)
  {
    if forall m :: m in g.nodes ==> m in order {
      DistinctBound(g.nodes, Elements(order));
      DistinctCount(order);
    }
    if !Cyclic(g.adj) {
      var n := SomeoneWithoutDependents(g, order);
    }
  }

  lemma TakeNext(g: Graph, order: seq<Name>, n: Name)
    requires WellFormed(g) && DependentsFirst(g.adj, order)
    requires forall m :: m in g.nodes <==> m in g.adj
    requires NoDependentLeft(g, order, n)
    ensures DependentsFirst(g.adj, order + [n])
  {
    var all := order + [n];
    forall i, x | 0 <= i < |all| && Edge(g.adj, x, all[i]) ensures x in all[..i] {
      if i < |order| {
        assert all[..i] == order[..i];
      } else {
        assert all[..i] == order;
      }
    }
  }

  // ----- the object -----

  /** The list without a name, in the same order. */
  method Filtered(s: seq<Name>, t: Name) returns (r: seq<Name>)
    ensures r == Without(s, t) && forall x :: x in r <==> x in s && x != t
  {
    r := [];
    var i := 0;
    while i < |s|
      invariant 0 <= i <= |s| && r == Without(s[..i], t)
    {
      assert s[..i + 1] == s[..i] + [s[i]];
      WithoutSnoc(s[..i], s[i], t);
      if s[i] != t {
        r := r + [s[i]];
      }
      i := i + 1;
    }
    assert s[..i] == s;
    WithoutMeaning(s, t);
  }

  /** The dependency lists of some nodes, without a name. */
  method Rewired(g: Graph, nodes: seq<Name>, t: Name) returns (adj: Adj)
    requires forall x :: x in nodes ==> x in g.adj
    ensures adj.Keys == Elements(nodes)
    ensures forall x :: x in adj ==> x in g.adj && adj[x] == Without(g.adj[x], t)
  {
    adj := map[];
    var i := 0;
    while i < |nodes|
      invariant 0 <= i <= |nodes|
      invariant adj.Keys == Elements(nodes[..i])
      invariant forall x :: x in adj ==> x in g.adj && adj[x] == Without(g.adj[x], t)
    {
      assert nodes[i] in nodes;
      var kept := Filtered(g.adj[nodes[i]], t);
      adj := adj[nodes[i] := kept];
      assert Elements(nodes[..i + 1]) == Elements(nodes[..i]) + {nodes[i]};
      i := i + 1;
    }
    assert nodes[..i] == nodes;
  }

  /** nx.remove_node for a node of the graph. */
  method Removed(g: Graph, t: Name) returns (g': Graph)
    requires WellFormed(g) && t in g.adj
    ensures g' == TaskGraph.RemoveTask(g, t)
  {
    NodesInAdj(g);
    var nodes := Filtered(g.nodes, t);
    var adj := Rewired(g, nodes, t);
    SameRewiring(g, t, adj, Elements(nodes));
    g' := Graph(nodes, adj);
  }

  lemma SameRewiring(g: Graph, t: Name, adj: Adj, nodes: set<Name>)
    requires t in g.adj && adj.Keys == nodes && forall x :: x in nodes <==> x in g.adj && x != t
    requires forall x :: x in adj ==> x in g.adj && adj[x] == Without(g.adj[x], t)
    ensures adj == TaskGraph.RemoveTask(g, t).adj
  {
    assert adj.Keys == TaskGraph.RemoveTask(g, t).adj.Keys;
  }

  lemma {:induction false} WithoutSnoc(s: seq<Name>, x: Name, t: Name)
    ensures Without(s + [x], t) == Without(s, t) + (if x == t then [] else [x])
  {
    if s != [] {
      assert (s + [x])[1..] == s[1..] + [x];
      WithoutSnoc(s[1..], x, t);
    } else {
      assert [x][1..] == [] && s + [x] == [x];
    }
  }

  class DeadlockDetector {
    var graph: Graph

    constructor ()
      ensures graph == EMPTY && WellFormed(graph)
    {
      graph := EMPTY;
    }

    method AddTask(taskId: Name, dependsOn: seq<Name>)
      requires WellFormed(graph)
      modifies this
      ensures WellFormed(graph) && graph == TaskGraph.AddTask(old(graph), taskId, dependsOn)
    {
      graph := AddNode(graph, taskId);
      AddNodeMeaning(old(graph), taskId);
      var i := 0;
      while i < |dependsOn|
        invariant 0 <= i <= |dependsOn|
        invariant taskId in graph.adj
        invariant AddDeps(graph, taskId, dependsOn[i..]) == TaskGraph.AddTask(old(graph), taskId, dependsOn)
      {
        assert dependsOn[i..][1..] == dependsOn[i + 1..];
        graph := AddNode(graph, dependsOn[i]);
        graph := AddEdge(graph, taskId, dependsOn[i]);
        i := i + 1;
      }
      AddTaskMeaning(old(graph), taskId, dependsOn);
    }

    /** The task is gone with every edge that left or entered it; the other tasks keep their
        order and the rest of their dependencies. */
    method RemoveTask(taskId: Name)
      requires WellFormed(graph)
      modifies this
      ensures WellFormed(graph) && graph == TaskGraph.RemoveTask(old(graph), taskId)
      ensures graph.adj.Keys == old(graph).adj.Keys - {taskId}
      ensures forall x, y :: Edge(graph.adj, x, y) <==> Edge(old(graph).adj, x, y) && x != taskId && y != taskId
    {
      RemoveTaskMeaning(graph, taskId);
      if taskId in graph.adj {
        graph := Removed(graph, taskId);
      }
    }

    method HasDeadlock() returns (r: bool)
      requires WellFormed(graph)
      ensures r <==> Cyclic(graph.adj)
    {
      var cycle := FindCycle(graph);
      r := cycle.Some?;
    }

    method GetCycle() returns (r: Option<seq<Name>>)
      requires WellFormed(graph)
      ensures r.Some? <==> Cyclic(graph.adj)
      ensures r.Some? ==> IsCycle(graph.adj, r.value)
    {
      r := FindCycle(graph);
    }

    /** An order exists exactly when the graph is acyclic, and it lists every task once, after
        the tasks it depends on. */
    method GetExecutionOrder() returns (r: Option<seq<Name>>)
      requires WellFormed(graph)
      ensures r.Some? <==> !Cyclic(graph.adj)
      ensures r.Some? ==> DependenciesFirst(graph.adj, r.value) && Distinct(r.value) && Elements(r.value) == graph.adj.Keys
    {
      var deadlock := HasDeadlock();
      if deadlock {
        return None;
      }
      var order := TopologicalSort(graph);
      ReversedListing(graph, order.value);
      r := Some(Reversed(order.value));
    }

    method GetReadyTasks(completed: seq<Name>) returns (ready: seq<Name>)
      requires WellFormed(graph)
      ensures ready == Ready(graph, completed)
      ensures forall n :: n in ready <==> n in graph.adj && n !in completed && AllIn(graph.adj[n], completed)
    {
      NodesInAdj(graph);
      ready := [];
      var i := 0;
      while i < |graph.nodes|
        invariant 0 <= i <= |graph.nodes|
        invariant ready == ReadyAmong(graph.nodes[..i], graph.adj, completed)
      {
        assert graph.nodes[..i + 1][..i] == graph.nodes[..i];
        var node := graph.nodes[i];
        if node !in completed && AllIn(graph.adj[node], completed) {
          ready := ready + [node];
        }
        i := i + 1;
      }
      assert graph.nodes[..i] == graph.nodes;
      ReadyAmongMeaning(graph.nodes, graph.adj, completed);
    }
  }
}
