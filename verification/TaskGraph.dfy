/** The dependency graph of the deadlock detector as a value: how tasks are added and removed,
    what rejecting a submission leaves behind, and how far ready tasks drain. */
module TaskGraph {
  import opened Graphs

  /** Nodes in insertion order, and for each node the tasks it depends on. */
  datatype Graph = Graph(nodes: seq<Name>, adj: Adj)

  const EMPTY := Graph([], map[])

  ghost predicate WellFormed(g: Graph) {
    && Distinct(g.nodes)
    && Elements(g.nodes) == g.adj.Keys
    && forall x, y :: Edge(g.adj, x, y) ==> y in g.adj
  }

  function AddNode(g: Graph, n: Name): Graph {
    if n in g.adj then g else Graph(g.nodes + [n], g.adj[n := []])
  }

  function AddEdge(g: Graph, x: Name, y: Name): Graph
    requires x in g.adj
  {
    if y in g.adj[x] then g else g.(adj := g.adj[x := g.adj[x] + [y]])
  }

  function AddDep(g: Graph, t: Name, d: Name): (r: Graph)
    requires t in g.adj
    ensures t in r.adj
  {
    AddEdge(AddNode(g, d), t, d)
  }

  function AddDeps(g: Graph, t: Name, deps: seq<Name>): Graph
    requires t in g.adj
    decreases |deps|
  {
    if deps == [] then g else AddDeps(AddDep(g, t, deps[0]), t, deps[1..])
  }

  function AddTask(g: Graph, t: Name, deps: seq<Name>): Graph {
    AddDeps(AddNode(g, t), t, deps)
  }

  function Without(s: seq<Name>, t: Name): seq<Name> {
    if s == [] then []
    else if s[0] == t then Without(s[1..], t)
    else [s[0]] + Without(s[1..], t)
  }

  /** Removes a node with the edges that leave it and the edges that enter it. */
  function RemoveTask(g: Graph, t: Name): Graph {
    if t in g.adj then Graph(Without(g.nodes, t), map x | x in g.adj && x != t :: Without(g.adj[x], t)) else g
  }

  // ----- adding -----

  /** g' is g with the nodes deps and the edges from t to them. */
  ghost predicate Adds(g: Graph, g': Graph, t: Name, deps: set<Name>) {
    && g'.adj.Keys == g.adj.Keys + deps
    && (forall x, y :: Edge(g'.adj, x, y) <==> Edge(g.adj, x, y) || (x == t && y in deps))
    && (forall x :: x in g.adj && x != t ==> g'.adj[x] == g.adj[x])
    && (deps <= g.adj.Keys ==> g'.nodes == g.nodes)
  }

  lemma AddNodeMeaning(g: Graph, n: Name)
    requires WellFormed(g)
    ensures var g' := AddNode(g, n);
            && WellFormed(g') && g'.adj.Keys == g.adj.Keys + {n}
            && (forall x, y :: Edge(g'.adj, x, y) <==> Edge(g.adj, x, y))
            && (forall x :: x in g.adj ==> g'.adj[x] == g.adj[x])
  {
    var g' := AddNode(g, n);
    assert Elements(g.nodes + [n]) == Elements(g.nodes) + {n};
    assert forall x :: x in g.nodes ==> x in Elements(g.nodes);
    assert forall x, y :: Edge(g'.adj, x, y) <==> Edge(g.adj, x, y);
  }

  lemma AddEdgeMeaning(g: Graph, t: Name, d: Name)
    requires WellFormed(g) && t in g.adj && d in g.adj
    ensures var g' := AddEdge(g, t, d);
            && WellFormed(g') && g'.adj.Keys == g.adj.Keys && g'.nodes == g.nodes
            && (forall x, y :: Edge(g'.adj, x, y) <==> Edge(g.adj, x, y) || (x == t && y == d))
            && (forall x :: x in g.adj && x != t ==> g'.adj[x] == g.adj[x])
  {
    var g' := AddEdge(g, t, d);
    assert forall x, y :: Edge(g'.adj, x, y) <==> Edge(g.adj, x, y) || (x == t && y == d);
  }

  lemma AddsOne(g: Graph, t: Name, d: Name)
    requires WellFormed(g) && t in g.adj
    ensures WellFormed(AddDep(g, t, d)) && Adds(g, AddDep(g, t, d), t, {d})
  {
    AddNodeMeaning(g, d);
    AddEdgeMeaning(AddNode(g, d), t, d);
  }

  lemma AddsJoin(g: Graph, g1: Graph, g2: Graph, t: Name, d: set<Name>, e: set<Name>)
    requires Adds(g, g1, t, d) && Adds(g1, g2, t, e)
    ensures Adds(g, g2, t, d + e)
  {
  }

  lemma AddsNone(g: Graph, t: Name)
    ensures Adds(g, g, t, {})
  {
  }

  lemma ElementsCons(s: seq<Name>)
    requires s != []
    ensures Elements(s) == {s[0]} + Elements(s[1..])
  {
    assert s == [s[0]] + s[1..];
  }

  lemma {:induction false} AddDepsMeaning(g: Graph, t: Name, deps: seq<Name>)
    requires WellFormed(g) && t in g.adj
    ensures WellFormed(AddDeps(g, t, deps)) && Adds(g, AddDeps(g, t, deps), t, Elements(deps))
    decreases |deps|
  {
    if deps == [] {
      AddsNone(g, t);
      assert Elements(deps) == {};
    } else {
      var g1 := AddDep(g, t, deps[0]);
      AddsOne(g, t, deps[0]);
      AddDepsMeaning(g1, t, deps[1..]);
      AddsJoin(g, g1, AddDeps(g1, t, deps[1..]), t, {deps[0]}, Elements(deps[1..]));
      ElementsCons(deps);
    }
  }

  /** add_task adds exactly the task, its dependencies and the edges between them. */
  lemma AddTaskMeaning(g: Graph, t: Name, deps: seq<Name>)
    requires WellFormed(g)
    ensures var g' := AddTask(g, t, deps);
            && WellFormed(g') && g'.adj.Keys == g.adj.Keys + {t} + Elements(deps)
            && (forall x, y :: Edge(g'.adj, x, y) <==> Edge(g.adj, x, y) || (x == t && y in deps))
            && (forall x :: x in g.adj && x != t ==> g'.adj[x] == g.adj[x])
            && (Elements(deps) <= g.adj.Keys + {t} ==> g'.nodes == AddNode(g, t).nodes)
  {
    AddNodeMeaning(g, t);
    AddDepsMeaning(AddNode(g, t), t, deps);
  }

  // ----- removing -----

  lemma DistinctJoin(s: seq<Name>, r: seq<Name>)
    requires Distinct(s) && Distinct(r) && forall x :: x in s ==> x !in r
    ensures Distinct(s + r)
  {
    forall i, k | 0 <= i < k < |s + r| ensures (s + r)[i] != (s + r)[k] {
      if i < |s| && k >= |s| {
        assert (s + r)[i] in s && (s + r)[k] in r;
      }
    }
  }

  lemma {:induction false} WithoutMeaning(s: seq<Name>, t: Name)
    ensures forall x :: x in Without(s, t) <==> x in s && x != t
    ensures t !in s ==> Without(s, t) == s
    ensures Distinct(s) ==> Distinct(Without(s, t))
    decreases |s|
  {
    if s != [] {
      WithoutMeaning(s[1..], t);
      assert s == [s[0]] + s[1..];
      if Distinct(s) {
        assert s[0] !in s[1..];
        DistinctJoin([s[0]], Without(s[1..], t));
      }
    }
  }

  lemma RemoveTaskMeaning(g: Graph, t: Name)
    requires WellFormed(g)
    ensures var g' := RemoveTask(g, t);
            && WellFormed(g') && g'.adj.Keys == g.adj.Keys - {t}
            && (forall x, y :: Edge(g'.adj, x, y) <==> Edge(g.adj, x, y) && x != t && y != t)
  {
    var g' := RemoveTask(g, t);
    WithoutMeaning(g.nodes, t);
    forall x | x in g.adj ensures forall y :: y in Without(g.adj[x], t) <==> y in g.adj[x] && y != t {
      WithoutMeaning(g.adj[x], t);
    }
    assert forall x, y :: Edge(g'.adj, x, y) <==> Edge(g.adj, x, y) && x != t && y != t;
  }

  // ----- admission -----

  /** The first return to the start of a closed walk. */
  lemma {:induction false} FirstReturn(q: seq<Name>, k: nat) returns (m: nat)
    requires 1 <= k < |q| && q[k] == q[0]
    ensures 1 <= m <= k && q[m] == q[0] && forall i :: 1 <= i < m ==> q[i] != q[0]
    decreases k
  {
    if i :| 1 <= i < k && q[i] == q[0] {
      m := FirstReturn(q, i);
    } else {
      m := k;
    }
  }

  lemma Rotate(a: Adj, p: seq<Name>, i: nat) returns (q: seq<Name>)
    requires ClosedWalk(a, p) && i < |p| - 1
    ensures ClosedWalk(a, q) && q[0] == p[i]
  {
    WalkSuffix(a, p, i);
    assert Walk(a, p[..i + 1]);
    WalkJoin(a, p[i..], p[..i + 1]);
    q := p[i..] + p[..i + 1][1..];
  }

  /** Adding task t with dependencies deps to an acyclic graph closes a cycle exactly when one
      of those dependencies is t or already leads to t. */
  lemma DeadlockIffDependencyReaches(g: Graph, t: Name, deps: seq<Name>)
    requires WellFormed(g) && !Cyclic(g.adj)
    ensures Cyclic(AddTask(g, t, deps).adj) <==> exists d :: d in deps && Reaches(g.adj, d, t)
  {
    var g' := AddTask(g, t, deps);
    AddTaskMeaning(g, t, deps);
    if d :| d in deps && Reaches(g.adj, d, t) {
      var p :| WalkBetween(g.adj, p, d, t);
      assert WalkBetween(g'.adj, p, d, t);
      assert Edge(g'.adj, t, d);
      EdgeBackMakesCycle(g'.adj, t, d);
    }
    if Cyclic(g'.adj) {
      var d := NewCycleUsesDependency(g, t, deps);
    }
  }

  lemma NewCycleUsesDependency(g: Graph, t: Name, deps: seq<Name>) returns (d: Name)
    requires WellFormed(g) && !Cyclic(g.adj) && Cyclic(AddTask(g, t, deps).adj)
    ensures d in deps && Reaches(g.adj, d, t)
  {
    var a, a' := g.adj, AddTask(g, t, deps).adj;
    AddTaskMeaning(g, t, deps);
    var p :| ClosedWalk(a', p);
    if forall i :: 0 <= i < |p| - 1 ==> p[i] != t {
      assert forall i :: 0 <= i < |p| - 1 ==> Edge(a', p[i], p[i + 1]);
      assert ClosedWalk(a, p);
    }
    var i :| 0 <= i < |p| - 1 && p[i] == t;
    var q := Rotate(a', p, i);
    var m := FirstReturn(q, |q| - 1);
    d := q[1];
    var w := q[1..m + 1];
    assert WalkBetween(a, w, d, t) by {
      forall k | 0 <= k < |w| - 1 ensures Edge(a, w[k], w[k + 1]) {
        assert w[k] == q[k + 1] && w[k + 1] == q[k + 2];
        assert Edge(a', q[k + 1], q[k + 2]);
      }
    }
    assert Edge(a', q[0], q[1]);
    if d !in deps {
      EdgeBackMakesCycle(a, t, d);
    }
  }

  /** A task id the graph has not seen is rejected only for depending on itself. */
  lemma FreshTaskDeadlock(g: Graph, t: Name, deps: seq<Name>)
    requires WellFormed(g) && !Cyclic(g.adj) && t !in g.adj
    ensures Cyclic(AddTask(g, t, deps).adj) <==> t in deps
  {
    DeadlockIffDependencyReaches(g, t, deps);
    if t in deps {
      ReachesRefl(g.adj, t);
    }
    if d :| d in deps && Reaches(g.adj, d, t) {
      var p :| WalkBetween(g.adj, p, d, t);
      if |p| > 1 {
        assert Edge(g.adj, p[|p| - 2], p[|p| - 1]);
      }
    }
  }

  /** The graph part of submit_task: register, and on a deadlock remove the task again. */
  ghost function Admit(g: Graph, t: Name, deps: seq<Name>): Graph {
    if Cyclic(AddTask(g, t, deps).adj) then RemoveTask(AddTask(g, t, deps), t) else AddTask(g, t, deps)
  }

  lemma AdmitAcyclic(g: Graph, t: Name, deps: seq<Name>)
    requires WellFormed(g) && !Cyclic(g.adj)
    ensures WellFormed(Admit(g, t, deps)) && !Cyclic(Admit(g, t, deps).adj)
  {
    var g' := AddTask(g, t, deps);
    AddTaskMeaning(g, t, deps);
    if Cyclic(g'.adj) {
      RemoveTaskMeaning(g', t);
      if Cyclic(RemoveTask(g', t).adj) {
        CyclicMonotone(RemoveTask(g', t).adj, g.adj);
      }
    }
  }

  ghost function AdmitAll(g: Graph, requests: seq<(Name, seq<Name>)>): Graph
    decreases |requests|
  {
    if requests == [] then g
    else AdmitAll(Admit(g, requests[0].0, requests[0].1), requests[1..])
  }

  /** After any sequence of submissions, accepted or rejected, the graph has no cycle. */
  lemma {:induction false} AlwaysAcyclic(g: Graph, requests: seq<(Name, seq<Name>)>)
    requires WellFormed(g) && !Cyclic(g.adj)
    ensures WellFormed(AdmitAll(g, requests)) && !Cyclic(AdmitAll(g, requests).adj)
    decreases |requests|
  {
    if requests != [] {
      AdmitAcyclic(g, requests[0].0, requests[0].1);
      AlwaysAcyclic(Admit(g, requests[0].0, requests[0].1), requests[1..]);
    }
  }

  /** The task is new and every other listed dependency is already known. */
  predicate NothingElseAdded(g: Graph, t: Name, deps: seq<Name>) {
    t !in g.adj && forall d :: d in deps && d != t ==> d in g.adj
  }

  /** Removing the task again gives the graph back exactly when the task was new and every
      other listed dependency was already known. */
  lemma RollbackExactIff(g: Graph, t: Name, deps: seq<Name>)
    requires WellFormed(g)
    ensures RemoveTask(AddTask(g, t, deps), t) == g <==> NothingElseAdded(g, t, deps)
  {
    RollbackKeys(g, t, deps);
    if NothingElseAdded(g, t, deps) {
      RollbackRestores(g, t, deps);
    } else if t !in g.adj {
      var d :| d in deps && d != t && d !in g.adj;
      assert d in RemoveTask(AddTask(g, t, deps), t).adj;
    }
  }

  /** What is left after the removal: everything known before and everything listed, except t. */
  lemma RollbackKeys(g: Graph, t: Name, deps: seq<Name>)
    requires WellFormed(g)
    ensures var r := RemoveTask(AddTask(g, t, deps), t);
            forall n :: n in r.adj <==> n != t && (n in g.adj || n in deps)
  {
    AddTaskMeaning(g, t, deps);
    RemoveTaskMeaning(AddTask(g, t, deps), t);
    assert forall n :: n in deps <==> n in Elements(deps);
  }

  lemma RollbackRestores(g: Graph, t: Name, deps: seq<Name>)
    requires WellFormed(g) && NothingElseAdded(g, t, deps)
    ensures RemoveTask(AddTask(g, t, deps), t) == g
  {
    var r := RemoveTask(AddTask(g, t, deps), t);
    RollbackKeys(g, t, deps);
    RollbackNodes(g, t, deps);
    forall x | x in g.adj ensures x in r.adj && r.adj[x] == g.adj[x] {
      RollbackEdges(g, t, deps, x);
    }
    assert r.adj.Keys == g.adj.Keys;
    assert r.adj == g.adj;
  }

  lemma RollbackNodes(g: Graph, t: Name, deps: seq<Name>)
    requires WellFormed(g) && NothingElseAdded(g, t, deps)
    ensures RemoveTask(AddTask(g, t, deps), t).nodes == g.nodes
  {
    AddTaskMeaning(g, t, deps);
    assert Elements(deps) <= g.adj.Keys + {t};
    NodesInAdj(g);
    WithoutLast(g.nodes, t);
  }

  lemma RollbackEdges(g: Graph, t: Name, deps: seq<Name>, x: Name)
    requires WellFormed(g) && t !in g.adj && x in g.adj
    ensures var r := RemoveTask(AddTask(g, t, deps), t);
            x in r.adj && r.adj[x] == g.adj[x]
  {
    AddTaskMeaning(g, t, deps);
    assert forall y :: y in g.adj[x] ==> Edge(g.adj, x, y);
    WithoutMeaning(g.adj[x], t);
  }

  lemma {:induction false} WithoutLast(s: seq<Name>, t: Name)
    requires t !in s
    ensures Without(s + [t], t) == s
    decreases |s|
  {
    if s == [] {
      assert s + [t] == [t];
    } else {
      assert (s + [t])[1..] == s[1..] + [t];
      WithoutLast(s[1..], t);
    }
  }

  /** A rejected resubmission can lose edges that were accepted earlier: here "b" waited for
      "a", and rejecting a second "a" makes it wait for nothing. */
  lemma RejectionLosesEdges()
    ensures var g := Graph(["a", "b"], map["a" := [], "b" := ["a"]]);
            && WellFormed(g) && !Cyclic(g.adj) && Cyclic(AddTask(g, "a", ["b"]).adj)
            && Edge(g.adj, "b", "a") && !Edge(Admit(g, "a", ["b"]).adj, "b", "a")
  {
    var g := Graph(["a", "b"], map["a" := [], "b" := ["a"]]);
    assert Elements(g.nodes) == {"a", "b"};
    forall i, y | 0 <= i < 2 && Edge(g.adj, g.nodes[i], y) ensures y in g.nodes[..i] {
      assert i == 1 && y == "a" && g.nodes[..1] == ["a"];
    }
    AcyclicIfListed(g.adj, g.nodes);
    assert WalkBetween(g.adj, ["b", "a"], "b", "a");
    DeadlockIffDependencyReaches(g, "a", ["b"]);
    assert "b" in ["b"];
    AddTaskMeaning(g, "a", ["b"]);
    RemoveTaskMeaning(AddTask(g, "a", ["b"]), "a");
  }

  // ----- ready tasks -----

  predicate AllIn(deps: seq<Name>, completed: seq<Name>) {
    forall d :: d in deps ==> d in completed
  }

  /** get_ready_tasks over the given nodes: not yet completed, every dependency completed. */
  function ReadyAmong(nodes: seq<Name>, adj: Adj, completed: seq<Name>): seq<Name>
    requires forall n :: n in nodes ==> n in adj
  {
    if nodes == [] then []
    else
      var rest := ReadyAmong(nodes[..|nodes| - 1], adj, completed);
      var n := nodes[|nodes| - 1];
      if n !in completed && AllIn(adj[n], completed) then rest + [n] else rest
  }

  ghost function Ready(g: Graph, completed: seq<Name>): seq<Name>
    requires WellFormed(g)
  {
    NodesInAdj(g);
    ReadyAmong(g.nodes, g.adj, completed)
  }

  lemma NodesInAdj(g: Graph)
    requires WellFormed(g)
    ensures forall n :: n in g.nodes <==> n in g.adj
  {
    assert forall n :: n in g.nodes <==> n in Elements(g.nodes);
  }

  lemma {:induction false} ReadyAmongMeaning(nodes: seq<Name>, adj: Adj, completed: seq<Name>)
    requires forall n :: n in nodes ==> n in adj
    ensures forall n :: n in ReadyAmong(nodes, adj, completed)
                   <==> n in nodes && n !in completed && AllIn(adj[n], completed)
    ensures Distinct(nodes) ==> Distinct(ReadyAmong(nodes, adj, completed))
    decreases |nodes|
  {
    if nodes != [] {
      var k := |nodes| - 1;
      ReadyAmongMeaning(nodes[..k], adj, completed);
      assert nodes == nodes[..k] + [nodes[k]];
    }
  }

  /** The tasks completed after k rounds of completing everything that is ready. */
  ghost function Drained(g: Graph, k: nat): seq<Name>
    requires WellFormed(g)
  {
    if k == 0 then [] else Drained(g, k - 1) + Ready(g, Drained(g, k - 1))
  }

  lemma {:induction false} DrainedSound(g: Graph, k: nat)
    requires WellFormed(g)
    ensures Distinct(Drained(g, k)) && Elements(Drained(g, k)) <= g.adj.Keys
    ensures DependenciesFirst(g.adj, Drained(g, k))
  {
    if k > 0 {
      var before := Drained(g, k - 1);
      DrainedSound(g, k - 1);
      NodesInAdj(g);
      ReadyAmongMeaning(g.nodes, g.adj, before);
      var all := Drained(g, k);
      DistinctJoin(before, Ready(g, before));
      forall i, y | 0 <= i < |all| && Edge(g.adj, all[i], y) ensures y in all[..i] {
        if i < |before| {
          assert all[..i] == before[..i];
        } else {
          assert all[i] in Ready(g, before);
          assert y in before;
          assert before <= all[..i];
        }
      }
      forall n | n in all ensures n in g.adj {
        assert n in before || n in Ready(g, before);
        if n in before { assert n in Elements(before); }
      }
    }
  }

  /** Each round that does not stall completes at least one more task. */
  lemma {:induction false} DrainProgress(g: Graph, k: nat)
    requires WellFormed(g)
    ensures Ready(g, Drained(g, k)) == [] || |Drained(g, k)| >= k
    ensures Ready(g, Drained(g, k)) == [] ==> forall m :: m >= k ==> Drained(g, m) == Drained(g, k)
  {
    if k > 0 {
      DrainProgress(g, k - 1);
    }
    if Ready(g, Drained(g, k)) == [] {
      forall m | m >= k ensures Drained(g, m) == Drained(g, k) {
        Stalled(g, k, m);
      }
    }
  }

  lemma {:induction false} Stalled(g: Graph, k: nat, m: nat)
    requires WellFormed(g) && m >= k && Ready(g, Drained(g, k)) == []
    ensures Drained(g, m) == Drained(g, k)
    decreases m
  {
    if m > k {
      Stalled(g, k, m - 1);
    }
  }

  lemma FirstIsMember(s: seq<Name>)
    ensures s == [] || s[0] in s
  {
  }

  lemma NothingReadyAfterAll(g: Graph)
    requires WellFormed(g)
    ensures Ready(g, Drained(g, |g.nodes|)) == []
  {
    var n := |g.nodes|;
    var done := Drained(g, n);
    DrainedSound(g, n);
    DrainProgress(g, n);
    NodesInAdj(g);
    ReadyAmongMeaning(g.nodes, g.adj, done);
    DistinctCount(g.nodes);
    assert forall x :: x in done ==> x in Elements(done);
    DistinctBound(done, g.adj.Keys);
    var ready := Ready(g, done);
    FirstIsMember(ready);
  }

  /** Completing ready tasks round after round, from nothing, ends within as many rounds as
      there are tasks; it completes exactly the tasks that do not lead into a cycle, each once
      and after its dependencies. */
  lemma DrainReachesExactly(g: Graph, k: nat)
    requires WellFormed(g) && k >= |g.nodes|
    ensures Distinct(Drained(g, k)) && DependenciesFirst(g.adj, Drained(g, k))
    ensures forall n :: n in Drained(g, k) <==> n in g.adj && !LeadsToCycle(g.adj, n)
  {
    var done := Drained(g, k);
    DrainedSound(g, k);
    NothingReadyAfterAll(g);
    DrainProgress(g, |g.nodes|);
    NodesInAdj(g);
    ReadyAmongMeaning(g.nodes, g.adj, done);
    forall n | n in done ensures n in g.adj && !LeadsToCycle(g.adj, n) {
      assert n in Elements(done);
      var i :| 0 <= i < |done| && done[i] == n;
      ListingAcyclic(g.adj, done, n, i);
    }
    var left := g.adj.Keys - Elements(done);
    forall x | x in left ensures DependsWithin(g.adj, x, left) {
      assert x !in Ready(g, done);
      var y :| y in g.adj[x] && y !in done;
      assert Edge(g.adj, x, y);
    }
    forall n | n in g.adj && n !in done ensures LeadsToCycle(g.adj, n) {
      NoSinkLeadsToCycle(g.adj, left, n);
    }
  }

  /** On an acyclic graph draining never stalls before every task is completed. */
  lemma AcyclicDrainsAll(g: Graph)
    requires WellFormed(g) && !Cyclic(g.adj)
    ensures Elements(Drained(g, |g.nodes|)) == g.adj.Keys
    ensures Distinct(Drained(g, |g.nodes|)) && DependenciesFirst(g.adj, Drained(g, |g.nodes|))
  {
    DrainReachesExactly(g, |g.nodes|);
    forall n | n in g.adj ensures n in Drained(g, |g.nodes|) {
      assert !LeadsToCycle(g.adj, n);
    }
  }
}
