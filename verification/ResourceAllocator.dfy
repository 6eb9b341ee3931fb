/** The cluster's resource books: what every history of allocations and releases conserves. */
module ResourceAllocation {
  type Id = string

  datatype Node = Node(totalCpu: real, totalMemory: real, usedCpu: real, usedMemory: real) {
    function AvailableCpu(): real { totalCpu - usedCpu }
    function AvailableMemory(): real { totalMemory - usedMemory }
    predicate Fits(cpu: real, memory: real) { AvailableCpu() >= cpu && AvailableMemory() >= memory }
    function Take(cpu: real, memory: real): Node {
      this.(usedCpu := usedCpu + cpu, usedMemory := usedMemory + memory)
    }
  }

  /** Nodes by id, their ids in insertion order, and the node each tracked task is on. */
  datatype Cluster = Cluster(order: seq<Id>, nodes: map<Id, Node>, allocations: map<Id, Id>)

  const EMPTY := Cluster([], map[], map[])

  ghost predicate WellFormed(c: Cluster) {
    && (forall n :: n in c.nodes <==> n in c.order)
    && (forall t :: t in c.allocations ==> c.allocations[t] in c.nodes)
  }

  function WithNode(c: Cluster, n: Id, cpu: real, memory: real): Cluster {
    Cluster(if n in c.nodes then c.order else c.order + [n], c.nodes[n := Node(cpu, memory, 0.0, 0.0)], c.allocations)
  }

  function Take(c: Cluster, n: Id, task: Id, cpu: real, memory: real): Cluster
    requires n in c.nodes
  {
    c.(nodes := c.nodes[n := c.nodes[n].Take(cpu, memory)], allocations := c.allocations[task := n])
  }

  /** deallocate: the caller says how much to give back. */
  function Release(c: Cluster, task: Id, cpu: real, memory: real): Cluster {
    if task in c.allocations && c.allocations[task] in c.nodes then
      var n := c.allocations[task];
      c.(nodes := c.nodes[n := c.nodes[n].Take(-cpu, -memory)], allocations := c.allocations - {task})
    else c
  }

  /** Releasing what an allocation under an unused id took restores the whole cluster. */
  lemma ReleaseUndoesTake(c: Cluster, n: Id, task: Id, cpu: real, memory: real)
    requires n in c.nodes && task !in c.allocations
    ensures Release(Take(c, n, task, cpu, memory), task, cpu, memory) == c
  {
    var c' := Release(Take(c, n, task, cpu, memory), task, cpu, memory);
    assert c'.nodes == c.nodes;
    assert c'.allocations == c.allocations;
  }

  // ----- choosing a node -----

  datatype Strategy = FirstFit | BestFit | WorstFit

  /** What a strategy minimises. */
  function Cost(s: Strategy, n: Node, cpu: real, memory: real): real {
    match s
    case FirstFit => 0.0
    case BestFit => n.AvailableCpu() - cpu + n.AvailableMemory() - memory
    case WorstFit => -(n.AvailableCpu() + n.AvailableMemory())
  }

  /** order[k] fits the request, no fitting node costs less, and no earlier one as little. */
  ghost predicate Chosen(c: Cluster, s: Strategy, cpu: real, memory: real, k: nat)
    requires WellFormed(c)
  {
    && k < |c.order| && c.nodes[c.order[k]].Fits(cpu, memory)
    && forall i :: 0 <= i < |c.order| && c.nodes[c.order[i]].Fits(cpu, memory) ==>
         && Cost(s, c.nodes[c.order[k]], cpu, memory) <= Cost(s, c.nodes[c.order[i]], cpu, memory)
         && (i < k ==> Cost(s, c.nodes[c.order[k]], cpu, memory) < Cost(s, c.nodes[c.order[i]], cpu, memory))
  }

  /** What the strategies prefer, said on the nodes' fields: first fit the first node that fits, best
      fit the least left over after taking, worst fit the most available before, and the first of
      several as good. */
  lemma StrategyMeaning(c: Cluster, cpu: real, memory: real, k: nat, i: nat)
    requires WellFormed(c) && k < |c.order| && i < |c.order|
    requires var other := c.nodes[c.order[i]];
             other.totalCpu - other.usedCpu >= cpu && other.totalMemory - other.usedMemory >= memory
    ensures Chosen(c, FirstFit, cpu, memory, k) ==> k <= i
    ensures var chosen, other := c.nodes[c.order[k]], c.nodes[c.order[i]];
            var left := chosen.totalCpu - chosen.usedCpu + chosen.totalMemory - chosen.usedMemory;
            var otherLeft := other.totalCpu - other.usedCpu + other.totalMemory - other.usedMemory;
            && (Chosen(c, BestFit, cpu, memory, k) ==> left - cpu - memory <= otherLeft - cpu - memory)
            && (Chosen(c, WorstFit, cpu, memory, k) ==> left >= otherLeft)
            && (Chosen(c, BestFit, cpu, memory, k) || Chosen(c, WorstFit, cpu, memory, k) ==> left != otherLeft || k <= i)
  {
    assert c.nodes[c.order[i]].Fits(cpu, memory);
  }

  class ResourceAllocator {
    var c: Cluster

    constructor ()
      ensures c == EMPTY
    {
      c := EMPTY;
    }

    /** The node is empty, so it takes exactly what is within its capacity; it keeps its place in
        the order if the id was known. Nothing else changes. */
    method AddNode(n: Id, cpu: real, memory: real)
      requires WellFormed(c)
      modifies this
      ensures WellFormed(c) && c == WithNode(old(c), n, cpu, memory)
      ensures n in c.nodes && forall x, y :: c.nodes[n].Fits(x, y) <==> x <= cpu && y <= memory
      ensures forall m :: m in old(c).nodes && m != n ==> m in c.nodes && c.nodes[m] == old(c).nodes[m]
      ensures c.allocations == old(c).allocations && old(c).order <= c.order
    {
      if n !in c.nodes {
        c := c.(order := c.order + [n]);
      }
      c := c.(nodes := c.nodes[n := Node(cpu, memory, 0.0, 0.0)]);
    }

    /** Fails exactly when no node has both amounts free; otherwise charges the node the strategy
        prefers, and only that one. */
    method Allocate(task: Id, cpu: real, memory: real, strategy: Strategy) returns (success: bool, node: Id)
      requires WellFormed(c)
      modifies this
      ensures WellFormed(c)
      ensures success <==> exists n :: n in old(c).nodes && old(c).nodes[n].Fits(cpu, memory)
      ensures success <==> exists n :: n in old(c).nodes && old(c).nodes[n].totalCpu - old(c).nodes[n].usedCpu >= cpu
                                       && old(c).nodes[n].totalMemory - old(c).nodes[n].usedMemory >= memory
      ensures !success ==> c == old(c)
      ensures success ==>
                && node in c.nodes && c.nodes.Keys == old(c).nodes.Keys && c.order == old(c).order
                && c.nodes[node] == old(c).nodes[node].(usedCpu := old(c).nodes[node].usedCpu + cpu,
                                                        usedMemory := old(c).nodes[node].usedMemory + memory)
                && c.nodes[node].usedCpu <= c.nodes[node].totalCpu && c.nodes[node].usedMemory <= c.nodes[node].totalMemory
                && (forall n :: n in c.nodes && n != node ==> c.nodes[n] == old(c).nodes[n])
                && c.allocations == old(c).allocations[task := node]
      ensures success ==> node in old(c).nodes && c == Take(old(c), node, task, cpu, memory)
      ensures success ==> exists k: nat :: Chosen(old(c), strategy, cpu, memory, k) && old(c).order[k] == node
    {
      var best := 0;
      success := false;
      var i := 0;
      while i < |c.order|
        invariant 0 <= i <= |c.order|
        invariant success <==> exists k :: 0 <= k < i && c.nodes[c.order[k]].Fits(cpu, memory)
        invariant success ==> 0 <= best < i && c.nodes[c.order[best]].Fits(cpu, memory)
        invariant success ==> forall k :: 0 <= k < i && c.nodes[c.order[k]].Fits(cpu, memory) ==>
                    && Cost(strategy, c.nodes[c.order[best]], cpu, memory) <= Cost(strategy, c.nodes[c.order[k]], cpu, memory)
                    && (k < best ==> Cost(strategy, c.nodes[c.order[best]], cpu, memory) < Cost(strategy, c.nodes[c.order[k]], cpu, memory))
      {
        var n := c.nodes[c.order[i]];
        if n.Fits(cpu, memory)
           && (!success || Cost(strategy, n, cpu, memory) < Cost(strategy, c.nodes[c.order[best]], cpu, memory))
        {
          best, success := i, true;
        }
        i := i + 1;
      }
      if !success {
        return false, "";
      }
      node := c.order[best];
      assert Chosen(c, strategy, cpu, memory, best);
      c := Take(c, node, task, cpu, memory);
    }

    /** The task's node, and no other, has that much more available, whatever the task had taken;
        the task is forgotten. An unknown task changes nothing. */
    method Deallocate(task: Id, cpu: real, memory: real)
      requires WellFormed(c)
      modifies this
      ensures WellFormed(c) && c == Release(old(c), task, cpu, memory)
      ensures task !in c.allocations && c.nodes.Keys == old(c).nodes.Keys && c.order == old(c).order
      ensures forall t :: t != task ==>
                && (t in c.allocations <==> t in old(c).allocations)
                && (t in c.allocations ==> c.allocations[t] == old(c).allocations[t])
      ensures forall m :: m in c.nodes ==>
                var here := task in old(c).allocations && old(c).allocations[task] == m;
                && c.nodes[m].totalCpu == old(c).nodes[m].totalCpu && c.nodes[m].totalMemory == old(c).nodes[m].totalMemory
                && c.nodes[m].AvailableCpu() == old(c).nodes[m].AvailableCpu() + (if here then cpu else 0.0)
                && c.nodes[m].AvailableMemory() == old(c).nodes[m].AvailableMemory() + (if here then memory else 0.0)
    {
      if task !in c.allocations {
        return;
      }
      var n := c.allocations[task];
      c := c.(allocations := c.allocations - {task});
      var node := c.nodes[n];
      node := node.(usedCpu := node.usedCpu - cpu);
      node := node.(usedMemory := node.usedMemory - memory);
      c := c.(nodes := c.nodes[n := node]);
    }
  }

  // ----- the books -----

  datatype Lease = Lease(task: Id, node: Id, cpu: real, memory: real)

  /** The `live` leases can still be released. `residue` is what else a node is charged with: a
      lease whose task id was allocated again, what a release gave back too little or, negative,
      too much, and what was forgotten, negative, when a node was added under an id in use. */
  datatype Ledger = Ledger(live: seq<Lease>, residue: seq<Lease>)

  const NOTHING_LEASED := Ledger([], [])

  ghost function CpuOn(s: seq<Lease>, n: Id): real {
    if s == [] then 0.0 else CpuOn(s[..|s| - 1], n) + (if s[|s| - 1].node == n then s[|s| - 1].cpu else 0.0)
  }

  ghost function MemoryOn(s: seq<Lease>, n: Id): real {
    if s == [] then 0.0 else MemoryOn(s[..|s| - 1], n) + (if s[|s| - 1].node == n then s[|s| - 1].memory else 0.0)
  }

  ghost predicate OneLeasePerTask(s: seq<Lease>) {
    forall i, k :: 0 <= i < k < |s| ==> s[i].task != s[k].task
  }

  /** Every node's usage is exactly the leases and the residue there. */
  ghost predicate Books(c: Cluster, l: Ledger) {
    && (forall n :: n in c.nodes ==> Balanced(c.nodes[n], n, l))
    && Tracks(c, l)
  }

  ghost predicate Tracks(c: Cluster, l: Ledger) {
    && (forall x :: x in l.live ==> x.node in c.nodes)
    && (forall x :: x in l.residue ==> x.node in c.nodes)
    && OneLeasePerTask(l.live)
    && (forall x :: x in l.live ==> x.task in c.allocations && c.allocations[x.task] == x.node)
    && (forall t :: t in c.allocations ==> exists x :: x in l.live && x.task == t)
  }

  ghost predicate Balanced(node: Node, n: Id, l: Ledger) {
    && node.usedCpu == CpuOn(l.live, n) + CpuOn(l.residue, n)
    && node.usedMemory == MemoryOn(l.live, n) + MemoryOn(l.residue, n)
  }

  /** Usage is never negative and never above capacity, and no charge is negative. */
  ghost predicate Bounded(c: Cluster, l: Ledger) {
    && (forall n :: n in c.nodes ==> Within(c.nodes[n]))
    && NonNegative(l.live) && NonNegative(l.residue)
  }

  predicate Within(node: Node) {
    0.0 <= node.usedCpu <= node.totalCpu && 0.0 <= node.usedMemory <= node.totalMemory
  }

  ghost predicate NonNegative(s: seq<Lease>) {
    forall x :: x in s ==> x.cpu >= 0.0 && x.memory >= 0.0
  }

  datatype Event =
    | NodeAdded(n: Id, cpu: real, memory: real)
    | Allocated(task: Id, n: Id, cpu: real, memory: real)
    | Released(task: Id, cpu: real, memory: real)

  function Step(c: Cluster, e: Event): Cluster {
    match e
    case NodeAdded(n, cpu, memory) => WithNode(c, n, cpu, memory)
    case Allocated(task, n, cpu, memory) =>
      if n in c.nodes && c.nodes[n].Fits(cpu, memory) then Take(c, n, task, cpu, memory) else c
    case Released(task, cpu, memory) => Release(c, task, cpu, memory)
  }

  /** New nodes, requests of at least nothing, and releases of what was leased. */
  ghost predicate Proper(c: Cluster, l: Ledger, e: Event) {
    match e
    case NodeAdded(n, cpu, memory) => n !in c.nodes && cpu >= 0.0 && memory >= 0.0
    case Allocated(_, _, cpu, memory) => cpu >= 0.0 && memory >= 0.0
    case Released(task, cpu, memory) =>
      forall x :: x in l.live && x.task == task ==> x.cpu == cpu && x.memory == memory
  }

  /** Where the live lease of a task is, or past the end. */
  ghost function Position(s: seq<Lease>, task: Id): (i: nat)
    ensures i <= |s| && (i < |s| ==> s[i].task == task)
    ensures forall k :: 0 <= k < i ==> s[k].task != task
  {
    if s == [] then 0
    else if s[0].task == task then 0
    else
      var rest := Position(s[1..], task);
      assert forall k :: 1 <= k < rest + 1 ==> s[k] == s[1..][k - 1];
      rest + 1
  }

  ghost function RemoveAt(s: seq<Lease>, i: nat): seq<Lease> {
    if i < |s| then s[..i] + s[i + 1..] else s
  }

  /** What a release leaves of a lease. */
  function Shortfall(x: Lease, cpu: real, memory: real): Lease {
    x.(cpu := x.cpu - cpu, memory := x.memory - memory)
  }

  ghost function Book(c: Cluster, l: Ledger, e: Event): Ledger {
    match e
    case NodeAdded(n, _, _) =>
      if n in c.nodes then l.(residue := l.residue + [Lease("", n, -c.nodes[n].usedCpu, -c.nodes[n].usedMemory)]) else l
    case Allocated(task, n, cpu, memory) =>
      if n in c.nodes && c.nodes[n].Fits(cpu, memory) then
        var i := Position(l.live, task);
        Ledger(RemoveAt(l.live, i) + [Lease(task, n, cpu, memory)],
               if i < |l.live| then l.residue + [l.live[i]] else l.residue)
      else l
    case Released(task, cpu, memory) =>
      var i := Position(l.live, task);
      if i < |l.live| then Ledger(RemoveAt(l.live, i), l.residue + [Shortfall(l.live[i], cpu, memory)]) else l
  }

  lemma {:induction false} SumsAppend(s: seq<Lease>, t: seq<Lease>, n: Id)
    ensures CpuOn(s + t, n) == CpuOn(s, n) + CpuOn(t, n)
    ensures MemoryOn(s + t, n) == MemoryOn(s, n) + MemoryOn(t, n)
    decreases |t|
  {
    if t == [] {
      assert s + t == s;
    } else {
      assert (s + t)[..|s + t| - 1] == s + t[..|t| - 1];
      SumsAppend(s, t[..|t| - 1], n);
    }
  }

  lemma SumsSingle(x: Lease, n: Id)
    ensures CpuOn([x], n) == (if x.node == n then x.cpu else 0.0)
    ensures MemoryOn([x], n) == (if x.node == n then x.memory else 0.0)
  {
    assert [x][..0] == [];
  }

  lemma SumsRemove(s: seq<Lease>, i: nat, n: Id)
    requires i < |s|
    ensures CpuOn(s, n) == CpuOn(RemoveAt(s, i), n) + CpuOn([s[i]], n)
    ensures MemoryOn(s, n) == MemoryOn(RemoveAt(s, i), n) + MemoryOn([s[i]], n)
  {
    assert s == s[..i] + ([s[i]] + s[i + 1..]);
    SumsAppend(s[..i], [s[i]] + s[i + 1..], n);
    SumsAppend([s[i]], s[i + 1..], n);
    SumsAppend(s[..i], s[i + 1..], n);
  }

  lemma {:induction false} SumsNonNegative(s: seq<Lease>, n: Id)
    requires NonNegative(s)
    ensures CpuOn(s, n) >= 0.0 && MemoryOn(s, n) >= 0.0
    decreases |s|
  {
    if s != [] {
      assert s[|s| - 1] in s;
      SumsNonNegative(s[..|s| - 1], n);
    }
  }

  lemma {:induction false} SumsElsewhere(s: seq<Lease>, n: Id)
    requires forall x :: x in s ==> x.node != n
    ensures CpuOn(s, n) == 0.0 && MemoryOn(s, n) == 0.0
    decreases |s|
  {
    if s != [] {
      assert s[|s| - 1] in s;
      SumsElsewhere(s[..|s| - 1], n);
    }
  }

  lemma RemovedAt(s: seq<Lease>, i: nat, k: nat)
    requires i < |s| && k < |s| - 1
    ensures RemoveAt(s, i)[k] == s[if k < i then k else k + 1]
  {
  }

  lemma RemovedDistinct(s: seq<Lease>, i: nat)
    requires OneLeasePerTask(s)
    ensures OneLeasePerTask(RemoveAt(s, i))
  {
    var r := RemoveAt(s, i);
    if i < |s| {
      forall a, b | 0 <= a < b < |r| ensures r[a].task != r[b].task {
        RemovedAt(s, i, a);
        RemovedAt(s, i, b);
      }
    }
  }

  lemma RemovedSubset(s: seq<Lease>, task: Id, x: Lease)
    requires OneLeasePerTask(s) && x in RemoveAt(s, Position(s, task))
    ensures x in s && x.task != task
  {
    var i := Position(s, task);
    var r := RemoveAt(s, i);
    var k :| 0 <= k < |r| && r[k] == x;
    if i < |s| {
      RemovedAt(s, i, k);
    }
  }

  lemma RemovedKeeps(s: seq<Lease>, task: Id, x: Lease)
    requires x in s && x.task != task
    ensures x in RemoveAt(s, Position(s, task))
  {
    var i := Position(s, task);
    if i < |s| {
      var k :| 0 <= k < |s| && s[k] == x;
      RemovedAt(s, i, if k < i then k else k - 1);
    }
  }

  lemma RemovedMembers(s: seq<Lease>, task: Id)
    requires OneLeasePerTask(s)
    ensures var r := RemoveAt(s, Position(s, task));
            && OneLeasePerTask(r)
            && forall x :: x in r <==> x in s && x.task != task
  {
    var r := RemoveAt(s, Position(s, task));
    RemovedDistinct(s, Position(s, task));
    forall x ensures x in r <==> x in s && x.task != task {
      if x in r {
        RemovedSubset(s, task, x);
      }
      if x in s && x.task != task {
        RemovedKeeps(s, task, x);
      }
    }
  }

  lemma AddNodeBalanced(c: Cluster, l: Ledger, n: Id, cpu: real, memory: real, m: Id)
    requires Books(c, l) && m in WithNode(c, n, cpu, memory).nodes
    ensures Balanced(WithNode(c, n, cpu, memory).nodes[m], m, Book(c, l, NodeAdded(n, cpu, memory)))
  {
    if n in c.nodes {
      var reset := Lease("", n, -c.nodes[n].usedCpu, -c.nodes[n].usedMemory);
      assert Balanced(c.nodes[m], m, l);
      SumsAppend(l.residue, [reset], m);
      SumsSingle(reset, m);
    } else if m == n {
      SumsElsewhere(l.live, n);
      SumsElsewhere(l.residue, n);
    } else {
      assert Balanced(c.nodes[m], m, l);
    }
  }

  lemma AddNodeBooks(c: Cluster, l: Ledger, n: Id, cpu: real, memory: real)
    requires Books(c, l)
    ensures Books(WithNode(c, n, cpu, memory), Book(c, l, NodeAdded(n, cpu, memory)))
  {
    var c', l' := WithNode(c, n, cpu, memory), Book(c, l, NodeAdded(n, cpu, memory));
    forall m | m in c'.nodes ensures Balanced(c'.nodes[m], m, l') {
      AddNodeBalanced(c, l, n, cpu, memory, m);
    }
  }

  lemma TakeBalanced(c: Cluster, l: Ledger, task: Id, n: Id, cpu: real, memory: real, m: Id)
    requires n in c.nodes && c.nodes[n].Fits(cpu, memory)
    requires m in c.nodes && Balanced(c.nodes[m], m, l)
    ensures Balanced(Take(c, n, task, cpu, memory).nodes[m], m, Book(c, l, Allocated(task, n, cpu, memory)))
  {
    var x := Lease(task, n, cpu, memory);
    var i := Position(l.live, task);
    SumsAppend(RemoveAt(l.live, i), [x], m);
    SumsSingle(x, m);
    if i < |l.live| {
      SumsRemove(l.live, i, m);
      SumsAppend(l.residue, [l.live[i]], m);
    }
  }

  /** The leases after an allocation: the new one and those of the other tasks. */
  lemma TakeLive(c: Cluster, l: Ledger, task: Id, n: Id, cpu: real, memory: real)
    requires OneLeasePerTask(l.live) && n in c.nodes && c.nodes[n].Fits(cpu, memory)
    ensures var l', x := Book(c, l, Allocated(task, n, cpu, memory)), Lease(task, n, cpu, memory);
            && OneLeasePerTask(l'.live)
            && (forall y :: y in l'.live <==> y == x || (y in l.live && y.task != task))
            && (forall y :: y in l'.residue ==> y in l.residue || y in l.live)
  {
    var kept := RemoveAt(l.live, Position(l.live, task));
    RemovedMembers(l.live, task);
    assert forall k :: 0 <= k < |kept| ==> kept[k] in kept;
  }

  lemma TakeTracks(c: Cluster, l: Ledger, task: Id, n: Id, cpu: real, memory: real)
    requires Tracks(c, l) && n in c.nodes && c.nodes[n].Fits(cpu, memory)
    ensures Tracks(Take(c, n, task, cpu, memory), Book(c, l, Allocated(task, n, cpu, memory)))
  {
    var l' := Book(c, l, Allocated(task, n, cpu, memory));
    var c' := Take(c, n, task, cpu, memory);
    TakeLive(c, l, task, n, cpu, memory);
    forall t | t in c'.allocations ensures exists y :: y in l'.live && y.task == t {
      if t == task {
        assert Lease(task, n, cpu, memory) in l'.live;
      } else {
        var y :| y in l.live && y.task == t;
        assert y in l'.live;
      }
    }
  }

  lemma TakeBooks(c: Cluster, l: Ledger, task: Id, n: Id, cpu: real, memory: real)
    requires Books(c, l) && n in c.nodes && c.nodes[n].Fits(cpu, memory)
    ensures Books(Take(c, n, task, cpu, memory), Book(c, l, Allocated(task, n, cpu, memory)))
  {
    TakeTracks(c, l, task, n, cpu, memory);
    forall m | m in c.nodes
      ensures Balanced(Take(c, n, task, cpu, memory).nodes[m], m, Book(c, l, Allocated(task, n, cpu, memory)))
    {
      TakeBalanced(c, l, task, n, cpu, memory, m);
    }
  }

  lemma ReleaseBalanced(c: Cluster, l: Ledger, task: Id, cpu: real, memory: real, m: Id)
    requires Tracks(c, l) && m in c.nodes && Balanced(c.nodes[m], m, l)
    requires Position(l.live, task) < |l.live|
    ensures Balanced(Release(c, task, cpu, memory).nodes[m], m, Book(c, l, Released(task, cpu, memory)))
  {
    var x := l.live[Position(l.live, task)];
    var rest := Shortfall(x, cpu, memory);
    assert x in l.live;
    SumsRemove(l.live, Position(l.live, task), m);
    SumsSingle(x, m);
    SumsAppend(l.residue, [rest], m);
    SumsSingle(rest, m);
  }

  lemma ReleaseTracks(c: Cluster, l: Ledger, task: Id, cpu: real, memory: real)
    requires Tracks(c, l) && Position(l.live, task) < |l.live|
    ensures Tracks(Release(c, task, cpu, memory), Book(c, l, Released(task, cpu, memory)))
  {
    var l' := Book(c, l, Released(task, cpu, memory));
    var c' := Release(c, task, cpu, memory);
    assert l.live[Position(l.live, task)] in l.live;
    RemovedMembers(l.live, task);
    assert forall y :: y in l'.live <==> y in l.live && y.task != task;
    forall t | t in c'.allocations ensures exists y :: y in l'.live && y.task == t {
      var y :| y in l.live && y.task == t;
      assert y in l'.live;
    }
  }

  lemma ReleaseBooks(c: Cluster, l: Ledger, task: Id, cpu: real, memory: real)
    requires Books(c, l)
    ensures Books(Release(c, task, cpu, memory), Book(c, l, Released(task, cpu, memory)))
  {
    LiveIffAllocated(c, l, task);
    if Position(l.live, task) < |l.live| {
      ReleaseTracks(c, l, task, cpu, memory);
      forall m | m in c.nodes
        ensures Balanced(Release(c, task, cpu, memory).nodes[m], m, Book(c, l, Released(task, cpu, memory)))
      {
        ReleaseBalanced(c, l, task, cpu, memory, m);
      }
    }
  }

  lemma LiveIffAllocated(c: Cluster, l: Ledger, task: Id)
    requires Tracks(c, l)
    ensures Position(l.live, task) < |l.live| <==> task in c.allocations
  {
    var i := Position(l.live, task);
    if task in c.allocations {
      var y :| y in l.live && y.task == task;
      var k :| 0 <= k < |l.live| && l.live[k] == y;
    }
    if i < |l.live| {
      assert l.live[i] in l.live;
    }
  }

  /** Every event keeps the books. */
  lemma StepBooks(c: Cluster, l: Ledger, e: Event)
    requires Books(c, l)
    ensures Books(Step(c, e), Book(c, l, e))
  {
    match e {
      case NodeAdded(n, cpu, memory) => AddNodeBooks(c, l, n, cpu, memory);
      case Allocated(task, n, cpu, memory) =>
        if n in c.nodes && c.nodes[n].Fits(cpu, memory) {
          TakeBooks(c, l, task, n, cpu, memory);
        }
      case Released(task, cpu, memory) => ReleaseBooks(c, l, task, cpu, memory);
    }
  }

  ghost function Exec(c: Cluster, es: seq<Event>): Cluster
    decreases |es|
  {
    if es == [] then c else Exec(Step(c, es[0]), es[1..])
  }

  ghost function ExecBook(c: Cluster, l: Ledger, es: seq<Event>): Ledger
    decreases |es|
  {
    if es == [] then l else ExecBook(Step(c, es[0]), Book(c, l, es[0]), es[1..])
  }

  /** In every history, each node's usage is exactly the leases and the residue on it, a task is
      tracked exactly when it has a lease, on the node of that lease, and residue is never
      recovered. */
  lemma {:induction false} BooksBalance(c: Cluster, l: Ledger, es: seq<Event>)
    requires Books(c, l)
    ensures Books(Exec(c, es), ExecBook(c, l, es))
    ensures l.residue <= ExecBook(c, l, es).residue
    decreases |es|
  {
    if es != [] {
      StepBooks(c, l, es[0]);
      ResidueStays(c, l, es[0]);
      BooksBalance(Step(c, es[0]), Book(c, l, es[0]), es[1..]);
    }
  }

  lemma ResidueStays(c: Cluster, l: Ledger, e: Event)
    ensures l.residue <= Book(c, l, e).residue
  {
  }

  // ----- proper histories -----

  ghost predicate ProperRun(c: Cluster, l: Ledger, es: seq<Event>)
    decreases |es|
  {
    es != [] ==> Proper(c, l, es[0]) && ProperRun(Step(c, es[0]), Book(c, l, es[0]), es[1..])
  }

  lemma ReleaseBounded(c: Cluster, l: Ledger, task: Id, cpu: real, memory: real)
    requires Books(c, l) && Bounded(c, l) && Proper(c, l, Released(task, cpu, memory))
    requires Position(l.live, task) < |l.live|
    ensures Bounded(Release(c, task, cpu, memory), Book(c, l, Released(task, cpu, memory)))
  {
    var c', l' := Release(c, task, cpu, memory), Book(c, l, Released(task, cpu, memory));
    assert l.live[Position(l.live, task)] in l.live;
    RemovedMembers(l.live, task);
    assert NonNegative(l'.live) && NonNegative(l'.residue);
    forall m | m in c'.nodes ensures Within(c'.nodes[m]) {
      ReleaseBalanced(c, l, task, cpu, memory, m);
      SumsNonNegative(l'.live, m);
      SumsNonNegative(l'.residue, m);
      assert Within(c.nodes[m]);
    }
  }

  lemma StepBounded(c: Cluster, l: Ledger, e: Event)
    requires Books(c, l) && Bounded(c, l) && Proper(c, l, e)
    ensures Bounded(Step(c, e), Book(c, l, e))
  {
    match e {
      case NodeAdded(n, cpu, memory) =>
      case Allocated(task, n, cpu, memory) =>
        if n in c.nodes && c.nodes[n].Fits(cpu, memory) {
          TakeLive(c, l, task, n, cpu, memory);
          assert Within(c.nodes[n]);
        }
      case Released(task, cpu, memory) =>
        LiveIffAllocated(c, l, task);
        if Position(l.live, task) < |l.live| {
          ReleaseBounded(c, l, task, cpu, memory);
        }
    }
  }

  /** In every proper history usage stays between nothing and capacity. */
  lemma {:induction false} WithinCapacity(c: Cluster, l: Ledger, es: seq<Event>)
    requires Books(c, l) && Bounded(c, l) && ProperRun(c, l, es)
    ensures Bounded(Exec(c, es), ExecBook(c, l, es))
    decreases |es|
  {
    if es != [] {
      StepBooks(c, l, es[0]);
      StepBounded(c, l, es[0]);
      WithinCapacity(Step(c, es[0]), Book(c, l, es[0]), es[1..]);
    }
  }

  /** Every node is charged with its tracked leases and nothing else. */
  ghost predicate ChargesAreTracked(c: Cluster, l: Ledger) {
    forall n :: n in c.nodes ==> c.nodes[n].usedCpu == CpuOn(l.live, n) && c.nodes[n].usedMemory == MemoryOn(l.live, n)
  }

  ghost predicate AllFree(s: seq<Lease>) {
    forall x :: x in s ==> x.cpu == 0.0 && x.memory == 0.0
  }

  /** The live lease that a successful allocation overwrites is of nothing. */
  ghost predicate OverwritesNothing(c: Cluster, l: Ledger, e: Event) {
    e.Allocated? && e.n in c.nodes && c.nodes[e.n].Fits(e.cpu, e.memory) ==>
      forall x :: x in l.live && x.task == e.task ==> x.cpu == 0.0 && x.memory == 0.0
  }

  ghost predicate NeverOverwrites(c: Cluster, l: Ledger, es: seq<Event>)
    decreases |es|
  {
    es != [] ==> OverwritesNothing(c, l, es[0]) && NeverOverwrites(Step(c, es[0]), Book(c, l, es[0]), es[1..])
  }

  lemma StepFreeIff(c: Cluster, l: Ledger, e: Event)
    requires Books(c, l) && Proper(c, l, e)
    ensures AllFree(Book(c, l, e).residue) <==> AllFree(l.residue) && OverwritesNothing(c, l, e)
  {
    var r, r' := l.residue, Book(c, l, e).residue;
    if !e.NodeAdded? {
      var i := Position(l.live, e.task);
      if i < |l.live| {
        assert l.live[i] in l.live;
        assert forall x :: x in l.live && x.task == e.task ==> x == l.live[i];
        if r' != r {
          var last := r'[|r|];
          assert r' == r + [last];
          assert last in r' && forall x :: x in r' <==> x in r || x == last;
        }
      }
    }
  }

  lemma {:induction false} RunFreeIff(c: Cluster, l: Ledger, es: seq<Event>)
    requires Books(c, l) && ProperRun(c, l, es)
    ensures AllFree(ExecBook(c, l, es).residue) <==> AllFree(l.residue) && NeverOverwrites(c, l, es)
    decreases |es|
  {
    if es != [] {
      StepBooks(c, l, es[0]);
      StepFreeIff(c, l, es[0]);
      RunFreeIff(Step(c, es[0]), Book(c, l, es[0]), es[1..]);
    }
  }

  lemma {:induction false} SumsFree(s: seq<Lease>, n: Id)
    requires AllFree(s)
    ensures CpuOn(s, n) == 0.0 && MemoryOn(s, n) == 0.0
    decreases |s|
  {
    if s != [] {
      assert s[|s| - 1] in s;
      SumsFree(s[..|s| - 1], n);
    }
  }

  lemma SumsCover(s: seq<Lease>, i: nat)
    requires NonNegative(s) && i < |s|
    ensures CpuOn(s, s[i].node) >= s[i].cpu && MemoryOn(s, s[i].node) >= s[i].memory
  {
    SumsRemove(s, i, s[i].node);
    SumsSingle(s[i], s[i].node);
    SumsNonNegative(RemoveAt(s, i), s[i].node);
  }

  /** With no negative charge, usage is the tracked leases exactly when the residue is of
      nothing. */
  lemma TrackedIffFree(c: Cluster, l: Ledger)
    requires Books(c, l) && Bounded(c, l)
    ensures ChargesAreTracked(c, l) <==> AllFree(l.residue)
  {
    if AllFree(l.residue) {
      forall n | n in c.nodes ensures c.nodes[n].usedCpu == CpuOn(l.live, n) && c.nodes[n].usedMemory == MemoryOn(l.live, n) {
        assert Balanced(c.nodes[n], n, l);
        SumsFree(l.residue, n);
      }
    }
    if ChargesAreTracked(c, l) {
      forall i | 0 <= i < |l.residue| ensures l.residue[i].cpu == 0.0 && l.residue[i].memory == 0.0 {
        var x := l.residue[i];
        assert x in l.residue && Balanced(c.nodes[x.node], x.node, l);
        SumsCover(l.residue, i);
      }
    }
  }

  lemma NothingLeased()
    ensures Books(EMPTY, NOTHING_LEASED) && Bounded(EMPTY, NOTHING_LEASED)
  {
  }

  /** After a proper history from an empty cluster, every node is charged with its tracked leases
      and nothing else exactly when no allocation overwrote a live lease of more than nothing. */
  lemma LeakFreeIff(es: seq<Event>)
    requires ProperRun(EMPTY, NOTHING_LEASED, es)
    ensures ChargesAreTracked(Exec(EMPTY, es), ExecBook(EMPTY, NOTHING_LEASED, es))
       <==> NeverOverwrites(EMPTY, NOTHING_LEASED, es)
  {
    NothingLeased();
    BooksBalance(EMPTY, NOTHING_LEASED, es);
    WithinCapacity(EMPTY, NOTHING_LEASED, es);
    RunFreeIff(EMPTY, NOTHING_LEASED, es);
    TrackedIffFree(Exec(EMPTY, es), ExecBook(EMPTY, NOTHING_LEASED, es));
  }

  /** Whatever the proper history, usage stays between nothing and capacity and covers the tracked
      leases. */
  lemma UsageCoversTracked(es: seq<Event>, n: Id)
    requires ProperRun(EMPTY, NOTHING_LEASED, es) && n in Exec(EMPTY, es).nodes
    ensures var node, l := Exec(EMPTY, es).nodes[n], ExecBook(EMPTY, NOTHING_LEASED, es);
            Within(node) && node.usedCpu >= CpuOn(l.live, n) && node.usedMemory >= MemoryOn(l.live, n)
  {
    NothingLeased();
    BooksBalance(EMPTY, NOTHING_LEASED, es);
    WithinCapacity(EMPTY, NOTHING_LEASED, es);
    var c, l := Exec(EMPTY, es), ExecBook(EMPTY, NOTHING_LEASED, es);
    assert Balanced(c.nodes[n], n, l) && Within(c.nodes[n]);
    SumsNonNegative(l.residue, n);
  }

  lemma RunCons(c: Cluster, l: Ledger, e: Event, es: seq<Event>)
    ensures Exec(c, [e] + es) == Exec(Step(c, e), es)
    ensures ExecBook(c, l, [e] + es) == ExecBook(Step(c, e), Book(c, l, e), es)
    ensures ProperRun(c, l, [e] + es) <==> Proper(c, l, e) && ProperRun(Step(c, e), Book(c, l, e), es)
  {
    assert ([e] + es)[1..] == es;
  }

  /** One node with room for two leases of a size, of which so much is used. */
  function OneNode(n: Id, cpu: real, memory: real, usedCpu: real, usedMemory: real, allocations: map<Id, Id>): Cluster {
    Cluster([n], map[n := Node(cpu + cpu, memory + memory, usedCpu, usedMemory)], allocations)
  }

  lemma TakeOnOneNode(n: Id, task: Id, cpu: real, memory: real, usedCpu: real, usedMemory: real, allocations: map<Id, Id>)
    requires usedCpu <= cpu && usedMemory <= memory
    ensures Step(OneNode(n, cpu, memory, usedCpu, usedMemory, allocations), Allocated(task, n, cpu, memory))
         == OneNode(n, cpu, memory, usedCpu + cpu, usedMemory + memory, allocations[task := n])
  {
    var c := OneNode(n, cpu, memory, usedCpu, usedMemory, allocations);
    assert c.nodes[n].Fits(cpu, memory);
    assert Take(c, n, task, cpu, memory).nodes
        == OneNode(n, cpu, memory, usedCpu + cpu, usedMemory + memory, allocations[task := n]).nodes;
  }

  lemma BookFirst(c: Cluster, l: Ledger, x: Lease)
    requires x.node in c.nodes && c.nodes[x.node].Fits(x.cpu, x.memory) && l.live == []
    ensures Book(c, l, Allocated(x.task, x.node, x.cpu, x.memory)) == Ledger([x], l.residue)
  {
  }

  lemma BookAgain(c: Cluster, l: Ledger, x: Lease)
    requires x.node in c.nodes && c.nodes[x.node].Fits(x.cpu, x.memory) && l.live == [x]
    ensures Book(c, l, Allocated(x.task, x.node, x.cpu, x.memory)) == Ledger([x], l.residue + [x])
  {
    assert Position(l.live, x.task) == 0;
  }

  lemma ReleaseLast(n: Id, task: Id, cpu: real, memory: real)
    ensures Release(OneNode(n, cpu, memory, cpu + cpu, memory + memory, map[task := n]), task, cpu, memory)
         == OneNode(n, cpu, memory, cpu, memory, map[])
  {
    var c := OneNode(n, cpu, memory, cpu + cpu, memory + memory, map[task := n]);
    assert Release(c, task, cpu, memory).nodes == OneNode(n, cpu, memory, cpu, memory, map[]).nodes;
    assert Release(c, task, cpu, memory).allocations == map[];
  }

  lemma RunOfThree(c: Cluster, l: Ledger, e0: Event, e1: Event, e2: Event)
    ensures var c1, l1 := Step(c, e0), Book(c, l, e0);
            var c2, l2 := Step(c1, e1), Book(c1, l1, e1);
            var es := [e0] + ([e1] + ([e2] + []));
            && Exec(c, es) == Step(c2, e2) && ExecBook(c, l, es) == Book(c2, l2, e2)
            && (ProperRun(c, l, es) <==> Proper(c, l, e0) && Proper(c1, l1, e1) && Proper(c2, l2, e2))
  {
    var c1, l1 := Step(c, e0), Book(c, l, e0);
    var c2, l2 := Step(c1, e1), Book(c1, l1, e1);
    RunCons(c2, l2, e2, []);
    RunCons(c1, l1, e1, [e2] + []);
    RunCons(c, l, e0, [e1] + ([e2] + []));
  }

  lemma FirstNode(n: Id, cpu: real, memory: real)
    ensures Step(EMPTY, NodeAdded(n, cpu + cpu, memory + memory)) == OneNode(n, cpu, memory, 0.0, 0.0, map[])
    ensures Book(EMPTY, NOTHING_LEASED, NodeAdded(n, cpu + cpu, memory + memory)) == NOTHING_LEASED
  {
    var c := Step(EMPTY, NodeAdded(n, cpu + cpu, memory + memory));
    assert c.order == [n];
    assert c.nodes == map[n := Node(cpu + cpu, memory + memory, 0.0, 0.0)];
  }

  lemma FirstLease(n: Id, task: Id, cpu: real, memory: real)
    requires cpu >= 0.0 && memory >= 0.0
    ensures Step(OneNode(n, cpu, memory, 0.0, 0.0, map[]), Allocated(task, n, cpu, memory))
         == OneNode(n, cpu, memory, cpu, memory, map[task := n])
    ensures Book(OneNode(n, cpu, memory, 0.0, 0.0, map[]), NOTHING_LEASED, Allocated(task, n, cpu, memory))
         == Ledger([Lease(task, n, cpu, memory)], [])
  {
    TakeOnOneNode(n, task, cpu, memory, 0.0, 0.0, map[]);
    BookFirst(OneNode(n, cpu, memory, 0.0, 0.0, map[]), NOTHING_LEASED, Lease(task, n, cpu, memory));
  }

  lemma SecondLease(n: Id, task: Id, cpu: real, memory: real)
    ensures Step(OneNode(n, cpu, memory, cpu, memory, map[task := n]), Allocated(task, n, cpu, memory))
         == OneNode(n, cpu, memory, cpu + cpu, memory + memory, map[task := n])
    ensures var c, x := OneNode(n, cpu, memory, cpu, memory, map[task := n]), Lease(task, n, cpu, memory);
            Book(c, Ledger([x], []), Allocated(task, n, cpu, memory)).live == [x]
  {
    var x := Lease(task, n, cpu, memory);
    TakeOnOneNode(n, task, cpu, memory, cpu, memory, map[task := n]);
    BookAgain(OneNode(n, cpu, memory, cpu, memory, map[task := n]), Ledger([x], []), x);
  }

  /** Allocating under an id in use leaks: the node is charged twice, the tracked lease is one, and
      its release leaves the other charge with no task to release it. */
  lemma ReuseLeaks(n: Id, task: Id, cpu: real, memory: real)
    requires cpu >= 0.0 && memory >= 0.0
    ensures var e := Allocated(task, n, cpu, memory);
            var es := [NodeAdded(n, cpu + cpu, memory + memory)] + ([e] + ([e] + []));
            var c, l := Exec(EMPTY, es), ExecBook(EMPTY, NOTHING_LEASED, es);
            && ProperRun(EMPTY, NOTHING_LEASED, es)
            && c == OneNode(n, cpu, memory, cpu + cpu, memory + memory, map[task := n])
            && CpuOn(l.live, n) == cpu && MemoryOn(l.live, n) == memory
            && Release(c, task, cpu, memory) == OneNode(n, cpu, memory, cpu, memory, map[])
  {
    var e := Allocated(task, n, cpu, memory);
    FirstNode(n, cpu, memory);
    FirstLease(n, task, cpu, memory);
    SecondLease(n, task, cpu, memory);
    RunOfThree(EMPTY, NOTHING_LEASED, NodeAdded(n, cpu + cpu, memory + memory), e, e);
    ReleaseLast(n, task, cpu, memory);
    SumsSingle(Lease(task, n, cpu, memory), n);
  }

  /** Adding a node under an id in use forgets its usage: the same leases and residue still account
      for the cluster exactly when nothing was charged there. */
  lemma ReAddNodeIff(c: Cluster, l: Ledger, n: Id, cpu: real, memory: real)
    requires Books(c, l) && n in c.nodes
    ensures Books(WithNode(c, n, cpu, memory), l) <==> c.nodes[n].usedCpu == 0.0 && c.nodes[n].usedMemory == 0.0
  {
    var c' := WithNode(c, n, cpu, memory);
    assert Balanced(c.nodes[n], n, l);
    if c.nodes[n].usedCpu == 0.0 && c.nodes[n].usedMemory == 0.0 {
      forall m | m in c'.nodes ensures Balanced(c'.nodes[m], m, l) {
        assert Balanced(c.nodes[m], m, l);
      }
    } else {
      assert !Balanced(c'.nodes[n], n, l);
    }
  }
}
