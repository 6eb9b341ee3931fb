/** Directed graphs over named tasks, given by adjacency lists. An edge from x to y says
    "x depends on y". */
module Graphs {
  type Name = string
  type Adj = map<Name, seq<Name>>

  predicate Edge(a: Adj, x: Name, y: Name) {
    x in a && y in a[x]
  }

  ghost predicate Walk(a: Adj, p: seq<Name>) {
    p != [] && forall i :: 0 <= i < |p| - 1 ==> Edge(a, p[i], p[i + 1])
  }

  ghost predicate WalkBetween(a: Adj, p: seq<Name>, x: Name, y: Name) {
    Walk(a, p) && p[0] == x && p[|p| - 1] == y
  }

  /** y can be reached from x along zero or more edges. */
  ghost predicate Reaches(a: Adj, x: Name, y: Name) {
    exists p :: WalkBetween(a, p, x, y)
  }

  /** p leaves its first node along at least one edge and comes back to it. */
  ghost predicate ClosedWalk(a: Adj, p: seq<Name>) {
    Walk(a, p) && |p| >= 2 && p[0] == p[|p| - 1]
  }

  ghost predicate Cyclic(a: Adj) {
    exists p :: ClosedWalk(a, p)
  }

  /** n leads, along zero or more edges, into a cycle. */
  ghost predicate LeadsToCycle(a: Adj, n: Name) {
    exists p, c :: ClosedWalk(a, c) && WalkBetween(a, p, n, c[0])
  }

  predicate Distinct(s: seq<Name>) {
    forall i, k :: 0 <= i < k < |s| ==> s[i] != s[k]
  }

  function Elements(s: seq<Name>): set<Name> {
    set x | x in s
  }

  /** Every edge that leaves an element of s ends at an earlier element: s lists
      dependencies before dependents. */
  ghost predicate DependenciesFirst(a: Adj, s: seq<Name>) {
    forall i, y :: 0 <= i < |s| && Edge(a, s[i], y) ==> y in s[..i]
  }

  lemma {:induction false} DistinctCount(s: seq<Name>)
    requires Distinct(s)
    ensures |Elements(s)| == |s|
  {
    if s != [] {
      var n := |s| - 1;
      DistinctCount(s[..n]);
      assert Elements(s) == Elements(s[..n]) + {s[n]};
    }
  }

  lemma DistinctBound(s: seq<Name>, within: set<Name>)
    requires Distinct(s)
    requires forall x :: x in s ==> x in within
    ensures |s| <= |within|
    ensures |s| == |within| ==> Elements(s) == within
  {
    DistinctCount(s);
    SubsetCount(Elements(s), within);
  }

  lemma SubsetCount(small: set<Name>, big: set<Name>)
    requires small <= big
    ensures |small| <= |big|
    ensures |small| == |big| ==> small == big
  {
    assert big == small + (big - small);
    assert |big| == |small| + |big - small|;
  }

  lemma WalkJoin(a: Adj, p: seq<Name>, q: seq<Name>)
    requires Walk(a, p) && Walk(a, q)
    requires p[|p| - 1] == q[0]
    ensures WalkBetween(a, p + q[1..], p[0], q[|q| - 1])
  {
    var r := p + q[1..];
    forall i | 0 <= i < |r| - 1
      ensures Edge(a, r[i], r[i + 1])
    {
      if i < |p| - 1 {
        assert Edge(a, p[i], p[i + 1]);
      } else {
        assert r[i] == q[i - |p| + 1] && r[i + 1] == q[i - |p| + 2];
      }
    }
  }

  lemma WalkSuffix(a: Adj, p: seq<Name>, i: nat)
    requires Walk(a, p) && i < |p|
    ensures Walk(a, p[i..])
  {
    var q := p[i..];
    forall k | 0 <= k < |q| - 1
      ensures Edge(a, q[k], q[k + 1])
    {
      assert q[k] == p[i + k] && q[k + 1] == p[i + k + 1];
    }
  }

  lemma ReachesRefl(a: Adj, x: Name)
    ensures Reaches(a, x, x)
  {
    assert WalkBetween(a, [x], x, x);
  }

  /** An edge back from the end of a walk to its start closes a cycle. */
  lemma EdgeBackMakesCycle(a: Adj, x: Name, y: Name)
    requires Edge(a, x, y) && Reaches(a, y, x)
    ensures Cyclic(a) && LeadsToCycle(a, x)
  {
    var p :| WalkBetween(a, p, y, x);
    assert Walk(a, [x, y]);
    WalkJoin(a, [x, y], p);
    var c := [x, y] + p[1..];
    assert ClosedWalk(a, c);
    assert WalkBetween(a, [x], x, c[0]);
  }

  /** A node that leads to a cycle has a successor that leads to a cycle. */
  lemma LeadsOn(a: Adj, x: Name) returns (y: Name)
    requires LeadsToCycle(a, x)
    ensures Edge(a, x, y) && LeadsToCycle(a, y)
  {
    var p, c :| ClosedWalk(a, c) && WalkBetween(a, p, x, c[0]);
    if |p| == 1 {
      y := c[1];
      assert Edge(a, c[0], c[1]);
      var q := c[1..];
      WalkSuffix(a, c, 1);
      assert WalkBetween(a, q, y, c[0]);
    } else {
      y := p[1];
      var q := p[1..];
      WalkSuffix(a, p, 1);
      assert WalkBetween(a, q, y, c[0]);
    }
  }

  ghost predicate DependsWithin(a: Adj, x: Name, r: set<Name>) {
    exists y :: y in r && Edge(a, x, y)
  }

  /** Every member of r depends on a member of r. */
  ghost predicate NoSink(a: Adj, r: set<Name>) {
    forall x {:trigger DependsWithin(a, x, r)} :: x in r ==> DependsWithin(a, x, r)
  }

  /** If every member of a finite set depends on a member, following those edges from any
      member runs into a cycle. */
  lemma NoSinkLeadsToCycle(a: Adj, r: set<Name>, n: Name)
    requires n in r
    requires NoSink(a, r)
    ensures LeadsToCycle(a, n) && Cyclic(a)
  {
    ExtendWalk(a, r, [n]);
  }

  /** A walk whose next edge returns to one of its nodes runs into a cycle. */
  lemma ClosingEdge(a: Adj, p: seq<Name>, i: nat)
    requires Walk(a, p) && i < |p| && Edge(a, p[|p| - 1], p[i])
    ensures LeadsToCycle(a, p[0]) && Cyclic(a)
  {
    var q, c := p[..i + 1], p[i..] + [p[i]];
    WalkSuffix(a, p, i);
    assert Walk(a, c) && ClosedWalk(a, c);
    assert WalkBetween(a, q, p[0], c[0]);
  }

  lemma {:induction false} ExtendWalk(a: Adj, r: set<Name>, p: seq<Name>)
    requires Walk(a, p) && Distinct(p) && (forall x :: x in p ==> x in r)
    requires NoSink(a, r)
    ensures LeadsToCycle(a, p[0]) && Cyclic(a)
    decreases |r| - |p|
  {
    assert p[|p| - 1] in r && DependsWithin(a, p[|p| - 1], r);
    var y :| y in r && Edge(a, p[|p| - 1], y);
    if y in p {
      var i :| 0 <= i < |p| && p[i] == y;
      ClosingEdge(a, p, i);
    } else {
      DistinctBound(p, r);
      DistinctBound(p + [y], r);
      ExtendWalk(a, r, p + [y]);
    }
  }

  /** A dependency-first listing that is closed under edges holds no cycle. */
  lemma {:induction false} ListingAcyclic(a: Adj, s: seq<Name>, n: Name, i: nat)
    requires DependenciesFirst(a, s) && i < |s| && s[i] == n
    ensures !LeadsToCycle(a, n)
    decreases i
  {
    if LeadsToCycle(a, n) {
      var y := LeadsOn(a, n);
      assert y in s[..i];
      var k :| 0 <= k < i && s[k] == y;
      ListingAcyclic(a, s, y, k);
    }
  }

  lemma CyclicHasNode(a: Adj) returns (n: Name)
    requires Cyclic(a)
    ensures n in a && LeadsToCycle(a, n)
  {
    var p :| ClosedWalk(a, p);
    n := p[0];
    assert Edge(a, p[0], p[1]);
    assert WalkBetween(a, [n], n, p[0]);
  }

  /** A graph is acyclic exactly when some dependency-first listing holds all its nodes. */
  lemma AcyclicIfListed(a: Adj, s: seq<Name>)
    requires DependenciesFirst(a, s) && a.Keys <= Elements(s)
    ensures !Cyclic(a)
  {
    if Cyclic(a) {
      var n := CyclicHasNode(a);
      assert n in Elements(s);
      var i :| 0 <= i < |s| && s[i] == n;
      ListingAcyclic(a, s, n, i);
    }
  }

  lemma CyclicMonotone(a: Adj, b: Adj)
    requires Cyclic(a)
    requires forall x, y :: Edge(a, x, y) ==> Edge(b, x, y)
    ensures Cyclic(b)
  {
    var p :| ClosedWalk(a, p);
    assert ClosedWalk(b, p);
  }
}
