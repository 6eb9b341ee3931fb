/** Shortest-job-first: draining the queue gives a stable sort of the arrivals by estimated
    duration, and no other order of the same tasks waits less in total. */
module Sjf {
  import opened Options
  import opened Tasks

  function Duration(t: Task): int {
    t.estimatedDuration
  }

  predicate SortedByDuration(s: seq<Task>) {
    forall i, k :: 0 <= i < k < |s| ==> Duration(s[i]) <= Duration(s[k])
  }

  /** x goes behind every task that is not longer. */
  function Insert(s: seq<Task>, x: Task): seq<Task> {
    if s == [] || Duration(s[|s| - 1]) <= Duration(x) then s + [x]
    else Insert(s[..|s| - 1], x) + [s[|s| - 1]]
  }

  /** The queue after the given arrivals. */
  function Arrived(arrivals: seq<Task>): seq<Task> {
    if arrivals == [] then [] else Insert(Arrived(arrivals[..|arrivals| - 1]), arrivals[|arrivals| - 1])
  }

  /** The tasks of one duration, in order. */
  function OfDuration(s: seq<Task>, d: int): seq<Task> {
    if s == [] then []
    else OfDuration(s[..|s| - 1], d) + (if Duration(s[|s| - 1]) == d then [s[|s| - 1]] else [])
  }

  lemma {:induction false} InsertBounded(s: seq<Task>, x: Task, d: int)
    requires Duration(x) <= d && forall i :: 0 <= i < |s| ==> Duration(s[i]) <= d
    ensures forall i :: 0 <= i < |Insert(s, x)| ==> Duration(Insert(s, x)[i]) <= d
    decreases |s|
  {
    var n := |s| - 1;
    if s != [] && Duration(s[n]) > Duration(x) {
      InsertBounded(s[..n], x, d);
    }
  }

  lemma {:induction false} InsertSorted(s: seq<Task>, x: Task)
    requires SortedByDuration(s)
    ensures SortedByDuration(Insert(s, x))
    decreases |s|
  {
    var n := |s| - 1;
    if s != [] && Duration(s[n]) > Duration(x) {
      InsertSorted(s[..n], x);
      InsertBounded(s[..n], x, Duration(s[n]));
    }
  }

  lemma {:induction false} InsertBag(s: seq<Task>, x: Task)
    ensures multiset(Insert(s, x)) == multiset(s) + multiset{x}
    decreases |s|
  {
    var n := |s| - 1;
    if s != [] && Duration(s[n]) > Duration(x) {
      InsertBag(s[..n], x);
      assert s == s[..n] + [s[n]];
    }
  }

  lemma OfDurationSnoc(s: seq<Task>, x: Task, d: int)
    ensures OfDuration(s + [x], d) == OfDuration(s, d) + (if Duration(x) == d then [x] else [])
  {
    assert (s + [x])[..|s|] == s;
  }

  lemma {:induction false} InsertStable(s: seq<Task>, x: Task, d: int)
    ensures OfDuration(Insert(s, x), d) == OfDuration(s + [x], d)
    decreases |s|
  {
    var n := |s| - 1;
    if s != [] && Duration(s[n]) > Duration(x) {
      InsertStable(s[..n], x, d);
      OfDurationSnoc(Insert(s[..n], x), s[n], d);
      OfDurationSnoc(s[..n], x, d);
      OfDurationSnoc(s, x, d);
      if Duration(x) == d {
        assert OfDuration(s, d) == OfDuration(s[..n], d);
      } else {
        assert OfDuration(Insert(s[..n], x), d) == OfDuration(s[..n], d);
      }
    }
  }

  /** After any sequence of arrivals the queue is a permutation of them, sorted by duration,
      and tasks of equal duration keep their arrival order. */
  lemma {:induction false} ArrivedStableSort(arrivals: seq<Task>)
    ensures SortedByDuration(Arrived(arrivals)) && multiset(Arrived(arrivals)) == multiset(arrivals)
    ensures forall d :: OfDuration(Arrived(arrivals), d) == OfDuration(arrivals, d)
    decreases |arrivals|
  {
    if arrivals != [] {
      var n := |arrivals| - 1;
      var before := Arrived(arrivals[..n]);
      ArrivedStableSort(arrivals[..n]);
      InsertSorted(before, arrivals[n]);
      InsertBag(before, arrivals[n]);
      assert arrivals == arrivals[..n] + [arrivals[n]];
      forall d ensures OfDuration(Arrived(arrivals), d) == OfDuration(arrivals, d) {
        InsertStable(before, arrivals[n], d);
        OfDurationSnoc(before, arrivals[n], d);
      }
    }
  }

  // ----- waiting time -----

  /** The total waiting time of tasks run one after the other from time `now` on. */
  function TotalWait(s: seq<Task>, now: int): int {
    if s == [] then 0 else now + TotalWait(s[1..], now + Duration(s[0]))
  }

  /** Exchanging two neighbours changes the total wait by the difference of their durations. */
  lemma {:induction false} SwapNeighbours(a: seq<Task>, x: Task, y: Task, b: seq<Task>, now: int)
    ensures TotalWait(a + [x, y] + b, now) - TotalWait(a + [y, x] + b, now) == Duration(x) - Duration(y)
    decreases |a|
  {
    var p, q := a + [x, y] + b, a + [y, x] + b;
    if a == [] {
      assert p == [x, y] + b && q == [y, x] + b;
      assert p[1..] == [y] + b && q[1..] == [x] + b;
      assert p[1..][1..] == b && q[1..][1..] == b;
    } else {
      assert p[1..] == a[1..] + [x, y] + b && q[1..] == a[1..] + [y, x] + b;
      SwapNeighbours(a[1..], x, y, b, now + Duration(a[0]));
    }
  }

  /** Moving a task to the front past tasks that are not shorter does not add waiting. */
  lemma {:induction false} MoveToFront(a: seq<Task>, x: Task, b: seq<Task>, now: int)
    requires forall t :: t in a ==> Duration(x) <= Duration(t)
    ensures TotalWait([x] + a + b, now) <= TotalWait(a + [x] + b, now)
    decreases |a|
  {
    if a == [] {
      assert [x] + a + b == a + [x] + b;
    } else {
      var n := |a| - 1;
      var y := a[n];
      assert y in a;
      SwapNeighbours(a[..n], y, x, b, now);
      assert a[..n] + [y, x] + b == a + [x] + b;
      assert a[..n] + [x, y] + b == a[..n] + [x] + ([y] + b);
      MoveToFront(a[..n], x, [y] + b, now);
      assert [x] + a[..n] + ([y] + b) == [x] + a + b;
    }
  }

  lemma RemoveBag(p: seq<Task>, k: nat)
    requires k < |p|
    ensures multiset(p[..k] + p[k + 1..]) == multiset(p) - multiset{p[k]}
  {
    assert p == p[..k] + [p[k]] + p[k + 1..];
  }

  lemma RestBag(s: seq<Task>, other: seq<Task>, k: nat)
    requires s != [] && multiset(s) == multiset(other) && k < |other| && other[k] == s[0]
    ensures multiset(s[1..]) == multiset(other[..k] + other[k + 1..])
  {
    RemoveBag(other, k);
    RemoveBag(s, 0);
    assert s[..0] + s[1..] == s[1..];
  }

  lemma FindHead(s: seq<Task>, other: seq<Task>) returns (k: nat)
    requires s != [] && multiset(s) == multiset(other)
    ensures k < |other| && other[k] == s[0]
  {
    assert s[0] in multiset(s);
    assert s[0] in other;
    k :| 0 <= k < |other| && other[k] == s[0];
  }

  lemma HeadIsShortest(s: seq<Task>, other: seq<Task>)
    requires s != [] && SortedByDuration(s) && multiset(s) == multiset(other)
    ensures forall t :: t in other ==> Duration(s[0]) <= Duration(t)
  {
    forall t | t in other ensures Duration(s[0]) <= Duration(t) {
      assert t in multiset(other);
      assert t in s;
      var i :| 0 <= i < |s| && s[i] == t;
    }
  }

  /** Shortest-job-first is optimal: among all orders of the same tasks, a sorted one has the
      least total waiting time. */
  lemma {:induction false} SortedIsOptimal(s: seq<Task>, other: seq<Task>, now: int)
    requires SortedByDuration(s) && multiset(s) == multiset(other)
    ensures TotalWait(s, now) <= TotalWait(other, now)
    decreases |s|
  {
    if s == [] {
      assert |multiset(other)| == 0;
      assert other == [];
    } else {
      var x := s[0];
      var k := FindHead(s, other);
      var a, b := other[..k], other[k + 1..];
      assert other == a + [x] + b;
      RestBag(s, other, k);
      HeadIsShortest(s, other);
      MoveToFront(a, x, b, now);
      assert ([x] + a + b)[1..] == a + b;
      SortedIsOptimal(s[1..], a + b, now + Duration(x));
    }
  }

  /** An order is optimal only if it is sorted by duration. */
  lemma OptimalIsSorted(s: seq<Task>, now: int)
    requires forall other: seq<Task> :: multiset(other) == multiset(s) ==> TotalWait(s, now) <= TotalWait(other, now)
    ensures SortedByDuration(s)
  {
    forall i | 0 <= i < |s| - 1 ensures Duration(s[i]) <= Duration(s[i + 1]) {
      var other := Exchange(s, i, now);
      assert TotalWait(s, now) <= TotalWait(other, now);
    }
    NeighboursSorted(s);
  }

  lemma Exchange(s: seq<Task>, i: nat, now: int) returns (other: seq<Task>)
    requires i < |s| - 1
    ensures multiset(other) == multiset(s)
    ensures TotalWait(s, now) - TotalWait(other, now) == Duration(s[i]) - Duration(s[i + 1])
  {
    var a, b := s[..i], s[i + 2..];
    other := a + [s[i + 1], s[i]] + b;
    assert s == a + [s[i], s[i + 1]] + b;
    SwapNeighbours(a, s[i], s[i + 1], b, now);
  }

  lemma {:induction false} NeighboursSorted(s: seq<Task>)
    requires forall i :: 0 <= i < |s| - 1 ==> Duration(s[i]) <= Duration(s[i + 1])
    ensures SortedByDuration(s)
    decreases |s|
  {
    if |s| > 1 {
      var n := |s| - 1;
      NeighboursSorted(s[..n]);
      assert Duration(s[n - 1]) <= Duration(s[n]);
      forall i | 0 <= i < n ensures Duration(s[i]) <= Duration(s[n]) {
        assert i < n - 1 ==> Duration(s[..n][i]) <= Duration(s[..n][n - 1]);
      }
    }
  }

  /** Draining the queue after any arrivals waits no longer than any order of them. */
  lemma ArrivedIsOptimal(arrivals: seq<Task>, other: seq<Task>, now: int)
    requires multiset(other) == multiset(arrivals)
    ensures TotalWait(Arrived(arrivals), now) <= TotalWait(other, now)
  {
    ArrivedStableSort(arrivals);
    SortedIsOptimal(Arrived(arrivals), other, now);
  }

  lemma {:induction false} InsertAt(s: seq<Task>, x: Task, i: nat)
    requires i <= |s| && (i > 0 ==> Duration(s[i - 1]) <= Duration(x))
    requires forall k :: i <= k < |s| ==> Duration(s[k]) > Duration(x)
    ensures Insert(s, x) == s[..i] + [x] + s[i..]
    decreases |s|
  {
    var n := |s| - 1;
    if i < |s| {
      InsertAt(s[..n], x, i);
      assert s[..n][..i] == s[..i] && s[i..] == s[..n][i..] + [s[n]];
    }
  }

  lemma ShiftOne(s: seq<Task>, x: Task, i: nat)
    requires 0 < i <= |s|
    ensures var q := s[..i] + [x] + s[i..];
            q[i := q[i - 1]][i - 1 := x] == s[..i - 1] + [x] + s[i - 1..]
  {
  }

  /** list.sort with the duration as key, on a list that was sorted before its last element was
      appended. */
  method SortAppended(q0: seq<Task>) returns (q: seq<Task>)
    requires q0 != [] && SortedByDuration(q0[..|q0| - 1])
    ensures SortedByDuration(q) && q == Insert(q0[..|q0| - 1], q0[|q0| - 1])
  {
    var n := |q0| - 1;
    ghost var s := q0[..n];
    var task := q0[n];
    q := q0;
    var i := n;
    while i > 0 && Duration(q[i - 1]) > Duration(task)
      invariant 0 <= i <= n && q == s[..i] + [task] + s[i..]
      invariant forall k :: i <= k < n ==> Duration(s[k]) > Duration(task)
    {
      ShiftOne(s, task, i);
      assert q[i - 1] == s[i - 1];
      q := q[i := q[i - 1]][i - 1 := task];
      i := i - 1;
    }
    assert i > 0 ==> q[i - 1] == s[i - 1];
    InsertAt(s, task, i);
    InsertSorted(s, task);
  }

  class SJFScheduler {
    var queue: seq<Task>

    constructor ()
      ensures queue == []
    {
      queue := [];
    }

    /** Appends and sorts: the task goes behind every queued task that is not longer. */
    method Enqueue(task: Task)
      requires SortedByDuration(queue)
      modifies this
      ensures SortedByDuration(queue) && queue == Insert(old(queue), task)
    {
      queue := queue + [task];
      assert queue[..|queue| - 1] == old(queue);
      queue := SortAppended(queue);
    }

    /** The shortest task, the earliest arrival among equals. */
    method Dequeue() returns (r: Option<Task>)
      requires SortedByDuration(queue)
      modifies this
      ensures SortedByDuration(queue)
      ensures old(queue) == [] ==> r == None && queue == []
      ensures old(queue) != [] ==> r == Some(old(queue)[0]) && queue == old(queue)[1..]
      ensures r.Some? ==> forall t :: t in old(queue) ==> Duration(r.value) <= Duration(t)
    {
      if queue == [] {
        return None;
      }
      r := Some(queue[0]);
      queue := queue[1..];
    }
  }
}
