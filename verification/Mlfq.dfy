/** The multi-level feedback queue: one binary heap per priority level. */
module Mlfq {
  import opened Options
  import opened Tasks

  const LEVELS := 4

  // ----- heaps -----

  function Parent(i: int): (p: int)
    requires i > 0
    ensures 0 <= p < i
  {
    (i - 1) / 2
  }

  /** No entry was submitted before its parent. On a level, where all priorities agree, this
      is the heap property of the task order. */
  predicate IsHeap(h: seq<Task>) {
    forall i {:trigger Parent(i)} :: 0 < i < |h| ==> h[Parent(i)].submittedAt <= h[i].submittedAt
  }

  /** A heap except that h[k] may be before its parent. */
  predicate HeapExceptAbove(h: seq<Task>, k: nat) {
    && (forall i {:trigger Parent(i)} :: 0 < i < |h| && i != k ==> h[Parent(i)].submittedAt <= h[i].submittedAt)
    && (forall i {:trigger Parent(i)} :: 0 < i < |h| && Parent(i) == k && 0 < k < |h|
          ==> h[Parent(k)].submittedAt <= h[i].submittedAt)
  }

  /** A heap except that h[k] may be anything. */
  predicate HeapExceptAt(h: seq<Task>, k: nat) {
    && (forall i {:trigger Parent(i)} :: 0 < i < |h| && i != k && Parent(i) != k
          ==> h[Parent(i)].submittedAt <= h[i].submittedAt)
    && (forall i {:trigger Parent(i)} :: 0 < i < |h| && Parent(i) == k && 0 < k < |h|
          ==> h[Parent(k)].submittedAt <= h[i].submittedAt)
  }

  ghost predicate AllAt(h: seq<Task>, level: int)
    reads h
  {
    forall t :: t in h ==> t.priority == level
  }

  function Swapped(h: seq<Task>, i: nat, k: nat): seq<Task>
    requires i < |h| && k < |h|
  {
    h[i := h[k]][k := h[i]]
  }

  lemma SwapKeeps(h: seq<Task>, i: nat, k: nat)
    requires i < |h| && k < |h|
    ensures multiset(Swapped(h, i, k)) == multiset(h)
    ensures forall t :: t in Swapped(h, i, k) ==> t in h
  {
  }

  lemma {:induction false} RootIsLeast(h: seq<Task>, i: nat)
    requires IsHeap(h) && i < |h|
    ensures h[0].submittedAt <= h[i].submittedAt
    decreases i
  {
    if i > 0 {
      RootIsLeast(h, Parent(i));
    }
  }

  /** heapq._siftdown: moves the entry at k towards the root until its parent is not greater. */
  method SiftDown(h0: seq<Task>, k: nat, ghost level: int) returns (h: seq<Task>)
    requires k < |h0| && HeapExceptAbove(h0, k) && AllAt(h0, level)
    ensures IsHeap(h) && multiset(h) == multiset(h0)
  {
    h := h0;
    var pos: nat := k;
    while pos > 0
      invariant |h| == |h0| && pos < |h|
      invariant HeapExceptAbove(h, pos) && AllAt(h, level)
      invariant multiset(h) == multiset(h0)
      decreases pos
    {
      var parent := Parent(pos);
      if !Less(h[pos], h[parent]) {
        return;
      }
      SwapKeeps(h, pos, parent);
      SwapUp(h, pos);
      h := Swapped(h, pos, parent);
      pos := parent;
    }
  }

  lemma SwapUp(h: seq<Task>, pos: nat)
    requires 0 < pos < |h| && HeapExceptAbove(h, pos) && h[pos].submittedAt < h[Parent(pos)].submittedAt
    ensures HeapExceptAbove(Swapped(h, pos, Parent(pos)), Parent(pos))
  {
    var p := Parent(pos);
    var g := Swapped(h, pos, p);
    forall i {:trigger Parent(i)} | 0 < i < |g| && Parent(i) == p && 0 < p
      ensures g[Parent(p)].submittedAt <= g[i].submittedAt
    {
      assert h[Parent(p)].submittedAt <= h[p].submittedAt;
    }
  }

  /** heapq._siftup from the root: sinks the entry to a leaf along smaller children, then sifts
      it back. */
  method SiftUp(h0: seq<Task>, ghost level: int) returns (h: seq<Task>)
    requires h0 != [] && HeapExceptAt(h0, 0) && AllAt(h0, level)
    ensures IsHeap(h) && multiset(h) == multiset(h0)
  {
    h := h0;
    var pos: nat := 0;
    var child: nat := 1;
    while child < |h|
      invariant |h| == |h0| && 0 <= pos < |h| && child == 2 * pos + 1
      invariant HeapExceptAt(h, pos) && AllAt(h, level)
      invariant multiset(h) == multiset(h0)
      decreases |h| - pos
    {
      if child + 1 < |h| && !Less(h[child], h[child + 1]) {
        child := child + 1;
      }
      SinkStep(h, pos, child, level);
      h := Swapped(h, pos, child);
      pos := child;
      child := 2 * pos + 1;
    }
    LeafExceptAbove(h, pos);
    h := SiftDown(h, pos, level);
  }

  lemma LeafExceptAbove(h: seq<Task>, pos: nat)
    requires pos < |h| <= 2 * pos + 1 && HeapExceptAt(h, pos)
    ensures HeapExceptAbove(h, pos)
  {
    assert forall i {:trigger Parent(i)} :: 0 < i < |h| ==> Parent(i) != pos;
  }

  /** Sinking past the smaller child. */
  lemma SwapWithChild(h: seq<Task>, pos: nat, child: nat)
    requires child < |h| && (child == 2 * pos + 1 || child == 2 * pos + 2) && HeapExceptAt(h, pos)
    requires child == 2 * pos + 1 && child + 1 < |h| ==> h[child].submittedAt <= h[child + 1].submittedAt
    requires child == 2 * pos + 2 ==> h[child].submittedAt <= h[child - 1].submittedAt
    ensures HeapExceptAt(Swapped(h, pos, child), child)
  {
    assert forall i {:trigger Parent(i)} :: 0 < i < |h| && Parent(i) == pos ==> i == 2 * pos + 1 || i == 2 * pos + 2;
    var g := Swapped(h, pos, child);
    forall i {:trigger Parent(i)} | 0 < i < |g| && Parent(i) == child
      ensures g[Parent(child)].submittedAt <= g[i].submittedAt
    {
      assert h[Parent(i)].submittedAt <= h[i].submittedAt;
    }
  }

  /** One step of the sinking, past the child that the comparison chooses. */
  lemma SinkStep(h: seq<Task>, pos: nat, child: nat, level: int)
    requires child < |h| && (child == 2 * pos + 1 || child == 2 * pos + 2) && HeapExceptAt(h, pos) && AllAt(h, level)
    requires child == 2 * pos + 1 && child + 1 < |h| ==> Less(h[child], h[child + 1])
    requires child == 2 * pos + 2 ==> !Less(h[child - 1], h[child])
    ensures var g := Swapped(h, pos, child);
            |g| == |h| && HeapExceptAt(g, child) && AllAt(g, level) && multiset(g) == multiset(h)
  {
    SwapKeeps(h, pos, child);
    SwapWithChild(h, pos, child);
  }

  method HeapPush(h: seq<Task>, x: Task) returns (r: seq<Task>)
    requires IsHeap(h) && AllAt(h, x.priority)
    ensures IsHeap(r) && multiset(r) == multiset(h) + multiset{x}
  {
    var g := h + [x];
    r := SiftDown(g, |h|, x.priority);
  }

  lemma PushedMembers(h: seq<Task>, r: seq<Task>, x: Task)
    requires multiset(r) == multiset(h) + multiset{x}
    ensures forall t :: t in r <==> t in h || t == x
  {
    assert forall t :: t in r <==> t in multiset(r);
    assert forall t :: t in h <==> t in multiset(h);
  }

  lemma RootLeastIn(h: seq<Task>)
    requires IsHeap(h) && h != []
    ensures LeastIn(h[0], h)
  {
    forall y | y in h ensures h[0].submittedAt <= y.submittedAt {
      var i :| 0 <= i < |h| && h[i] == y;
      RootIsLeast(h, i);
    }
  }

  method HeapPop(h: seq<Task>, ghost level: int) returns (x: Task, r: seq<Task>)
    requires IsHeap(h) && h != [] && AllAt(h, level)
    ensures IsHeap(r) && multiset(h) == multiset(r) + multiset{x}
    ensures LeastIn(x, h)
  {
    var n := |h| - 1;
    var last := h[n];
    RootLeastIn(h);
    assert h == h[..n] + [last];
    if n == 0 {
      return last, [];
    }
    x := h[0];
    var g := h[..n][0 := last];
    assert h[..n] == [x] + h[1..n] && g == [last] + h[1..n];
    assert forall t :: t in g ==> t in h;
    r := SiftUp(g, level);
  }

  // ----- levels -----

  predicate Heaps(qs: seq<seq<Task>>) {
    |qs| == LEVELS && forall l :: 0 <= l < LEVELS ==> IsHeap(qs[l])
  }

  ghost function AllTasks(qs: seq<seq<Task>>): set<Task> {
    set l, t | 0 <= l < |qs| && t in qs[l] :: t
  }

  /** Every queued task has the priority of its level. */
  ghost predicate Leveled(qs: seq<seq<Task>>)
    reads AllTasks(qs)
  {
    forall l :: 0 <= l < |qs| ==> forall t :: t in qs[l] ==> t.priority == l
  }

  ghost function Bag(qs: seq<seq<Task>>): multiset<Task>
    requires |qs| == LEVELS
  {
    multiset(qs[0]) + multiset(qs[1]) + multiset(qs[2]) + multiset(qs[3])
  }

  lemma BagAdd(qs: seq<seq<Task>>, l: Level, q: seq<Task>, x: Task)
    requires |qs| == LEVELS && multiset(q) == multiset(qs[l]) + multiset{x}
    ensures Bag(qs[l := q]) == Bag(qs) + multiset{x}
    ensures forall t :: t in q <==> t in qs[l] || t == x
  {
    assert forall t :: t in q <==> t in multiset(q);
  }

  lemma BagRemove(qs: seq<seq<Task>>, l: Level, q: seq<Task>, x: Task)
    requires |qs| == LEVELS && multiset(qs[l]) == multiset(q) + multiset{x}
    ensures x in Bag(qs) && Bag(qs[l := q]) == Bag(qs) - multiset{x}
    ensures x in qs[l] && forall t :: t in q ==> t in qs[l]
  {
    assert x in multiset(qs[l]);
    assert forall t :: t in q <==> t in multiset(q);
    assert forall t :: t in qs[l] <==> t in multiset(qs[l]);
  }

  lemma BagMembers(qs: seq<seq<Task>>, t: Task)
    requires |qs| == LEVELS
    ensures t in Bag(qs) <==> exists l :: 0 <= l < LEVELS && t in qs[l]
  {
    assert t in Bag(qs) <==> t in qs[0] || t in qs[1] || t in qs[2] || t in qs[3];
  }

  /** Nothing queued comes before x in priority and then in submission time. */
  ghost predicate Earliest(x: Task, qs: seq<seq<Task>>)
    requires |qs| == LEVELS
    reads x, set t | t in Bag(qs)
  {
    forall t :: t in Bag(qs) ==>
      x.priority < t.priority || (x.priority == t.priority && x.submittedAt <= t.submittedAt)
  }

  /** The earliest task of the first level that is not empty precedes everything queued. */
  lemma LeastOfAll(qs: seq<seq<Task>>, l: Level)
    requires |qs| == LEVELS && Leveled(qs)
    requires forall k :: 0 <= k < l ==> qs[k] == []
    ensures forall x :: x in qs[l] && LeastIn(x, qs[l]) ==> Earliest(x, qs)
  {
    forall x | x in qs[l] && LeastIn(x, qs[l]) ensures Earliest(x, qs) {
      forall t | t in Bag(qs)
        ensures x.priority < t.priority || (x.priority == t.priority && x.submittedAt <= t.submittedAt)
      {
        BagMembers(qs, t);
      }
    }
  }

  predicate LeastIn(x: Task, q: seq<Task>) {
    forall y :: y in q ==> x.submittedAt <= y.submittedAt
  }

  lemma LeveledIff(before: seq<seq<Task>>, qs: seq<seq<Task>>, task: Task, was: Level)
    requires |before| == LEVELS && |qs| == LEVELS && qs == before[task.priority := qs[task.priority]]
    requires forall t :: t in qs[task.priority] <==> t in before[task.priority] || t == task
    requires forall l, t :: 0 <= l < LEVELS && t in before[l] && t != task ==> t.priority == l
    requires forall l :: 0 <= l < LEVELS && task in before[l] ==> l == was
    ensures Leveled(qs) <==> was == task.priority || task !in before[was]
  {
    if was != task.priority && task in before[was] {
      assert task in qs[was];
    }
  }

  lemma EmptyBag(qs: seq<seq<Task>>)
    requires |qs| == LEVELS && forall k :: 0 <= k < LEVELS ==> qs[k] == []
    ensures Bag(qs) == multiset{}
  {
  }

  // ----- the queue -----

  class MLFQueue {
    var queues: seq<seq<Task>>

    /** Everything queued, with multiplicity. */
    ghost function Contents(): multiset<Task>
      reads this
      requires |queues| == LEVELS
    {
      Bag(queues)
    }

    /** Each level is a heap of tasks of that priority. */
    ghost predicate Valid()
      reads this, AllTasks(queues)
    {
      Heaps(queues) && Leveled(queues)
    }

    constructor ()
      ensures Valid() && Contents() == multiset{}
    {
      queues := [[], [], [], []];
    }

    method SetLevel(l: Level, q: seq<Task>)
      requires Valid() && IsHeap(q) && AllAt(q, l)
      modifies this
      ensures Valid() && queues == old(queues)[l := q]
    {
      queues := queues[l := q];
    }

    /** Pushes the task on the heap of its level; the other levels may hold anything. */
    method Push(task: Task)
      requires Heaps(queues) && AllAt(queues[task.priority], task.priority)
      modifies this
      ensures Heaps(queues) && Contents() == old(Contents()) + multiset{task}
      ensures queues == old(queues)[task.priority := queues[task.priority]]
      ensures forall t :: t in queues[task.priority] <==> t in old(queues)[task.priority] || t == task
    {
      var level := task.priority;
      var q := HeapPush(queues[level], task);
      PushedMembers(queues[level], q, task);
      BagAdd(queues, level, q, task);
      queues := queues[level := q];
    }

    method Enqueue(task: Task)
      requires Valid()
      modifies this
      ensures Valid() && Contents() == old(Contents()) + multiset{task}
    {
      Push(task);
    }

    /** Nothing exactly when nothing is queued; otherwise a task that no queued task precedes
        in (priority, submitted_at), removed once. */
    method Dequeue() returns (r: Option<Task>)
      requires Valid()
      modifies this
      ensures Valid()
      ensures r.None? <==> old(Contents()) == multiset{}
      ensures r.None? ==> queues == old(queues)
      ensures r.Some? ==> r.value in old(Contents()) && Contents() == old(Contents()) - multiset{r.value}
      ensures r.Some? ==> old(Earliest(r.value, queues))
    {
      var level := 0;
      while level < LEVELS && queues[level] == []
        invariant 0 <= level <= LEVELS
        invariant forall l :: 0 <= l < level ==> queues[l] == []
      {
        level := level + 1;
      }
      if level == LEVELS {
        EmptyBag(queues);
        return None;
      }
      LeastOfAll(queues, level);
      var task, q := HeapPop(queues[level], level);
      BagRemove(queues, level, q, task);
      SetLevel(level, q);
      return Some(task);
    }

    /** Queues the task one level down, and its contents grow by it whatever the caller does.
        The queue stays well formed exactly when the task was not queued any more or already sat
        on the lowest level: lowering a queued task in place leaves it under its old level. */
    method Demote(task: Task)
      requires Valid()
      modifies this, task
      ensures Heaps(queues) && Contents() == old(Contents()) + multiset{task}
      ensures task.priority == if old(task.priority) == LEVELS - 1 then LEVELS - 1 else old(task.priority) + 1
      ensures Valid() <==> old(task !in Contents()) || old(task.priority) == LEVELS - 1
    {
      ghost var was := task.priority;
      BagMembers(queues, task);
      var level: Level := if task.priority + 1 < LEVELS - 1 then task.priority + 1 else LEVELS - 1;
      assert was < level ==> task !in queues[level];
      assert forall t :: t in queues[level] ==> t.priority == level;
      task.priority := level;
      assert AllAt(queues[level], level);
      Push(task);
      LeveledIff(old(queues), queues, task, was);
    }
  }
}
