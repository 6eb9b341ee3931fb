/** Round-robin scheduling: fairness of the turns, and what completing a task does to them. */
module RoundRobin {
  import opened Options
  import opened Tasks

  /** The queue position served at a turn. */
  function Position(turn: nat, n: nat): (p: nat)
    requires n > 0
    ensures p < n
  {
    turn % n
  }

  /** The first turn serves the head of the queue, and each turn the position after the one
      before, round and round. */
  lemma TurnsInOrder(turn: nat, n: nat)
    requires n > 0
    ensures Position(0, n) == 0
    ensures Position(turn + 1, n) == if Position(turn, n) + 1 < n then Position(turn, n) + 1 else 0
  {
    var q, p := turn / n, turn % n;
    assert turn == q * n + p;
    if p + 1 < n {
      DivisionUnique(turn + 1, n, q, p + 1);
    } else {
      assert turn + 1 == (q + 1) * n + 0;
      DivisionUnique(turn + 1, n, q + 1, 0);
    }
  }

  /** How many of the k turns from `turn` on serve position p of n. */
  function Served(turn: nat, k: nat, n: nat, p: nat): nat
    requires n > 0
  {
    if k == 0 then 0
    else Served(turn, k - 1, n, p) + (if Position(turn + k - 1, n) == p then 1 else 0)
  }

  // ----- fairness -----

  lemma SmallMultiple(k: int, n: int)
    requires n > 0 && -n < k * n < n
    ensures k == 0
  {
    if k >= 1 {
      BigMultiple(k, n);
    } else if k <= -1 {
      BigMultiple(-k, n);
    }
  }

  lemma BigMultiple(k: int, n: int)
    requires n > 0 && k >= 1
    ensures k * n >= n
  {
    assert (k - 1) * n >= 0;
  }

  lemma DivisionUnique(x: int, n: int, q: int, r: int)
    requires n > 0 && x == q * n + r && 0 <= r < n
    ensures x / n == q && x % n == r
  {
    var q', r' := x / n, x % n;
    assert x == q' * n + r';
    assert (q' - q) * n == q' * n - q * n;
    SmallMultiple(q' - q, n);
  }

  /** Among turns 0 .. x-1, position p is served once per multiple of n reached from p on. */
  lemma StepCount(x: nat, n: nat, p: nat)
    requires n > 0 && p < n
    ensures (x + 1 + n - 1 - p) / n == (x + n - 1 - p) / n + (if x % n == p then 1 else 0)
  {
    var y := x + n - 1 - p;
    var q, r := y / n, y % n;
    assert y == q * n + r;
    var q', r' := x / n, x % n;
    assert x == q' * n + r';
    if r' == p {
      assert y == q' * n + (n - 1);
      DivisionUnique(y, n, q', n - 1);
      assert y + 1 == (q' + 1) * n + 0;
      DivisionUnique(y + 1, n, q' + 1, 0);
    } else {
      if r == n - 1 {
        assert x == y - n + 1 + p;
        assert x == q * n + p;
        DivisionUnique(x, n, q, p);
      }
      assert y + 1 == q * n + (r + 1);
      DivisionUnique(y + 1, n, q, r + 1);
    }
  }

  lemma {:induction false} ServedCount(turn: nat, k: nat, n: nat, p: nat)
    requires n > 0 && p < n
    ensures Served(turn, k, n, p) == (turn + k + n - 1 - p) / n - (turn + n - 1 - p) / n
    decreases k
  {
    if k > 0 {
      ServedCount(turn, k - 1, n, p);
      StepCount(turn + k - 1, n, p);
    }
  }

  lemma QuotientSum(a: int, k: nat, n: nat)
    requires n > 0
    ensures (a + k) / n - a / n == k / n + (if a % n + k % n < n then 0 else 1)
  {
    var q, r := a / n, a % n;
    var s, t := k / n, k % n;
    assert a == q * n + r && k == s * n + t;
    assert a + k == (q + s) * n + (r + t);
    if r + t < n {
      DivisionUnique(a + k, n, q + s, r + t);
    } else {
      assert a + k == (q + s + 1) * n + (r + t - n);
      DivisionUnique(a + k, n, q + s + 1, r + t - n);
    }
  }

  lemma CeilingQuotient(k: nat, n: nat)
    requires n > 0
    ensures (k + n - 1) / n == k / n + (if k % n == 0 then 0 else 1)
  {
    var s, t := k / n, k % n;
    assert k == s * n + t;
    if t == 0 {
      assert k + n - 1 == s * n + (n - 1);
      DivisionUnique(k + n - 1, n, s, n - 1);
    } else {
      assert k + n - 1 == (s + 1) * n + (t - 1);
      DivisionUnique(k + n - 1, n, s + 1, t - 1);
    }
  }

  lemma QuotientGap(a: int, k: nat, n: nat)
    requires n > 0
    ensures k / n <= (a + k) / n - a / n <= (k + n - 1) / n
  {
    QuotientSum(a, k, n);
    CeilingQuotient(k, n);
  }

  /** Any k consecutive turns on a queue of n tasks serve every position k/n times, rounded
      down or up, whatever turn they start at. */
  lemma Fair(turn: nat, k: nat, n: nat, p: nat)
    requires n > 0 && p < n
    ensures Served(turn, k, n, p) == k / n || Served(turn, k, n, p) == (k + n - 1) / n
  {
    ServedCount(turn, k, n, p);
    QuotientGap(turn + n - 1 - p, k, n);
    assert turn + n - 1 - p + k == turn + k + n - 1 - p;
    CeilingQuotient(k, n);
  }

  // ----- completing a task -----

  /** Position of the first queued task equal to the given one, or past the end. */
  function FirstSame(queue: seq<Task>, task: Task): (i: nat)
    reads queue, task
    ensures i <= |queue| && (i < |queue| ==> Same(queue[i], task))
    ensures forall k :: 0 <= k < i ==> !Same(queue[k], task)
  {
    if queue == [] then 0
    else if Same(queue[0], task) then 0
    else
      var rest := FirstSame(queue[1..], task);
      assert forall k :: 1 <= k < rest + 1 ==> queue[k] == queue[1..][k - 1];
      rest + 1
  }

  /** q with the entry at i left out. */
  function LeftOut(q: seq<Task>, i: nat): seq<Task>
    requires i < |q|
  {
    q[..i] + q[i + 1..]
  }

  /** Where the removal by equality strikes, said on the fields: at the first entry with both the
      priority and the submission time of the given task, or nowhere. */
  lemma FirstSameMeaning(queue: seq<Task>, task: Task)
    ensures var f := FirstSame(queue, task);
            && (f < |queue| ==> queue[f].priority == task.priority && queue[f].submittedAt == task.submittedAt)
            && forall k :: 0 <= k < f ==> queue[k].priority != task.priority || queue[k].submittedAt != task.submittedAt
  {
  }

  /** Completing removes the task itself exactly when it is queued and no task with both its priority
      and its submission time is queued before its first place. */
  lemma RemovesItselfIff(queue: seq<Task>, task: Task)
    ensures FirstSame(queue, task) < |queue| && queue[FirstSame(queue, task)] == task
       <==> exists k :: && 0 <= k < |queue| && queue[k] == task
                        && forall i :: 0 <= i < k ==>
                             queue[i].priority != task.priority || queue[i].submittedAt != task.submittedAt
  {
    var f := FirstSame(queue, task);
    FirstSameMeaning(queue, task);
    if k :| && 0 <= k < |queue| && queue[k] == task
            && forall i :: 0 <= i < k ==> queue[i].priority != task.priority || queue[i].submittedAt != task.submittedAt
    {
      assert Same(queue[k], task);
      assert f == k;
    }
  }

  /** The number of cycles finished before this turn, plus one, is a multiple of the number of tasks
      but one. */
  predicate PassesOn(turn: nat, n: nat)
    requires n >= 2
  {
    (turn / n + 1) % (n - 1) == 0
  }

  /** The turn counter is not adjusted on completion. Completing the task that was just served
      passes the turn to its successor exactly when the number of finished cycles, plus one, is
      a multiple of the number of tasks that remain. */
  lemma TurnAfterCompletion(turn: nat, n: nat)
    requires n >= 2
    ensures var served := Position(turn, n);
            var successor := if served + 1 < n then served else 0;
            Position(turn + 1, n - 1) == successor <==> PassesOn(turn, n)
  {
    var next := turn + 1;
    var a, q := turn / n, turn % n;
    assert turn == a * n + q;
    var m := n - 1;
    var d, e := (a + 1) / m, (a + 1) % m;
    assert a + 1 == d * m + e;
    assert next == a * m + (a + 1) + q;
    if q + 1 < n {
      if q + e < m {
        assert next == (a + d) * m + (q + e);
        DivisionUnique(next, m, a + d, q + e);
      } else {
        assert next == (a + d + 1) * m + (q + e - m);
        DivisionUnique(next, m, a + d + 1, q + e - m);
      }
    } else {
      assert next == (a + d + 1) * m + e;
      DivisionUnique(next, m, a + d + 1, e);
    }
  }

  class RoundRobinScheduler {
    var queue: seq<Task>
    var index: nat

    constructor ()
      ensures queue == [] && index == 0
    {
      queue, index := [], 0;
    }

    method Enqueue(task: Task)
      modifies this
      ensures queue == old(queue) + [task] && index == old(index)
    {
      queue := queue + [task];
    }

    method NextTask() returns (r: Option<Task>)
      modifies this
      ensures queue == old(queue)
      ensures queue == [] ==> r == None && index == old(index)
      ensures queue != [] ==> r == Some(queue[Position(old(index), |queue|)]) && index == old(index) + 1
    {
      if queue == [] {
        return None;
      }
      r := Some(queue[Position(index, |queue|)]);
      index := index + 1;
    }

    /** Removes the first queued task with the priority and the submission time of the given one, and
        only that, keeping the order; nothing if there is none. Where no two queued tasks agree in
        both, a queued task is itself removed. */
    method Complete(task: Task)
      modifies this
      ensures index == old(index)
      ensures (forall k :: 0 <= k < |old(queue)| ==>
                 old(queue)[k].priority != task.priority || old(queue)[k].submittedAt != task.submittedAt)
              ==> queue == old(queue)
      ensures forall i :: && 0 <= i < |old(queue)|
                          && old(queue)[i].priority == task.priority && old(queue)[i].submittedAt == task.submittedAt
                          && (forall k :: 0 <= k < i ==>
                                old(queue)[k].priority != task.priority || old(queue)[k].submittedAt != task.submittedAt)
                          ==> queue == LeftOut(old(queue), i)
      ensures (forall i, k :: 0 <= i < k < |old(queue)| ==>
                 old(queue)[i].priority != old(queue)[k].priority || old(queue)[i].submittedAt != old(queue)[k].submittedAt)
              ==> forall i :: 0 <= i < |old(queue)| && old(queue)[i] == task ==> queue == LeftOut(old(queue), i)
      ensures var i := old(FirstSame(queue, task));
              queue == if i < |old(queue)| then old(queue)[..i] + old(queue)[i + 1..] else old(queue)
    {
      var i := 0;
      while i < |queue| && !Same(queue[i], task)
        invariant 0 <= i <= |queue| && queue == old(queue)
        invariant forall k :: 0 <= k < i ==> !Same(queue[k], task)
      {
        i := i + 1;
      }
      if i < |queue| {
        queue := queue[..i] + queue[i + 1..];
      }
    }
  }

  /** A run that completes the wrong task: two tasks of the same priority and submission time are
      queued, the second is completed, and the second is the one that stays. */
  method CompletesTheOther(priority: Level, at: real) returns (first: Task, second: Task, left: seq<Task>)
    ensures first != second && first.priority == second.priority && first.submittedAt == second.submittedAt
    ensures left == [second]
  {
    first := new Task(priority, at, "first", 1);
    second := new Task(priority, at, "second", 1);
    var scheduler := new RoundRobinScheduler();
    scheduler.Enqueue(first);
    scheduler.Enqueue(second);
    assert Same(scheduler.queue[0], second);
    scheduler.Complete(second);
    left := scheduler.queue;
  }

  /** Serves a task and completes it: it is left out if no task equal to it is queued before it. */
  method ServeComplete(scheduler: RoundRobinScheduler) returns (served: Task)
    requires scheduler.queue != []
    requires var p := Position(scheduler.index, |scheduler.queue|);
             forall i :: 0 <= i < p ==> scheduler.queue[i].priority != scheduler.queue[p].priority
                                        || scheduler.queue[i].submittedAt != scheduler.queue[p].submittedAt
    modifies scheduler
    ensures served == old(scheduler.queue[Position(scheduler.index, |scheduler.queue|)])
    ensures scheduler.queue == old(LeftOut(scheduler.queue, Position(scheduler.index, |scheduler.queue|)))
    ensures scheduler.index == old(scheduler.index) + 1
  {
    var first := scheduler.NextTask();
    served := first.value;
    scheduler.Complete(served);
  }

  /** Serves a task, completes it and serves again. If the completion removes the served task and not
      one equal to it, the second turn goes to the successor of the first exactly when the number
      of finished cycles, plus one, is a multiple of the number of tasks that remain. */
  method ServeCompleteServe(scheduler: RoundRobinScheduler) returns (served: Task, next: Task)
    requires |scheduler.queue| >= 2
    requires forall i, k :: 0 <= i < k < |scheduler.queue| ==> scheduler.queue[i] != scheduler.queue[k]
    requires var p := Position(scheduler.index, |scheduler.queue|);
             forall i :: 0 <= i < p ==> scheduler.queue[i].priority != scheduler.queue[p].priority
                                        || scheduler.queue[i].submittedAt != scheduler.queue[p].submittedAt
    modifies scheduler
    ensures var q, p := old(scheduler.queue), Position(old(scheduler.index), |old(scheduler.queue)|);
            && served == q[p] && scheduler.queue == LeftOut(q, p)
            && next == scheduler.queue[Position(old(scheduler.index) + 1, |q| - 1)]
            && (next == q[if p + 1 < |q| then p + 1 else 0] <==> PassesOn(old(scheduler.index), |q|))
  {
    ghost var q := scheduler.queue;
    NextAfterLeavingOut(q, scheduler.index);
    served := ServeComplete(scheduler);
    assert |scheduler.queue| == |q| - 1;
    var second := scheduler.NextTask();
    next := second.value;
  }

  /** The entry whose turn it is once the one just served is left out. */
  lemma NextAfterLeavingOut(q: seq<Task>, turn: nat)
    requires |q| >= 2 && forall i, k :: 0 <= i < k < |q| ==> q[i] != q[k]
    ensures var p := Position(turn, |q|);
            LeftOut(q, p)[Position(turn + 1, |q| - 1)] == q[if p + 1 < |q| then p + 1 else 0] <==> PassesOn(turn, |q|)
  {
    var p := Position(turn, |q|);
    var successor := if p + 1 < |q| then p else 0;
    TurnAfterCompletion(turn, |q|);
    assert LeftOut(q, p)[successor] == q[if p + 1 < |q| then p + 1 else 0];
    OthersKept(q, p, Position(turn + 1, |q| - 1), successor);
  }

  /** Different places of a queue without one entry hold different entries. */
  lemma OthersKept(q: seq<Task>, p: nat, i: nat, k: nat)
    requires p < |q| && i < |q| - 1 && k < |q| - 1
    requires forall i, k :: 0 <= i < k < |q| ==> q[i] != q[k]
    ensures var r := LeftOut(q, p); r[i] == r[k] <==> i == k
  {
    var r := LeftOut(q, p);
    assert r[i] == q[if i < p then i else i + 1] && r[k] == q[if k < p then k else k + 1];
  }

  /** A run that skips a task: of three queued tasks the first is served and completed, and the next
      turn goes to the third. */
  method CompletionSkips(priority: Level) returns (tasks: seq<Task>, served: Task, next: Task)
    ensures |tasks| == 3 && served == tasks[0] && next == tasks[2] && next != tasks[1]
  {
    var a := new Task(priority, 0.0, "a", 1);
    var b := new Task(priority, 1.0, "b", 1);
    var c := new Task(priority, 2.0, "c", 1);
    var scheduler := new RoundRobinScheduler();
    scheduler.Enqueue(a);
    scheduler.Enqueue(b);
    scheduler.Enqueue(c);
    tasks := [a, b, c];
    served, next := ServeCompleteServe(scheduler);
    assert scheduler.queue == [b, c];
  }
}
