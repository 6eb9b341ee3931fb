/** Reconcile as the controller runs it, one call with nothing in between, and its proof
    against the protocol: the call is one run of the protocol's steps with fresh reads. */
module TaskJobReconciler {
  import opened Graphs
  import opened TaskJobOperator
  import opened TaskJobInvariant
  import opened TaskJobRuns

  datatype Outcome = Finished | RequeueAfter(seconds: nat) | Error

  /** How the API server answers one call: whether a Create makes the pod, whether it reports an
      error and which, whether the status write gets through; and the clock. */
  datatype Answers = Answers(created: bool, error: bool, message: string, written: bool, now: string)

  /** A Create that reports no error made the pod. */
  predicate Honest(a: Answers) {
    a.error || a.created
  }

  // ----- the events of one call -----

  function LastCalls(w: nat, v: nat, a: Answers): seq<Event> {
    [ListPods(w, v, a.now), Create(w, a.created, a.error, a.message), Update(w, a.written)]
  }

  /** One call's API calls. Those that its branch does not make have no effect. */
  function ReconcileEvents(s: State, w: nat, j: Name, a: Answers): seq<Event>
  {
    if j !in s.jobs then []
    else Begin(s, w, j)
         + LastCalls(w, |s.jobs[j].pods| - 1, a)
  }

  /** The state after the dependency checks from position k on. */
  function AfterChecks(s: State, w: nat, k: nat): State
    requires w in s.workers && s.workers[w].Checking? && s.workers[w].job in s.jobs
    requires k <= |s.jobs[s.workers[w].job].spec.dependsOn|
    decreases |s.jobs[s.workers[w].job].spec.dependsOn| - k
  {
    var wk := s.workers[w];
    var deps := s.jobs[wk.job].spec.dependsOn;
    if k == |deps| then Put(s, w, wk.(next := |deps|))
    else if deps[k] !in s.jobs then Drop(s, w)
    else if !Done(s, deps[k]) then
      Put(s, w, Writing(wk.job, wk.version, wk.status.(phase := Queued, message := "Waiting for dependencies")))
    else AfterChecks(s, w, k + 1)
  }

  lemma {:induction false} ChecksIdle(s: State, jobs: map<Name, Job>, w: nat, deps: seq<Name>)
    requires w !in s.workers || !s.workers[w].Checking?
    ensures Exec(s, CheckAll(jobs, w, deps)) == s
    decreases |deps|
  {
    if deps != [] {
      ChecksIdle(s, jobs, w, deps[1..]);
    }
  }

  lemma {:induction false} ChecksRun(s: State, w: nat, k: nat)
    requires w in s.workers && s.workers[w].Checking? && s.workers[w].next == k && s.workers[w].job in s.jobs
    requires k <= |s.jobs[s.workers[w].job].spec.dependsOn|
    ensures Exec(s, CheckAll(s.jobs, w, s.jobs[s.workers[w].job].spec.dependsOn[k..])) == AfterChecks(s, w, k)
    decreases |s.jobs[s.workers[w].job].spec.dependsOn| - k
  {
    var wk := s.workers[w];
    var deps := s.jobs[wk.job].spec.dependsOn;
    if k == |deps| {
      assert Put(s, w, wk.(next := |deps|)) == s;
    } else {
      var es := CheckAll(s.jobs, w, deps[k..]);
      assert deps[k..][1..] == deps[k + 1..];
      var s' := Step(s, es[0]);
      if Done(s, deps[k]) {
        ChecksRun(s', w, k + 1);
        AfterChecksSame(s, s', w, k + 1);
      } else {
        ChecksIdle(s', s.jobs, w, deps[k + 1..]);
      }
    }
  }

  lemma {:induction false} AfterChecksSame(s: State, s': State, w: nat, k: nat)
    requires w in s.workers && s.workers[w].Checking? && s.workers[w].job in s.jobs
    requires k <= |s.jobs[s.workers[w].job].spec.dependsOn|
    requires s' == Put(s, w, s.workers[w].(next := k))
    ensures AfterChecks(s', w, k) == AfterChecks(s, w, k)
    decreases |s.jobs[s.workers[w].job].spec.dependsOn| - k
  {
    var deps := s.jobs[s.workers[w].job].spec.dependsOn;
    if k < |deps| && Done(s, deps[k]) {
      AfterChecksSame(s, Put(s, w, s.workers[w].(next := k + 1)), w, k + 1);
      AfterChecksSame(s', Put(s', w, s'.workers[w].(next := k + 1)), w, k + 1);
      assert Put(s', w, s'.workers[w].(next := k + 1)) == Put(s, w, s.workers[w].(next := k + 1));
    }
  }

  lemma {:induction false} ChecksStop(s: State, w: nat, k: nat, m: nat)
    requires w in s.workers && s.workers[w].Checking? && s.workers[w].job in s.jobs
    requires k <= m <= |s.jobs[s.workers[w].job].spec.dependsOn|
    requires forall i :: k <= i < m ==> Done(s, s.jobs[s.workers[w].job].spec.dependsOn[i])
    ensures AfterChecks(s, w, k) == AfterChecks(s, w, m)
    decreases m - k
  {
    if k < m {
      ChecksStop(s, w, k + 1, m);
    }
  }

  /** What the last three calls do to a call that is past its dependency checks. */
  function Ending(s: State, w: nat, v: nat, a: Answers): State
  {
    UpdateStep(CreateStep(ListStep(s, w, v, a.now), w, a.created, a.error, a.message), w, a.written)
  }

  lemma EndingRuns(s: State, w: nat, v: nat, a: Answers)
    ensures Exec(s, LastCalls(w, v, a))
         == Ending(s, w, v, a)
  {
    ThreeCalls(s, w, v, a.now, a.created, a.error, a.message, a.written);
  }

  /** One call, from the first dependency that is not done (position m, or past the end). */
  lemma CallRuns(s: State, w: nat, j: Name, m: nat, a: Answers)
    requires w !in s.workers && j in s.jobs && !Terminal(Current(s.jobs[j]).phase)
    requires m <= |s.jobs[j].spec.dependsOn|
    requires forall i :: 0 <= i < m ==> Done(s, s.jobs[j].spec.dependsOn[i])
    requires m < |s.jobs[j].spec.dependsOn| ==> !Done(s, s.jobs[j].spec.dependsOn[m])
    ensures var read := Put(s, w, Checking(j, |s.jobs[j].statuses| - 1, Current(s.jobs[j]), 0));
            Exec(s, ReconcileEvents(s, w, j, a))
            == Ending(AfterChecks(read, w, m), w, |s.jobs[j].pods| - 1, a)
  {
    var read := Put(s, w, Checking(j, |s.jobs[j].statuses| - 1, Current(s.jobs[j]), 0));
    assert s.jobs[j].spec.dependsOn[0..] == s.jobs[j].spec.dependsOn;
    assert forall d :: Done(read, d) <==> Done(s, d);
    BeginIs(s, w, j);
    ChecksRun(read, w, 0);
    ChecksStop(read, w, 0, m);
    ThenEnding(s, Begin(s, w, j), ReconcileEvents(s, w, j, a), AfterChecks(read, w, m), w, |s.jobs[j].pods| - 1, a);
  }

  /** A call that found a dependency unfinished: it only writes that it is waiting. */
  lemma BlockedCall(s: State, w: nat, j: Name, m: nat, a: Answers)
    requires w !in s.workers && j in s.jobs && !Terminal(Current(s.jobs[j]).phase)
    requires m < |s.jobs[j].spec.dependsOn| && !Done(s, s.jobs[j].spec.dependsOn[m])
    requires forall i :: 0 <= i < m ==> Done(s, s.jobs[j].spec.dependsOn[i])
    ensures var waiting := Current(s.jobs[j]).(phase := Queued, message := "Waiting for dependencies");
            Exec(s, ReconcileEvents(s, w, j, a))
            == if s.jobs[j].spec.dependsOn[m] in s.jobs && a.written then AppendStatus(s, j, waiting) else s
  {
    CallRuns(s, w, j, m, a);
    var read := Put(s, w, Checking(j, |s.jobs[j].statuses| - 1, Current(s.jobs[j]), 0));
    assert forall d :: Done(read, d) <==> Done(s, d);
    var waiting := Current(s.jobs[j]).(phase := Queued, message := "Waiting for dependencies");
    if s.jobs[j].spec.dependsOn[m] in s.jobs {
      WriteRuns(s, w, j, waiting, a.written);
      assert AfterChecks(read, w, m) == Put(s, w, Writing(j, |s.jobs[j].statuses| - 1, waiting));
    } else {
      DropsOut(s, w, read.workers[w]);
    }
  }

  lemma DropsOut(s: State, w: nat, wk: Worker)
    requires w !in s.workers
    ensures Drop(Put(s, w, wk), w) == s
  {
    assert s.workers[w := wk] - {w} == s.workers;
  }

  /** A call that found a pod: it writes what syncStatus makes of it. */
  lemma SyncCall(s: State, w: nat, j: Name, a: Answers)
    requires w !in s.workers && j in s.jobs && !Terminal(Current(s.jobs[j]).phase) && DepsDone(s, j)
    requires CurrentPod(s.jobs[j]).Present?
    ensures var out := SyncStatus(Current(s.jobs[j]), CurrentPod(s.jobs[j]).phase, a.now);
            Exec(s, ReconcileEvents(s, w, j, a))
            == if out != [] && a.written then AppendStatus(s, j, out[0]) else s
  {
    ReadyCall(s, w, j, a);
    var ready := Put(s, w, ReadyWorker(s, j));
    var out := SyncStatus(Current(s.jobs[j]), CurrentPod(s.jobs[j]).phase, a.now);
    var listed := ListStep(ready, w, |s.jobs[j].pods| - 1, a.now);
    if out == [] {
      DropsOut(s, w, ReadyWorker(s, j));
      assert listed == s;
    } else {
      WriteRuns(s, w, j, out[0], a.written);
      assert listed == Put(s, w, Writing(j, |s.jobs[j].statuses| - 1, out[0]));
    }
  }

  /** The status a call writes after it found no pod. */
  function NoPodStatus(job: Job, j: Name, a: Answers): Status {
    if job.spec.image == "" then Current(job).(phase := Failed, message := "No image specified")
    else if a.error then Current(job).(phase := Failed, message := "Pod creation failed: " + a.message)
    else Current(job).(phase := Running, podName := PodName(j))
  }

  lemma NoPodCall(s: State, w: nat, j: Name, a: Answers)
    requires w !in s.workers && j in s.jobs && !Terminal(Current(s.jobs[j]).phase) && DepsDone(s, j)
    requires CurrentPod(s.jobs[j]) == Absent && Honest(a)
    ensures var st := NoPodStatus(s.jobs[j], j, a);
            var podded := if s.jobs[j].spec.image != "" then Created(s, j, a.created, a.error, a.message) else s;
            Exec(s, ReconcileEvents(s, w, j, a))
            == if a.written then AppendStatus(podded, j, st) else podded
  {
    ReadyCall(s, w, j, a);
    if s.jobs[j].spec.image == "" {
      NoImageCall(s, w, j, a);
    } else {
      ListAbsent(s, w, j, a.now);
      CreateCall(s, w, j, a);
    }
  }

  /** A call whose dependencies are all done goes on to list the pods. */
  lemma ReadyCall(s: State, w: nat, j: Name, a: Answers)
    requires w !in s.workers && j in s.jobs && !Terminal(Current(s.jobs[j]).phase) && DepsDone(s, j)
    ensures Exec(s, ReconcileEvents(s, w, j, a))
         == Ending(Put(s, w, ReadyWorker(s, j)), w, |s.jobs[j].pods| - 1, a)
  {
    BeginRuns(s, w, j);
    ThenEnding(s, Begin(s, w, j), ReconcileEvents(s, w, j, a), Put(s, w, ReadyWorker(s, j)), w, |s.jobs[j].pods| - 1, a);
  }

  lemma ThenEnding(s: State, es: seq<Event>, all: seq<Event>, s1: State, w: nat, v: nat, a: Answers)
    requires Exec(s, es) == s1 && all == es + LastCalls(w, v, a)
    ensures Exec(s, all) == Ending(s1, w, v, a)
  {
    ExecJoin(s, es, LastCalls(w, v, a));
    EndingRuns(s1, w, v, a);
  }

  lemma NoImageCall(s: State, w: nat, j: Name, a: Answers)
    requires w !in s.workers && j in s.jobs && CurrentPod(s.jobs[j]) == Absent && s.jobs[j].spec.image == ""
    ensures var st := NoPodStatus(s.jobs[j], j, a);
            Ending(Put(s, w, ReadyWorker(s, j)), w, |s.jobs[j].pods| - 1, a)
            == if a.written then AppendStatus(s, j, st) else s
  {
    var st := NoPodStatus(s.jobs[j], j, a);
    WriteRuns(s, w, j, st, a.written);
    assert ListStep(Put(s, w, ReadyWorker(s, j)), w, |s.jobs[j].pods| - 1, a.now)
        == Put(s, w, Writing(j, |s.jobs[j].statuses| - 1, st));
  }

  lemma CreateCall(s: State, w: nat, j: Name, a: Answers)
    requires w !in s.workers && j in s.jobs && s.jobs[j].spec.image != ""
    requires CurrentPod(s.jobs[j]) == Absent && Honest(a)
    ensures var st := NoPodStatus(s.jobs[j], j, a);
            var podded := Created(s, j, a.created, a.error, a.message);
            var creating := Put(s, w, Creating(j, |s.jobs[j].statuses| - 1, Current(s.jobs[j])));
            UpdateStep(CreateStep(creating, w, a.created, a.error, a.message), w, a.written)
            == if a.written then AppendStatus(podded, j, st) else podded
  {
    var st := NoPodStatus(s.jobs[j], j, a);
    var podded := Created(s, j, a.created, a.error, a.message);
    var creating := Put(s, w, Creating(j, |s.jobs[j].statuses| - 1, Current(s.jobs[j])));
    var writing := Writing(j, |s.jobs[j].statuses| - 1, st);
    WriteRuns(podded, w, j, st, a.written);
    assert CreateStep(creating, w, a.created, a.error, a.message) == Put(podded, w, writing) by {
      assert creating.workers[w := writing] == podded.workers[w := writing];
    }
  }

  /** The status of a call that is past its dependency checks, by what it found, field by field. */
  function Shown(job: Job, j: Name, a: Answers): Status {
    var st := Current(job);
    match CurrentPod(job)
    case Absent =>
      if job.spec.image == "" then st.(phase := Failed, message := "No image specified")
      else if a.error then st.(phase := Failed, message := "Pod creation failed: " + a.message)
      else st.(phase := Running, podName := "taskjob-" + j)
    case Present(p) =>
      match p
      case PodRunning =>
        st.(phase := Running, message := "Pod is running", startTime := if st.startTime == "" then a.now else st.startTime)
      case PodSucceeded =>
        st.(phase := Completed, message := "Task completed successfully", endTime := a.now, exitCode := 0)
      case PodFailed => st.(phase := Failed, message := "Pod failed", endTime := a.now)
      case PodPending => st.(phase := Queued, message := "Pod pending scheduling")
      case PodUnknown => st
  }

  lemma AppendShows(s: State, j: Name, st: Status)
    requires j in s.jobs
    ensures var s' := AppendStatus(s, j, st);
            && s'.workers == s.workers && OnlyJobChanged(s, s', j)
            && Current(s'.jobs[j]) == st && s'.jobs[j].pods == s.jobs[j].pods
  {
  }

  /** What a call leaves behind: only its own job changed, the newest status is the given one, and the
      pods are those given. */
  predicate Leaves(s: State, s': State, j: Name, st: Status, pods: seq<PodView>) {
    && s'.workers == s.workers && OnlyJobChanged(s, s', j)
    && Current(s'.jobs[j]) == st && s'.jobs[j].pods == pods
  }

  lemma PodFoundShows(s: State, w: nat, j: Name, a: Answers)
    requires w !in s.workers && j in s.jobs && !Terminal(Current(s.jobs[j]).phase) && DepsDone(s, j)
    requires CurrentPod(s.jobs[j]).Present?
    ensures var job := s.jobs[j];
            Leaves(s, Exec(s, ReconcileEvents(s, w, j, a)), j, if a.written then Shown(job, j, a) else Current(job), job.pods)
  {
    SyncCall(s, w, j, a);
    SyncShows(s.jobs[j], j, a);
    AppendShows(s, j, Shown(s.jobs[j], j, a));
  }

  lemma SyncShows(job: Job, j: Name, a: Answers)
    requires CurrentPod(job).Present?
    ensures var out := SyncStatus(Current(job), CurrentPod(job).phase, a.now);
            if out == [] then Shown(job, j, a) == Current(job) else out[0] == Shown(job, j, a)
  {
  }

  lemma CreatedShows(s: State, j: Name, created: bool, error: bool, message: string)
    requires j in s.jobs
    ensures var job := s.jobs[j];
            Leaves(s, Created(s, j, created, error, message), j, Current(job),
                   if created then job.pods + [Present(PodPending)] else job.pods)
  {
  }

  lemma LeavesJoin(s: State, s1: State, s2: State, j: Name, st: Status, st': Status, pods: seq<PodView>)
    requires Leaves(s, s1, j, st, pods) && Leaves(s1, s2, j, st', pods)
    ensures Leaves(s, s2, j, st', pods)
  {
  }

  lemma NoPodIsShown(job: Job, j: Name, a: Answers)
    requires CurrentPod(job) == Absent
    ensures NoPodStatus(job, j, a) == Shown(job, j, a)
  {
  }

  lemma NoPodShows(s: State, w: nat, j: Name, a: Answers)
    requires w !in s.workers && j in s.jobs && !Terminal(Current(s.jobs[j]).phase) && DepsDone(s, j) && Honest(a)
    requires CurrentPod(s.jobs[j]) == Absent
    ensures var job := s.jobs[j];
            Leaves(s, Exec(s, ReconcileEvents(s, w, j, a)), j, if a.written then Shown(job, j, a) else Current(job),
                   if job.spec.image != "" && a.created then job.pods + [Present(PodPending)] else job.pods)
  {
    var job := s.jobs[j];
    NoPodCall(s, w, j, a);
    NoPodIsShown(job, j, a);
    if job.spec.image == "" {
      AppendShows(s, j, Shown(job, j, a));
    } else {
      var podded := Created(s, j, a.created, a.error, a.message);
      CreatedShows(s, j, a.created, a.error, a.message);
      AppendShows(podded, j, Shown(job, j, a));
      if a.written {
        LeavesJoin(s, podded, AppendStatus(podded, j, Shown(job, j, a)), j, Current(job), Shown(job, j, a), podded.jobs[j].pods);
      }
    }
  }

  /** A call with finished dependencies touches its own job only. If its write gets through, the newest
      status is what it found: a running pod as Running with a start time, a pending one as Queued, a
      succeeded one as Completed and a failed one as Failed with an end time, a created one as Running
      under its name; an unknown phase changes nothing. The pod is there if a Create made it. */
  lemma CallShows(s: State, w: nat, j: Name, a: Answers)
    requires w !in s.workers && j in s.jobs && !Terminal(Current(s.jobs[j]).phase) && DepsDone(s, j) && Honest(a)
    ensures var job := s.jobs[j];
            var makes := CurrentPod(job) == Absent && job.spec.image != "" && a.created;
            Leaves(s, Exec(s, ReconcileEvents(s, w, j, a)), j, if a.written then Shown(job, j, a) else Current(job),
                   if makes then job.pods + [Present(PodPending)] else job.pods)
  {
    if CurrentPod(s.jobs[j]) == Absent {
      NoPodShows(s, w, j, a);
    } else {
      PodFoundShows(s, w, j, a);
    }
  }

  lemma MovedJob(s: State, j: Name, p: PodPhase)
    requires j in s.jobs && CurrentPod(s.jobs[j]).Present?
    requires CurrentPod(s.jobs[j]).phase != PodSucceeded && CurrentPod(s.jobs[j]).phase != PodFailed
    ensures var s1 := Step(s, PodMoves(j, p));
            && s1.workers == s.workers && OnlyJobChanged(s, s1, j) && s1.jobs[j].statuses == s.jobs[j].statuses
            && CurrentPod(s1.jobs[j]) == Present(p)
  {
  }

  /** Every move of a live pod is recorded by the job's next written call: the phase of the status is
      that of the pod, a first move to Running sets the start time and an end sets the end time. */
  lemma MoveIsRecorded(s: State, w: nat, j: Name, p: PodPhase, a: Answers)
    requires w !in s.workers && j in s.jobs && !Terminal(Current(s.jobs[j]).phase) && DepsDone(s, j) && a.written
    requires CurrentPod(s.jobs[j]).Present?
    requires CurrentPod(s.jobs[j]).phase != PodSucceeded && CurrentPod(s.jobs[j]).phase != PodFailed
    ensures var s1 := Step(s, PodMoves(j, p));
            var s2 := Exec(s1, ReconcileEvents(s1, w, j, a));
            j in s2.jobs &&
            var st, st' := Current(s.jobs[j]), Current(s2.jobs[j]);
            match p
            case PodRunning => st'.phase == Running && st'.startTime == (if st.startTime == "" then a.now else st.startTime)
            case PodSucceeded => st'.phase == Completed && st'.endTime == a.now
            case PodFailed => st'.phase == Failed && st'.endTime == a.now
            case PodPending => st'.phase == Queued
            case PodUnknown => st' == st
  {
    var s1 := Step(s, PodMoves(j, p));
    MovedJob(s, j, p);
    DepsDoneElsewhere(s, s1, j);
    PodFoundShows(s1, w, j, a);
  }

  lemma EvictedJob(s: State, j: Name)
    requires j in s.jobs
    ensures var s1 := Step(s, Evict(j));
            && s1.workers == s.workers && OnlyJobChanged(s, s1, j) && s1.jobs[j].statuses == s.jobs[j].statuses
            && s1.jobs[j].pods == s.jobs[j].pods + [Absent]
  {
  }

  /** A job whose pod is removed from outside before the job is Completed or Failed gets another one
      from its next call. */
  lemma EvictionIsRepaired(s: State, w: nat, j: Name, a: Answers)
    requires w !in s.workers && j in s.jobs && !Terminal(Current(s.jobs[j]).phase) && DepsDone(s, j)
    requires s.jobs[j].spec.image != "" && a.created && !a.error
    ensures var s1 := Step(s, Evict(j));
            var s2 := Exec(s1, ReconcileEvents(s1, w, j, a));
            j in s2.jobs && s2.jobs[j].pods == s.jobs[j].pods + [Absent] + [Present(PodPending)]
  {
    var s1 := Step(s, Evict(j));
    EvictedJob(s, j);
    DepsDoneElsewhere(s, s1, j);
    NoPodShows(s1, w, j, a);
  }

  // ----- old reads -----

  /** A call that reads version v of its job and version p of its pods. */
  function OldReadEvents(s: State, w: nat, j: Name, v: nat, p: nat, a: Answers): seq<Event>
    requires j in s.jobs
  {
    [Get(w, j, v)] + CheckAll(s.jobs, w, s.jobs[j].spec.dependsOn) + LastCalls(w, p, a)
  }

  lemma OldReadReady(s: State, w: nat, j: Name, v: nat, p: nat, a: Answers)
    requires w !in s.workers && j in s.jobs && DepsDone(s, j)
    requires v < |s.jobs[j].statuses| && !Terminal(s.jobs[j].statuses[v].phase)
    ensures Exec(s, OldReadEvents(s, w, j, v, p, a))
         == Ending(Put(s, w, Checking(j, v, s.jobs[j].statuses[v], |s.jobs[j].spec.dependsOn|)), w, p, a)
  {
    var checks := CheckAll(s.jobs, w, s.jobs[j].spec.dependsOn);
    ExecCons(s, Get(w, j, v), checks);
    AllChecksRun(s, w, Checking(j, v, s.jobs[j].statuses[v], 0));
    ThenEnding(s, [Get(w, j, v)] + checks, OldReadEvents(s, w, j, v, p, a),
               Put(s, w, Checking(j, v, s.jobs[j].statuses[v], |s.jobs[j].spec.dependsOn|)), w, p, a);
  }

  lemma OldReadEnding(s: State, w: nat, j: Name, v: nat, a: Answers)
    requires w !in s.workers && j in s.jobs && s.jobs[j].spec.image != "" && v < |s.jobs[j].statuses| - 1
    requires CurrentPod(s.jobs[j]) == Absent && a.created && !a.error
    ensures Ending(Put(s, w, Checking(j, v, s.jobs[j].statuses[v], |s.jobs[j].spec.dependsOn|)), w, |s.jobs[j].pods| - 1, a)
         == AddPod(s, j, Present(PodPending))
  {
    var st, podded := s.jobs[j].statuses[v], AddPod(s, j, Present(PodPending));
    var writing := Writing(j, v, st.(phase := Running, podName := PodName(j)));
    PutTwice(s, w, Checking(j, v, st, |s.jobs[j].spec.dependsOn|), Creating(j, v, st));
    PutTwice(podded, w, Creating(j, v, st), writing);
    DropsOut(podded, w, writing);
  }

  /** A call that starts from an old status that was not an end makes a pod if there is none, also for
      a job that has ended since. Its status write is refused. */
  lemma OldReadStartsPod(s: State, w: nat, j: Name, v: nat, a: Answers)
    requires w !in s.workers && j in s.jobs && DepsDone(s, j) && s.jobs[j].spec.image != ""
    requires v < |s.jobs[j].statuses| - 1 && !Terminal(s.jobs[j].statuses[v].phase)
    requires CurrentPod(s.jobs[j]) == Absent && a.created && !a.error
    ensures Exec(s, OldReadEvents(s, w, j, v, |s.jobs[j].pods| - 1, a)) == AddPod(s, j, Present(PodPending))
  {
    OldReadReady(s, w, j, v, |s.jobs[j].pods| - 1, a);
    OldReadEnding(s, w, j, v, a);
  }

  /** A Completed job whose pod was removed from outside. */
  lemma RemovedAfterDone(s: State, j: Name)
    requires Inv(s) && Done(s, j)
    ensures var s' := Step(s, Evict(j));
            && Done(s', j) && DepsDone(s', j) && s'.jobs[j].spec.image != "" && CurrentPod(s'.jobs[j]) == Absent
            && |s'.jobs[j].statuses| > 1 && s'.jobs[j].statuses[0] == FRESH
  {
    DoneHasDeps(s, j);
    assert JobOk(s, j);
    assert Present(PodSucceeded) in s.jobs[j].pods;
    assert forall d :: Done(Step(s, Evict(j)), d) <==> Done(s, d);
  }

  lemma OldReadUndisturbed(s: State, w: nat, j: Name, v: nat, p: nat, a: Answers)
    requires j in s.jobs
    ensures Undisturbed(OldReadEvents(s, w, j, v, p, a))
  {
    ChecksUndisturbed(s.jobs, w, s.jobs[j].spec.dependsOn);
  }

  lemma RunsAgain(s: State, j: Name) returns (call: seq<Event>)
    requires Done(s, j) && DepsDone(s, j) && s.jobs[j].spec.image != "" && CurrentPod(s.jobs[j]) == Absent
    requires |s.jobs[j].statuses| > 1 && s.jobs[j].statuses[0] == FRESH
    ensures Undisturbed(call) && Exec(s, call) == AddPod(s, j, Present(PodPending))
  {
    var w := FreshWorker(s.workers.Keys);
    var a := Answers(true, false, "", true, "");
    call := OldReadEvents(s, w, j, 0, |s.jobs[j].pods| - 1, a);
    OldReadStartsPod(s, w, j, 0, a);
    OldReadUndisturbed(s, w, j, 0, |s.jobs[j].pods| - 1, a);
  }

  /** In every reachable state a Completed job can be run again once its pod is removed from outside:
      a call with an old read gives it another pod, while its status stays Completed. */
  lemma CompletedRunsAgain(es: seq<Event>, j: Name) returns (call: seq<Event>)
    requires Done(Exec(INIT, es), j)
    ensures Undisturbed(call)
    ensures var s := Exec(Exec(INIT, es + [Evict(j)]), call);
            Done(s, j) && CurrentPod(s.jobs[j]) == Present(PodPending)
  {
    InitInv();
    RunInv(INIT, es);
    ExecJoin(INIT, es, [Evict(j)]);
    ExecCons(Exec(INIT, es), Evict(j), []);
    RemovedAfterDone(Exec(INIT, es), j);
    call := RunsAgain(Step(Exec(INIT, es), Evict(j)), j);
  }

  /** The first dependency that is not Completed does not exist. */
  ghost predicate FirstOpenIsMissing(s: State, deps: seq<Name>) {
    exists m :: 0 <= m < |deps| && deps[m] !in s.jobs && forall i :: 0 <= i < m ==> Done(s, deps[i])
  }

  // ----- the controller -----

  class Reconciler {
    /** The API server and the other calls in flight. */
    var s: State

    constructor (initial: State)
      ensures s == initial
    {
      s := initial;
    }

    method CheckDependencies(deps: seq<Name>) returns (ok: bool, err: bool, ghost stop: nat)
      ensures ok <==> forall d :: d in deps ==> Done(s, d)
      ensures stop <= |deps| && (forall i :: 0 <= i < stop ==> Done(s, deps[i]))
      ensures stop < |deps| <==> !ok
      ensures stop < |deps| ==> !Done(s, deps[stop]) && (err <==> deps[stop] !in s.jobs)
      ensures err ==> !ok
    {
      var i := 0;
      while i < |deps|
        invariant 0 <= i <= |deps|
        invariant forall k :: 0 <= k < i ==> Done(s, deps[k])
      {
        if deps[i] !in s.jobs {
          assert deps[i] in deps;
          return false, true, i;
        }
        if Current(s.jobs[deps[i]]).phase != Completed {
          assert deps[i] in deps;
          return false, false, i;
        }
        i := i + 1;
      }
      return true, false, i;
    }

    /** Status().Update on top of the version just read. */
    method UpdateStatus(j: Name, st: Status, written: bool)
      requires j in s.jobs
      modifies this
      ensures s == if written then AppendStatus(old(s), j, st) else old(s)
    {
      if written {
        s := AppendStatus(s, j, st);
      }
    }

    method Reconcile(ghost w: nat, j: Name, a: Answers)
      returns (r: Outcome)
      requires w !in s.workers
      requires Honest(a)
      modifies this
      ensures s == Exec(old(s), ReconcileEvents(old(s), w, j, a))
      ensures r == Finished ==> j !in s.jobs || Terminal(Current(s.jobs[j]).phase)
      ensures j !in old(s).jobs || Terminal(Current(old(s).jobs[j]).phase) ==> r == Finished && s == old(s)
      ensures j in old(s).jobs && !Terminal(Current(old(s).jobs[j]).phase) && !DepsDone(old(s), j) ==>
                r == if FirstOpenIsMissing(old(s), old(s).jobs[j].spec.dependsOn) || !a.written then Error else RequeueAfter(10)
      ensures j in old(s).jobs && !Terminal(Current(old(s).jobs[j]).phase) && DepsDone(old(s), j) ==>
                r == match CurrentPod(old(s).jobs[j])
                     case Absent =>
                       if old(s).jobs[j].spec.image == "" then (if a.written then Finished else Error)
                       else if a.error || !a.written then Error else RequeueAfter(5)
                     case Present(p) =>
                       if p == PodUnknown then RequeueAfter(10)
                       else if !a.written then Error
                       else if p == PodSucceeded || p == PodFailed then Finished
                       else RequeueAfter(5)
    {
      if j !in s.jobs {
        return Finished;
      }
      var job := s.jobs[j];
      var st := Current(job);
      if Terminal(st.phase) {
        TerminalIdle(s, w, j, a);
        return Finished;
      }
      var depsOk, err, stop := CheckDependencies(job.spec.dependsOn);
      if !depsOk {
        BlockedCall(s, w, j, stop, a);
      }
      if err {
        return Error;
      }
      if !depsOk {
        st := st.(phase := Queued, message := "Waiting for dependencies");
        UpdateStatus(j, st, a.written);
        return if a.written then RequeueAfter(10) else Error;
      }
      match CurrentPod(job)
      case Absent =>
        NoPodCall(s, w, j, a);
        if job.spec.image == "" {
          st := st.(phase := Failed, message := "No image specified");
          UpdateStatus(j, st, a.written);
          return if a.written then Finished else Error;
        }
        if a.created {
          s := AddPod(s, j, Present(PodPending));
        }
        if a.error {
          s := AddCreateError(s, j, a.message);
          st := st.(phase := Failed, message := "Pod creation failed: " + a.message);
          UpdateStatus(j, st, a.written);
          return Error;
        }
        st := st.(phase := Running, podName := PodName(j));
        UpdateStatus(j, st, a.written);
        return if a.written then RequeueAfter(5) else Error;
      case Present(p) =>
        SyncCall(s, w, j, a);
        var out := SyncStatus(st, p, a.now);
        if out == [] {
          return RequeueAfter(10);
        }
        UpdateStatus(j, out[0], a.written);
        return if !a.written then Error else if Terminal(out[0].phase) then Finished else RequeueAfter(5);
    }
  }

  function AppendStatus(s: State, j: Name, st: Status): State
    requires j in s.jobs
  {
    s.(jobs := s.jobs[j := s.jobs[j].(statuses := s.jobs[j].statuses + [st])],
       completions := if st.phase == Completed then s.completions + [j] else s.completions)
  }

  /** A write on top of the newest version takes effect when it reaches the server. */
  lemma WriteRuns(s: State, w: nat, j: Name, st: Status, written: bool)
    requires w !in s.workers && j in s.jobs
    ensures UpdateStep(Put(s, w, Writing(j, |s.jobs[j].statuses| - 1, st)), w, written)
         == if written then AppendStatus(s, j, st) else s
  {
    assert s.workers[w := Writing(j, |s.jobs[j].statuses| - 1, st)] - {w} == s.workers;
  }

  lemma TerminalIdle(s: State, w: nat, j: Name, a: Answers)
    requires w !in s.workers && j in s.jobs && Terminal(Current(s.jobs[j]).phase)
    ensures Exec(s, ReconcileEvents(s, w, j, a)) == s
  {
    var begin := Begin(s, w, j);
    var tail := LastCalls(w, |s.jobs[j].pods| - 1, a);
    assert begin[1..] == CheckAll(s.jobs, w, s.jobs[j].spec.dependsOn);
    ChecksIdle(s, s.jobs, w, s.jobs[j].spec.dependsOn);
    ExecJoin(s, begin, tail);
    EndingRuns(s, w, |s.jobs[j].pods| - 1, a);
  }
}
