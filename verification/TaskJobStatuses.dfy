/** Where every recorded TaskJob status comes from: what each field says really happened to a
    pod of that job. */
module TaskJobStatuses {
  import opened Graphs
  import opened TaskJobOperator
  import opened TaskJobInvariant

  predicate Seen(job: Job, p: PodPhase) {
    Present(p) in job.pods
  }

  /** The status is backed by the job's pods, its spec and its failed Creates. */
  predicate Backed(j: Name, job: Job, st: Status) {
    && (st.phase == Running ==> EverHadPod(job))
    && (st.phase == Completed ==> Seen(job, PodSucceeded) && st.message == "Task completed successfully")
    && (st.phase == Failed ==> FailureBacked(job, st))
    && (st.message == "Pod is running" ==> st.phase == Running && Seen(job, PodRunning))
    && (st.message == "Pod pending scheduling" ==> (st.phase == Queued || st.phase == Running) && Seen(job, PodPending))
    && (st.phase == Queued ==> st.message == "Pod pending scheduling" || st.message == "Waiting for dependencies")
    && (st.podName != "" ==> st.podName == PodName(j) && EverHadPod(job))
    && (st.startTime != "" ==> Seen(job, PodRunning))
    && (st.endTime != "" ==> (st.phase == Completed && Seen(job, PodSucceeded)) || (st.phase == Failed && Seen(job, PodFailed)))
    && st.exitCode == 0
  }

  predicate FailureBacked(job: Job, st: Status) {
    || (st.message == "Pod failed" && Seen(job, PodFailed))
    || (st.message == "No image specified" && job.spec.image == "")
    || CreateFailed(job, st.message)
  }

  predicate CreateFailed(job: Job, message: string) {
    exists i :: 0 <= i < |job.createErrors| && message == "Pod creation failed: " + job.createErrors[i]
  }

  /** What a reconcile holds: a backed status that is not final, or the one it will write. */
  predicate HeldOk(s: State, wk: Worker) {
    && wk.job in s.jobs && Backed(wk.job, s.jobs[wk.job], wk.status)
    && (!wk.Writing? ==> !Terminal(wk.status.phase))
  }

  ghost predicate AllBacked(s: State) {
    && (forall j :: j in s.jobs ==> JobBacked(s, j))
    && (forall w :: w in s.workers ==> HeldOk(s, s.workers[w]))
  }

  predicate JobBacked(s: State, j: Name)
    requires j in s.jobs
  {
    forall i :: 0 <= i < |s.jobs[j].statuses| ==> Backed(j, s.jobs[j], s.jobs[j].statuses[i])
  }

  lemma BackedGrows(j: Name, job: Job, job': Job, st: Status)
    requires Backed(j, job, st) && job'.spec == job.spec && job.pods <= job'.pods && job.createErrors <= job'.createErrors
    ensures Backed(j, job', st)
  {
    assert forall v :: v in job.pods ==> v in job'.pods;
    if CreateFailed(job, st.message) {
      var i :| 0 <= i < |job.createErrors| && st.message == "Pod creation failed: " + job.createErrors[i];
      assert job'.createErrors[i] == job.createErrors[i];
    }
  }

  // ----- one step -----

  lemma PutBacked(s: State, w: nat, wk: Worker)
    requires AllBacked(s) && HeldOk(s, wk)
    ensures AllBacked(Put(s, w, wk))
  {
    var s' := Put(s, w, wk);
    forall u | u in s'.workers ensures HeldOk(s', s'.workers[u]) {
      assert u != w ==> HeldOk(s, s.workers[u]);
    }
    forall j | j in s'.jobs ensures JobBacked(s', j) {
      assert JobBacked(s, j);
    }
  }

  lemma DropBacked(s: State, w: nat)
    requires AllBacked(s)
    ensures AllBacked(Drop(s, w))
  {
    var s' := Drop(s, w);
    forall u | u in s'.workers ensures HeldOk(s', s'.workers[u]) {
      assert HeldOk(s, s.workers[u]);
    }
    forall j | j in s'.jobs ensures JobBacked(s', j) {
      assert JobBacked(s, j);
    }
  }

  /** A change to the pods and failed Creates of jobs, all statuses and calls kept. */
  lemma GrowthBacked(s: State, s': State)
    requires AllBacked(s) && Continues(s, s') && s'.workers == s.workers && s'.jobs.Keys == s.jobs.Keys
    requires forall j :: j in s.jobs ==> s'.jobs[j].statuses == s.jobs[j].statuses
    ensures AllBacked(s')
  {
    forall u | u in s'.workers ensures HeldOk(s', s'.workers[u]) {
      var wk := s.workers[u];
      assert HeldOk(s, wk);
      BackedGrows(wk.job, s.jobs[wk.job], s'.jobs[wk.job], wk.status);
    }
    forall k | k in s'.jobs ensures JobBacked(s', k) {
      assert JobBacked(s, k);
      forall i | 0 <= i < |s'.jobs[k].statuses| ensures Backed(k, s'.jobs[k], s'.jobs[k].statuses[i]) {
        BackedGrows(k, s.jobs[k], s'.jobs[k], s.jobs[k].statuses[i]);
      }
    }
  }

  lemma SyncBacked(j: Name, job: Job, st: Status, p: PodPhase, now: string)
    requires Backed(j, job, st) && !Terminal(st.phase) && Seen(job, p)
    ensures SyncStatus(st, p, now) != [] ==> Backed(j, job, SyncStatus(st, p, now)[0])
  {
    assert EverHadPod(job);
  }

  lemma GetBacked(s: State, w: nat, j: Name, v: nat)
    requires AllBacked(s)
    ensures AllBacked(GetStep(s, w, j, v))
  {
    if GetStep(s, w, j, v) != s {
      assert JobBacked(s, j);
      PutBacked(s, w, Checking(j, v, s.jobs[j].statuses[v], 0));
    }
  }

  lemma CheckDepBacked(s: State, w: nat, v: nat)
    requires AllBacked(s)
    ensures AllBacked(CheckDepStep(s, w, v))
  {
    var s' := CheckDepStep(s, w, v);
    CheckDepShape(s, w, v);
    if s' == Drop(s, w) {
      DropBacked(s, w);
    } else if s' != s {
      assert HeldOk(s, s.workers[w]);
      PutBacked(s, w, s'.workers[w]);
    }
  }

  lemma ListBacked(s: State, w: nat, v: nat, now: string)
    requires AllBacked(s)
    ensures AllBacked(ListStep(s, w, v, now))
  {
    var s' := ListStep(s, w, v, now);
    if s' != s {
      var wk := s.workers[w];
      var job := s.jobs[wk.job];
      assert HeldOk(s, wk);
      if job.pods[v].Present? {
        assert job.pods[v] in job.pods;
        SyncBacked(wk.job, job, wk.status, job.pods[v].phase, now);
      }
      if w in s'.workers {
        PutBacked(s, w, s'.workers[w]);
      } else {
        DropBacked(s, w);
      }
    }
  }

  lemma CreationFailedBacked(j: Name, job: Job, st: Status, message: string)
    requires Backed(j, job, st) && !Terminal(st.phase) && message in job.createErrors
    ensures Backed(j, job, st.(phase := Failed, message := "Pod creation failed: " + message))
  {
    var i :| 0 <= i < |job.createErrors| && job.createErrors[i] == message;
    assert CreateFailed(job, "Pod creation failed: " + message);
    assert ("Pod creation failed: " + message)[4] == 'c' && "Pod pending scheduling"[4] == 'p' && "Pod is running"[4] == 'i';
  }

  lemma CreationBacked(j: Name, job: Job, st: Status)
    requires Backed(j, job, st) && !Terminal(st.phase) && EverHadPod(job)
    ensures Backed(j, job, st.(phase := Running, podName := PodName(j)))
  {
  }

  lemma CreatedBacked(s: State, j: Name, created: bool, error: bool, message: string)
    requires AllBacked(s) && j in s.jobs
    ensures AllBacked(Created(s, j, created, error, message))
  {
    GrowthBacked(s, Created(s, j, created, error, message));
  }

  /** What a call holds after its Create. */
  lemma CreateHeld(s: State, j: Name, st: Status, created: bool, error: bool, message: string)
    requires j in s.jobs && Backed(j, s.jobs[j], st) && !Terminal(st.phase) && (error || created)
    ensures var job := Created(s, j, created, error, message).jobs[j];
            Backed(j, job, if error then st.(phase := Failed, message := "Pod creation failed: " + message)
                           else st.(phase := Running, podName := PodName(j)))
  {
    var job := Created(s, j, created, error, message).jobs[j];
    BackedGrows(j, s.jobs[j], job, st);
    if error {
      assert message in job.createErrors;
      CreationFailedBacked(j, job, st, message);
    } else {
      assert Present(PodPending) in job.pods;
      CreationBacked(j, job, st);
    }
  }

  lemma CreateBacked(s: State, w: nat, created: bool, error: bool, message: string)
    requires AllBacked(s)
    ensures AllBacked(CreateStep(s, w, created, error, message))
  {
    var s' := CreateStep(s, w, created, error, message);
    if s' != s {
      var wk := s.workers[w];
      assert HeldOk(s, wk);
      CreatedBacked(s, wk.job, created, error, message);
      CreateHeld(s, wk.job, wk.status, created, error, message);
      PutBacked(Created(s, wk.job, created, error, message), w, s'.workers[w]);
    }
  }

  lemma UpdateBacked(s: State, w: nat, reached: bool)
    requires AllBacked(s)
    ensures AllBacked(UpdateStep(s, w, reached))
  {
    var s' := UpdateStep(s, w, reached);
    if s'.jobs == s.jobs {
      DropBacked(s, w);
    } else {
      var wk := s.workers[w];
      assert HeldOk(s, wk);
      forall j | j in s'.jobs ensures JobBacked(s', j) {
        assert JobBacked(s, j);
        forall i | 0 <= i < |s'.jobs[j].statuses| ensures Backed(j, s'.jobs[j], s'.jobs[j].statuses[i]) {
          var st := if i < |s.jobs[j].statuses| then s.jobs[j].statuses[i] else wk.status;
          BackedGrows(j, s.jobs[j], s'.jobs[j], st);
        }
      }
      forall u | u in s'.workers ensures HeldOk(s', s'.workers[u]) {
        var other := s.workers[u];
        assert HeldOk(s, other);
        BackedGrows(other.job, s.jobs[other.job], s'.jobs[other.job], other.status);
      }
    }
  }

  lemma SubmitBacked(s: State, j: Name, spec: Spec)
    requires AllBacked(s)
    ensures AllBacked(Step(s, Submit(j, spec)))
  {
    var s' := Step(s, Submit(j, spec));
    forall u | u in s'.workers ensures HeldOk(s', s'.workers[u]) {
      assert HeldOk(s, s.workers[u]);
    }
    forall k | k in s'.jobs ensures JobBacked(s', k) {
      assert k in s.jobs ==> JobBacked(s, k);
    }
  }

  lemma AddPodBacked(s: State, j: Name, view: PodView)
    requires AllBacked(s) && j in s.jobs
    ensures AllBacked(AddPod(s, j, view))
  {
    assert Continues(s, AddPod(s, j, view));
    GrowthBacked(s, AddPod(s, j, view));
  }

  lemma PodMovesBacked(s: State, j: Name, p: PodPhase)
    requires AllBacked(s)
    ensures AllBacked(PodStep(s, j, p))
  {
    if PodStep(s, j, p) != s {
      AddPodBacked(s, j, Present(p));
    }
  }

  lemma EvictBacked(s: State, j: Name)
    requires AllBacked(s)
    ensures AllBacked(Step(s, Evict(j)))
  {
    if j in s.jobs {
      AddPodBacked(s, j, Absent);
    }
  }

  lemma StepBacked(s: State, e: Event)
    requires AllBacked(s)
    ensures AllBacked(Step(s, e))
  {
    match e
    case Submit(j, spec) => SubmitBacked(s, j, spec);
    case Get(w, j, v) => GetBacked(s, w, j, v);
    case CheckDep(w, v) => CheckDepBacked(s, w, v);
    case ListPods(w, v, now) => ListBacked(s, w, v, now);
    case Create(w, created, error, message) => CreateBacked(s, w, created, error, message);
    case Update(w, reached) => UpdateBacked(s, w, reached);
    case Crash(w) => DropBacked(s, w);
    case PodMoves(j, p) => PodMovesBacked(s, j, p);
    case Evict(j) => EvictBacked(s, j);
  }

  lemma {:induction false} RunBacked(s: State, es: seq<Event>)
    requires AllBacked(s)
    ensures AllBacked(Exec(s, es))
    decreases |es|
  {
    if es != [] {
      StepBacked(s, es[0]);
      RunBacked(Step(s, es[0]), es[1..]);
    }
  }

  /** In every run, every status ever recorded is backed: Running means a pod was created,
      Completed that one succeeded, Failed that one failed, that a Create reported the error in the
      message, or that there is no image;
      a start time that one ran, an end time that one ended, a pod name that it is the job's. */
  lemma StatusesAreBacked(es: seq<Event>, j: Name, i: nat)
    requires j in Exec(INIT, es).jobs && i < |Exec(INIT, es).jobs[j].statuses|
    ensures Backed(j, Exec(INIT, es).jobs[j], Exec(INIT, es).jobs[j].statuses[i])
  {
    RunBacked(INIT, es);
    assert JobBacked(Exec(INIT, es), j);
  }
}
