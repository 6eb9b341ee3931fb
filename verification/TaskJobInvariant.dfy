/** Every step of the TaskJob protocol keeps the invariant and loses nothing that was recorded, so
    it holds after every run. */
module TaskJobInvariant {
  import opened Graphs
  import opened TaskJobOperator

  /** A Completed or Failed job is Completed or Failed for good. */
  lemma ContinuesKeepsDone(s: State, s': State, d: Name)
    requires Inv(s) && Continues(s, s') && (forall j :: j in s'.jobs ==> JobOk(s', j))
    requires d in s.jobs && Terminal(Current(s.jobs[d]).phase)
    ensures d in s'.jobs && Current(s'.jobs[d]) == Current(s.jobs[d])
    ensures s'.jobs[d].statuses == s.jobs[d].statuses
  {
    var n := |s.jobs[d].statuses| - 1;
    assert s'.jobs[d].statuses[n] == Current(s.jobs[d]);
  }

  /** A step that only moves reconcile calls keeps the invariant if the moved calls are sound. */
  lemma WorkersOnly(s: State, s': State)
    requires Inv(s) && s'.jobs == s.jobs && s'.completions == s.completions
    requires forall w :: w in s'.workers ==> WorkerOk(s, s'.workers[w])
    ensures Inv(s') && Continues(s, s')
  {
    assert forall d :: Done(s', d) <==> Done(s, d);
    forall i | 0 <= i < |s.completions| ensures LoggedAfterDeps(s', i) {
      assert LoggedAfterDeps(s, i);
    }
    forall w | w in s'.workers ensures WorkerOk(s', s'.workers[w]) {
      assert WorkerOk(s, s'.workers[w]);
    }
  }

  lemma AddPodInv(s: State, j: Name, view: PodView)
    requires Inv(s) && j in s.jobs
    requires view.Present? ==> DepsDone(s, j) && s.jobs[j].spec.image != ""
    ensures var s' := AddPod(s, j, view); Inv(s') && Continues(s, s')
  {
    var s' := AddPod(s, j, view);
    assert forall d :: Done(s', d) <==> Done(s, d);
    forall i | 0 <= i < |s.completions| ensures LoggedAfterDeps(s', i) {
      assert LoggedAfterDeps(s, i);
    }
    forall w | w in s'.workers ensures WorkerOk(s', s'.workers[w]) {
      AddPodWorkerOk(s, j, view, s.workers[w]);
    }
    forall k | k in s'.jobs ensures JobOk(s', k) {
      AddPodJobOk(s, j, view, k);
    }
  }

  lemma AddPodWorkerOk(s: State, j: Name, view: PodView, wk: Worker)
    requires j in s.jobs && WorkerOk(s, wk)
    ensures WorkerOk(AddPod(s, j, view), wk)
  {
    assert forall d :: Done(AddPod(s, j, view), d) <==> Done(s, d);
  }

  lemma AddPodJobOk(s: State, j: Name, view: PodView, k: Name)
    requires j in s.jobs && k in s.jobs && JobOk(s, k)
    requires view.Present? ==> DepsDone(s, j) && s.jobs[j].spec.image != ""
    ensures JobOk(AddPod(s, j, view), k)
  {
    var s' := AddPod(s, j, view);
    assert forall d :: Done(s', d) <==> Done(s, d);
    if k == j && EverHadPod(s'.jobs[j]) {
      var v :| v in s'.jobs[j].pods && v.Present?;
      assert v in s.jobs[j].pods || v == view;
    }
  }

  lemma AddCreateErrorWorkerOk(s: State, j: Name, message: string, wk: Worker)
    requires j in s.jobs && WorkerOk(s, wk)
    ensures WorkerOk(AddCreateError(s, j, message), wk)
  {
    assert forall d :: Done(AddCreateError(s, j, message), d) <==> Done(s, d);
  }

  lemma AddCreateErrorJobOk(s: State, j: Name, message: string, k: Name)
    requires j in s.jobs && k in s.jobs && JobOk(s, k)
    ensures JobOk(AddCreateError(s, j, message), k)
  {
    assert forall d :: Done(AddCreateError(s, j, message), d) <==> Done(s, d);
  }

  lemma AddCreateErrorInv(s: State, j: Name, message: string)
    requires Inv(s) && j in s.jobs
    ensures var s' := AddCreateError(s, j, message); Inv(s') && Continues(s, s')
  {
    var s' := AddCreateError(s, j, message);
    assert forall d :: Done(s', d) <==> Done(s, d);
    forall i | 0 <= i < |s.completions| ensures LoggedAfterDeps(s', i) {
      assert LoggedAfterDeps(s, i);
    }
    forall w | w in s'.workers ensures WorkerOk(s', s'.workers[w]) {
      AddCreateErrorWorkerOk(s, j, message, s.workers[w]);
    }
    forall k | k in s'.jobs ensures JobOk(s', k) {
      AddCreateErrorJobOk(s, j, message, k);
    }
  }

  lemma CreatedInv(s: State, j: Name, created: bool, error: bool, message: string)
    requires Inv(s) && j in s.jobs && DepsDone(s, j) && s.jobs[j].spec.image != ""
    ensures var s' := Created(s, j, created, error, message); Inv(s') && Continues(s, s')
  {
    var podded := s;
    if created {
      podded := AddPod(s, j, Present(PodPending));
      AddPodInv(s, j, Present(PodPending));
    }
    if error {
      AddCreateErrorInv(podded, j, message);
    }
  }

  lemma WithJobDone(s: State, j: Name, spec: Spec, d: Name)
    requires j !in s.jobs
    ensures Done(WithJob(s, j, spec), d) <==> Done(s, d)
  {
  }

  lemma WithJobWorkerOk(s: State, j: Name, spec: Spec, wk: Worker)
    requires j !in s.jobs && WorkerOk(s, wk)
    ensures WorkerOk(WithJob(s, j, spec), wk)
  {
    forall d ensures Done(WithJob(s, j, spec), d) <==> Done(s, d) {
      WithJobDone(s, j, spec, d);
    }
  }

  lemma WithJobJobOk(s: State, j: Name, spec: Spec, k: Name)
    requires j !in s.jobs && (k == j || (k in s.jobs && JobOk(s, k)))
    ensures JobOk(WithJob(s, j, spec), k)
  {
    forall d ensures Done(WithJob(s, j, spec), d) <==> Done(s, d) {
      WithJobDone(s, j, spec, d);
    }
  }

  lemma SubmitInv(s: State, j: Name, spec: Spec)
    requires Inv(s)
    ensures var s' := Step(s, Submit(j, spec)); Inv(s') && Continues(s, s')
  {
    if j !in s.jobs {
      var s' := WithJob(s, j, spec);
      forall d ensures Done(s', d) <==> Done(s, d) {
        WithJobDone(s, j, spec, d);
      }
      assert j !in s.completions;
      forall i | 0 <= i < |s.completions| ensures LoggedAfterDeps(s', i) {
        assert LoggedAfterDeps(s, i);
      }
      forall w | w in s'.workers ensures WorkerOk(s', s'.workers[w]) {
        WithJobWorkerOk(s, j, spec, s.workers[w]);
      }
      forall k | k in s'.jobs ensures JobOk(s', k) {
        WithJobJobOk(s, j, spec, k);
      }
    }
  }

  /** A Completed version is the newest one. */
  lemma CompletedIsCurrent(s: State, d: Name, v: nat)
    requires Inv(s) && d in s.jobs && v < |s.jobs[d].statuses| && s.jobs[d].statuses[v].phase == Completed
    ensures Done(s, d)
  {
    assert JobOk(s, d);
  }

  lemma CheckedOk(s: State, w: nat, v: nat)
    requires Inv(s) && w in s.workers && w in CheckDepStep(s, w, v).workers
    ensures WorkerOk(s, CheckDepStep(s, w, v).workers[w])
  {
    var wk := s.workers[w];
    assert WorkerOk(s, wk);
    if wk.Checking? && wk.next < |s.jobs[wk.job].spec.dependsOn| {
      var d := s.jobs[wk.job].spec.dependsOn[wk.next];
      if d in s.jobs && v < |s.jobs[d].statuses| && s.jobs[d].statuses[v].phase == Completed {
        CompletedIsCurrent(s, d, v);
      }
    }
  }

  lemma DropInv(s: State, w: nat)
    requires Inv(s)
    ensures Inv(Drop(s, w)) && Continues(s, Drop(s, w))
  {
    WorkersOnly(s, Drop(s, w));
  }

  lemma CheckDepShape(s: State, w: nat, v: nat)
    ensures var s' := CheckDepStep(s, w, v);
            || s' == s
            || s' == Drop(s, w)
            || (w in s'.workers && s' == Put(s, w, s'.workers[w]))
  {
  }

  lemma CheckDepInv(s: State, w: nat, v: nat)
    requires Inv(s)
    ensures var s' := CheckDepStep(s, w, v); Inv(s') && Continues(s, s')
  {
    var s' := CheckDepStep(s, w, v);
    CheckDepShape(s, w, v);
    if s' == Drop(s, w) {
      DropInv(s, w);
    } else if s' != s {
      CheckedOk(s, w, v);
      PutInv(s, w, s'.workers[w]);
    }
  }

  lemma ListedOk(s: State, w: nat, v: nat, now: string)
    requires w in s.workers && WorkerOk(s, s.workers[w]) && w in ListStep(s, w, v, now).workers
    ensures WorkerOk(s, ListStep(s, w, v, now).workers[w])
  {
    var wk := s.workers[w];
    if wk.Checking? && wk.next == |s.jobs[wk.job].spec.dependsOn| && v < |s.jobs[wk.job].pods| {
      assert DepsDone(s, wk.job);
      assert s.jobs[wk.job].pods[v] in s.jobs[wk.job].pods;
    }
  }

  lemma ListShape(s: State, w: nat, v: nat, now: string)
    ensures var s' := ListStep(s, w, v, now);
            || s' == s
            || s' == Drop(s, w)
            || (w in s.workers && w in s'.workers && s' == Put(s, w, s'.workers[w]))
  {
  }

  lemma ListInv(s: State, w: nat, v: nat, now: string)
    requires Inv(s)
    ensures var s' := ListStep(s, w, v, now); Inv(s') && Continues(s, s')
  {
    var s' := ListStep(s, w, v, now);
    ListShape(s, w, v, now);
    if s' == Drop(s, w) {
      DropInv(s, w);
    } else if s' != s {
      assert WorkerOk(s, s.workers[w]);
      ListedOk(s, w, v, now);
      PutInv(s, w, s'.workers[w]);
    }
  }

  lemma CreateInv(s: State, w: nat, created: bool, error: bool, message: string)
    requires Inv(s)
    ensures var s' := CreateStep(s, w, created, error, message); Inv(s') && Continues(s, s')
  {
    var s' := CreateStep(s, w, created, error, message);
    if s' != s {
      var wk := s.workers[w];
      assert WorkerOk(s, wk);
      var after := Created(s, wk.job, created, error, message);
      CreatedInv(s, wk.job, created, error, message);
      PutInv(after, w, s'.workers[w]);
      assert s' == Put(after, w, s'.workers[w]);
    }
  }

  lemma PutInv(s: State, w: nat, wk: Worker)
    requires Inv(s) && WorkerOk(s, wk)
    ensures Inv(Put(s, w, wk)) && Continues(s, Put(s, w, wk))
  {
    WorkersOnly(s, Put(s, w, wk));
  }

  lemma UpdateInv(s: State, w: nat, reached: bool)
    requires Inv(s)
    ensures var s' := UpdateStep(s, w, reached); Inv(s') && Continues(s, s')
  {
    var s' := UpdateStep(s, w, reached);
    if s'.jobs == s.jobs {
      WorkersOnly(s, Drop(s, w));
      if s' != s { assert s' == Drop(s, w); }
    } else {
      var wk := s.workers[w];
      var j := wk.job;
      assert WorkerOk(s, wk) && JobOk(s, j);
      WrittenInv(s, s', w);
    }
  }

  lemma WrittenInv(s: State, s': State, w: nat)
    requires Inv(s) && w in s.workers && s.workers[w].Writing?
    requires s.workers[w].job in s.jobs && s.workers[w].version == |s.jobs[s.workers[w].job].statuses| - 1
    requires s' == UpdateStep(s, w, true)
    ensures Inv(s') && Continues(s, s')
  {
    var wk := s.workers[w];
    assert WorkerOk(s, wk) && JobOk(s, wk.job);
    assert forall d :: Done(s', d) <==> (Done(s, d) || (d == wk.job && wk.status.phase == Completed));
    forall k | k in s'.jobs ensures JobOk(s', k) {
      WrittenJobOk(s, s', wk, k);
    }
    forall u | u in s'.workers ensures WorkerOk(s', s'.workers[u]) {
      WrittenWorkerOk(s, s', wk, s.workers[u]);
    }
    WrittenLogOk(s, s', wk);
  }

  /** s' is s after the write of wk took effect. */
  predicate Written(s: State, s': State, wk: Worker) {
    && wk.Writing? && wk.job in s.jobs
    && s'.jobs == s.jobs[wk.job := s.jobs[wk.job].(statuses := s.jobs[wk.job].statuses + [wk.status])]
    && s'.completions == (if wk.status.phase == Completed then s.completions + [wk.job] else s.completions)
    && !Done(s, wk.job)
  }

  lemma WrittenJobOk(s: State, s': State, wk: Worker, k: Name)
    requires Written(s, s', wk) && WorkerOk(s, wk) && wk.version == |s.jobs[wk.job].statuses| - 1
    requires k in s.jobs && JobOk(s, k) && JobOk(s, wk.job)
    ensures JobOk(s', k)
  {
    assert forall d :: Done(s, d) ==> Done(s', d);
    if k == wk.job {
      var was, now := s.jobs[k].statuses, s'.jobs[k].statuses;
      forall i, n | 0 <= i < n < |now| ensures KeepsStart(now[i], now[n]) {
        if n == |was| && i < |was| - 1 {
          assert KeepsStart(was[i], was[|was| - 1]);
        }
      }
    }
  }

  lemma WrittenWorkerOk(s: State, s': State, wk: Worker, other: Worker)
    requires Written(s, s', wk) && WorkerOk(s, other)
    ensures WorkerOk(s', other)
  {
    assert forall d :: Done(s, d) ==> Done(s', d);
  }

  lemma WrittenLogOk(s: State, s': State, wk: Worker)
    requires Written(s, s', wk) && LogOk(s)
    requires wk.status.phase == Completed ==> DepsDone(s, wk.job)
    ensures LogOk(s')
  {
    forall i | 0 <= i < |s'.completions| ensures LoggedAfterDeps(s', i) {
      if i < |s.completions| {
        assert LoggedAfterDeps(s, i);
        assert s'.completions[..i] == s.completions[..i];
      } else {
        assert s'.completions[..i] == s.completions;
      }
    }
  }

  lemma PodMovesInv(s: State, j: Name, p: PodPhase)
    requires Inv(s)
    ensures var s' := PodStep(s, j, p); Inv(s') && Continues(s, s')
  {
    if PodStep(s, j, p) != s {
      assert JobOk(s, j) && CurrentPod(s.jobs[j]) in s.jobs[j].pods;
      AddPodInv(s, j, Present(p));
    }
  }

  lemma EvictInv(s: State, j: Name)
    requires Inv(s)
    ensures var s' := Step(s, Evict(j)); Inv(s') && Continues(s, s')
  {
    if j in s.jobs {
      AddPodInv(s, j, Absent);
    }
  }

  lemma GetInv(s: State, w: nat, j: Name, v: nat)
    requires Inv(s)
    ensures var s' := GetStep(s, w, j, v); Inv(s') && Continues(s, s')
  {
    if GetStep(s, w, j, v) != s {
      PutInv(s, w, Checking(j, v, s.jobs[j].statuses[v], 0));
    }
  }

  /** Every event keeps the invariant, and loses nothing that was recorded. */
  lemma StepInv(s: State, e: Event)
    requires Inv(s)
    ensures Inv(Step(s, e)) && Continues(s, Step(s, e))
  {
    match e
    case Submit(j, spec) => SubmitInv(s, j, spec);
    case Get(w, j, v) => GetInv(s, w, j, v);
    case CheckDep(w, v) => CheckDepInv(s, w, v);
    case ListPods(w, v, now) => ListInv(s, w, v, now);
    case Create(w, created, error, message) => CreateInv(s, w, created, error, message);
    case Update(w, reached) => UpdateInv(s, w, reached);
    case Crash(w) => DropInv(s, w);
    case PodMoves(j, p) => PodMovesInv(s, j, p);
    case Evict(j) => EvictInv(s, j);
  }

  lemma {:induction false} RunInv(s: State, es: seq<Event>)
    requires Inv(s)
    ensures Inv(Exec(s, es)) && Continues(s, Exec(s, es))
    decreases |es|
  {
    if es != [] {
      StepInv(s, es[0]);
      RunInv(Step(s, es[0]), es[1..]);
    }
  }
}
