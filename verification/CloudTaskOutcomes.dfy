/** What one undisturbed CloudTask reconcile leaves behind, case by case on the stored fields, and
    what that means for retries and for deletion over every run. */
module CloudTaskOutcomes {
  import opened CloudTask
  import opened CloudTaskCompletion

  // ----- one reconcile -----

  /** The status after a reconcile that saw the task's pod in phase p. */
  function Followed(t: Task, p: PodPhase): Status {
    var retried := Status(Pending, "", t.status.retryCount + 1);
    match p
    case PodRunning => t.status.(phase := Running)
    case PodSucceeded => t.status.(phase := Completed)
    case PodFailed => if t.status.retryCount < t.retries then retried else t.status.(phase := Failed)
    case PodPending => t.status.(phase := if t.status.phase == Running then Running else Pending)
    case PodUnknown => if t.status.phase == Failed && t.status.retryCount < t.retries then retried else t.status
  }

  lemma ObservedOutcome(s: State, p: PodPhase)
    requires s.stored
    ensures var s' := Next(Next(s.(worker := Observed(s.task, p)), ALL), ALL);
            && s'.task.status == Followed(s.task, p) && s'.worker == Idle && s'.stored && s'.pod == s.pod
            && s'.task.deleting == s.task.deleting && s'.task.retries == s.task.retries
  {
    var s1 := Next(s.(worker := Observed(s.task, p)), ALL);
    assert s1.worker == Synced(s1.task) && s1.stored && s1.task.status == SyncFromPod(s.task.status, p);
  }

  /** A reconcile that finds the pod the task names: it takes over the pod's phase, and a failure is
      retried, with the pod forgotten, exactly while retries are left. The pod is not touched. */
  lemma PodSeenOutcome(s: State)
    requires AtRest(s) && s.task.status.podName != "" && s.pod.Present?
    ensures var s' := Exec(s, RECONCILE);
            s'.task.status == Followed(s.task, s.pod.phase) && AtRest(s') && s'.pod == s.pod && s'.task.retries == s.task.retries
  {
    AtPodFetched(s);
    ReconcileFromPod(s);
    ObservedOutcome(AtPod(s), s.pod.phase);
  }

  /** A reconcile that finds no pod of the task starts one exactly when the task has not started and
      nothing is in the way; otherwise it changes neither status nor pod. */
  lemma NoPodSeenOutcome(s: State)
    requires AtRest(s) && (s.task.status.podName == "" || s.pod == Absent)
    ensures var s' := Exec(s, RECONCILE);
            if (s.task.status.phase == Unset || s.task.status.phase == Pending) && s.pod == Absent
            then s'.task.status == Status(Running, s.name + "-pod", s.task.status.retryCount) && s'.pod == Present(PodPending)
            else s'.task.status == s.task.status && s'.pod == s.pod
  {
    if Startable(s.task.status.phase) && s.pod == Absent {
      ReconcileStarts(s);
    } else {
      FiveEvents(s, ALL);
      AtPodFetched(s);
      var s3 := Next(AtPod(s), ALL);
      assert s3.worker == NoPod(s3.task);
      var s4 := Next(s3, ALL);
      assert s4.worker == Idle && Next(s4, ALL) == s4;
    }
  }

  // ----- retries -----

  /** A reconcile at rest with a failed pod retries if and only if the retry count is below the
      specified number; otherwise the task is Failed with that count. */
  lemma RetriesIff(s: State)
    requires AtRest(s) && s.task.status.podName != "" && s.pod == Present(PodFailed)
    ensures var st, st' := s.task.status, Exec(s, RECONCILE).task.status;
            && (st.retryCount < s.task.retries ==> st' == Status(Pending, "", st.retryCount + 1))
            && (st.retryCount >= s.task.retries ==> st' == Status(Failed, st.podName, st.retryCount))
  {
    PodSeenOutcome(s);
  }

  lemma ExhaustedStep(s: State, e: Event)
    requires Inv(s) && s.task.status.phase == Failed && s.task.status.retryCount >= s.task.retries && !e.EditSpec?
    ensures Step(s, e).task.status == s.task.status && Step(s, e).task.retries == s.task.retries
  {
  }

  /** A Failed task without retries left stays as it is in every continuation without a spec edit. */
  lemma {:induction false} ExhaustedStays(s: State, es: seq<Event>)
    requires Inv(s) && s.task.status.phase == Failed && s.task.status.retryCount >= s.task.retries
    requires forall e :: e in es ==> !e.EditSpec?
    ensures Exec(s, es).task.status == s.task.status
    decreases |es|
  {
    if es != [] {
      assert es[0] in es;
      ExhaustedStep(s, es[0]);
      StepInv(s, es[0]);
      ExhaustedStays(Step(s, es[0]), es[1..]);
    }
  }

  /** The number of retries that an edit asks for, if it is admitted, is within the bound. */
  predicate EditWithin(e: Event, most: int) {
    e.EditSpec? && 0 <= e.retries <= 10 ==> (if e.retries == 0 then 3 else e.retries) <= most
  }

  lemma WithinStep(s: State, e: Event, most: int)
    requires Inv(s) && s.task.retries <= most && s.task.status.retryCount <= most && EditWithin(e, most)
    ensures Step(s, e).task.retries <= most && Step(s, e).task.status.retryCount <= most
  {
    if e.EditSpec? {
      WebhookMeaning(e.retries);
    }
  }

  lemma {:induction false} WithinRun(s: State, es: seq<Event>, most: int)
    requires Inv(s) && s.task.retries <= most && s.task.status.retryCount <= most
    requires forall e :: e in es ==> EditWithin(e, most)
    ensures Exec(s, es).task.status.retryCount <= most
    decreases |es|
  {
    if es != [] {
      assert es[0] in es;
      WithinStep(s, es[0], most);
      StepInv(s, es[0]);
      WithinRun(Step(s, es[0]), es[1..], most);
    }
  }

  /** In every run the task is retried at most as often as the greatest number of retries ever
      specified: the one it was created with and those of the edits that were admitted. */
  lemma RetriesWithinSpec(name: string, r: int, es: seq<Event>, most: int)
    requires 0 <= r <= 10 && (if r == 0 then 3 else r) <= most
    requires forall e :: e in es ==> EditWithin(e, most)
    ensures Exec(Init(name, r), es).task.status.retryCount <= most
  {
    WebhookMeaning(r);
    InitInv(name, r);
    WithinRun(Init(name, r), es, most);
  }

  // ----- deletion -----

  /** One reconcile of a task that is being deleted, whatever calls get through: without the finalizer
      nothing; otherwise the pod it names goes first, and only then the task. */
  lemma DeletionOutcome(s: State, a: Answers)
    requires s.worker == Idle && s.stored && s.task.deleting
    ensures var s' := Exec(s, [Begin, Advance(a), Advance(a), Advance(a), Advance(a)]);
            var named := s.task.status.podName != "" && s.pod.Present?;
            && s'.task == s.task && s'.worker == Idle
            && (!s.task.finalizer || (named && !a.delete) ==> s'.stored && s'.pod == s.pod)
            && (s.task.finalizer && (named ==> a.delete) ==>
                  s'.stored == !a.drop && s'.pod == (if named then Absent else s.pod))
  {
    FiveEvents(s, a);
    var s1 := Step(s, Begin);
    var s2 := Next(s1, a);
    var s3 := Next(s2, a);
    var s4 := Next(s3, a);
    assert s4.worker == Idle && Next(s4, a) == s4;
  }

  /** A deletion request and one reconcile of a task with its finalizer: the task is gone, and so is the
      pod it names. */
  lemma DeletionRuns(s: State)
    requires AtRest(s) && s.task.finalizer
    ensures var s' := Exec(s, [RequestDelete] + RECONCILE);
            !s'.stored && s'.task.status == s.task.status && (s.task.status.podName != "" ==> s'.pod == Absent)
  {
    DeletionOutcome(Step(s, RequestDelete), ALL);
    assert ([RequestDelete] + RECONCILE)[1..] == RECONCILE;
  }

  /** Created pods are guarded by the finalizer, and a task without it, or past it, has no pod that
      it names. */
  predicate Guarded(s: State) {
    && (s.task.status.podName != "" ==> s.task.finalizer)
    && (s.worker.Observed? || s.worker.Synced? || s.worker.NoPod? || s.worker.Created? ==> s.worker.c.finalizer)
    && (s.task.status.podName != "" && (!s.stored || s.worker.DroppingFinalizer?) ==> s.pod == Absent)
  }

  lemma GuardedFetched(s: State, a: Answers)
    requires Inv(s) && Guarded(s) && s.worker.Fetched?
    ensures Guarded(AdvanceFetched(s, s.worker.c, a))
  {
  }

  lemma GuardedObserved(s: State, a: Answers)
    requires Inv(s) && Guarded(s) && s.worker.Observed?
    ensures Guarded(AdvanceObserved(s, s.worker.c, s.worker.pod, a))
  {
  }

  lemma GuardedCreated(s: State, a: Answers)
    requires Inv(s) && Guarded(s) && s.worker.Created?
    ensures Guarded(AdvanceCreated(s, s.worker.c, a))
  {
  }

  lemma GuardedAdvance(s: State, a: Answers)
    requires Inv(s) && Guarded(s)
    ensures Guarded(Next(s, a))
  {
    if s.worker.Fetched? {
      GuardedFetched(s, a);
    } else if s.worker.Observed? {
      GuardedObserved(s, a);
    } else if s.worker.Created? {
      GuardedCreated(s, a);
    }
  }

  lemma GuardedStep(s: State, e: Event)
    requires Inv(s) && Guarded(s)
    ensures Guarded(Step(s, e))
  {
    if e.Advance? {
      GuardedAdvance(s, e.a);
    }
  }

  lemma {:induction false} GuardedRun(s: State, es: seq<Event>)
    requires Inv(s) && Guarded(s)
    ensures Guarded(Exec(s, es))
    decreases |es|
  {
    if es != [] {
      GuardedStep(s, es[0]);
      StepInv(s, es[0]);
      GuardedRun(Step(s, es[0]), es[1..]);
    }
  }

  /** In every run, once a task is gone the pod it names is gone. */
  lemma DeletionCleansUp(name: string, r: int, es: seq<Event>)
    requires Accepted(r)
    ensures var s := Exec(Init(name, r), es);
            !s.stored && s.task.status.podName != "" ==> s.pod == Absent
  {
    InitInv(name, r);
    GuardedRun(Init(name, r), es);
  }
}
