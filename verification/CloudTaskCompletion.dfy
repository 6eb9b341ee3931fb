/** Which CloudTasks can still complete, from any state the operator can be in, and which have lost
    the pod they are waiting for. */
module CloudTaskCompletion {
  import opened CloudTask

  // ----- the task that waits for nothing -----

  /** The task names a pod that is gone, and no reconcile still holds what it saw of it. */
  predicate Orphaned(s: State) {
    s.task.status.podName != "" && s.pod == Absent && !s.worker.Observed? && !s.worker.Synced?
  }

  lemma OrphanedStep(s: State, e: Event)
    requires Inv(s) && Orphaned(s)
    ensures Orphaned(Step(s, e)) && Step(s, e).task.status == s.task.status
  {
  }

  /** An orphaned task keeps its status for ever, whatever happens: it never gets another pod. */
  lemma {:induction false} OrphanedForever(s: State, es: seq<Event>)
    requires Inv(s) && Orphaned(s)
    ensures Orphaned(Exec(s, es)) && Exec(s, es).task.status == s.task.status
    decreases |es|
  {
    if es != [] {
      OrphanedStep(s, es[0]);
      StepInv(s, es[0]);
      OrphanedForever(Step(s, es[0]), es[1..]);
    }
  }

  // ----- what can still complete -----

  /** The reconcile in progress saw the end of a pod that is gone since, its copy is current, and
      what it will write completes the task or retries it. */
  predicate EndInFlight(s: State) {
    && s.worker != Idle && s.worker.c.version == s.task.version
    && (|| (s.worker.Observed? && s.worker.pod == PodSucceeded)
        || (&& ((s.worker.Observed? && s.worker.pod == PodFailed) || (s.worker.Synced? && s.task.status.phase == Failed))
            && s.task.status.retryCount < s.task.retries))
  }

  /** Completed, or stored and not being deleted, and: without a pod yet, or with a pod that has not
      failed, or with a failed pod and less than the greatest number of retries, or with the end of
      its lost pod in flight. */
  predicate Completable(s: State) {
    || s.task.status.phase == Completed
    || (&& s.stored && !s.task.deleting
        && (|| s.task.status.podName == ""
            || (s.pod.Present? && s.pod.phase != PodFailed)
            || (s.pod.Present? && s.task.status.retryCount < MAX_RETRIES)
            || (s.pod == Absent && EndInFlight(s))))
  }

  lemma HopelessAdvance(s: State, a: Answers)
    requires Inv(s) && !Completable(s)
    ensures !Completable(Next(s, a))
  {
    if s.worker.Observed? {
      HopelessObserved(s, a);
    } else if s.worker.Fetched? {
      HopelessFetched(s, a);
    }
  }

  lemma HopelessFetched(s: State, a: Answers)
    requires Inv(s) && !Completable(s) && s.worker.Fetched?
    ensures !Completable(AdvanceFetched(s, s.worker.c, a))
  {
  }

  lemma HopelessObserved(s: State, a: Answers)
    requires Inv(s) && !Completable(s) && s.worker.Observed?
    ensures !Completable(AdvanceObserved(s, s.worker.c, s.worker.pod, a))
  {
  }

  lemma HopelessStep(s: State, e: Event)
    requires Inv(s) && !Completable(s)
    ensures !Completable(Step(s, e))
  {
    if e.Advance? {
      HopelessAdvance(s, e.a);
    }
  }

  lemma {:induction false} HopelessRun(s: State, es: seq<Event>)
    requires Inv(s) && !Completable(s)
    ensures !Completable(Exec(s, es))
    decreases |es|
  {
    if es != [] {
      HopelessStep(s, es[0]);
      StepInv(s, es[0]);
      HopelessRun(Step(s, es[0]), es[1..]);
    }
  }

  ghost predicate CanComplete(s: State) {
    exists es :: Exec(s, es).task.status.phase == Completed
  }

  lemma CompletesNow(s: State)
    requires s.task.status.phase == Completed
    ensures CanComplete(s)
  {
    assert Exec(s, []) == s;
  }

  lemma CompletesLater(s: State, es: seq<Event>)
    requires CanComplete(Exec(s, es))
    ensures CanComplete(s)
  {
    var fs :| Exec(Exec(s, es), fs).task.status.phase == Completed;
    ExecJoin(s, es, fs);
    assert Exec(s, es + fs).task.status.phase == Completed;
  }

  lemma OneEvent(s: State, e: Event)
    ensures Exec(s, [e]) == Step(s, e)
  {
    assert [e][1..] == [];
    assert Exec(Step(s, e), []) == Step(s, e);
  }

  predicate Resting(s: State) {
    Inv(s) && AtRest(s)
  }

  /** The state in which a reconcile with every call getting through looks for the pod. */
  function AtPod(s: State): State {
    var s1 := Step(s, Begin);
    if s.task.finalizer then s1 else Next(s1, ALL)
  }

  lemma AtPodFetched(s: State)
    requires AtRest(s)
    ensures var s' := AtPod(s);
            && s'.worker == Fetched(s'.task) && s'.stored && s'.pod == s.pod && s'.task.finalizer && !s'.task.deleting
            && s'.task.status == s.task.status && s'.task.retries == s.task.retries
  {
  }

  lemma ReconcileFromPod(s: State)
    requires AtRest(s) && s.task.status.podName != "" && s.pod.Present?
    ensures var s2 := AtPod(s);
            Exec(s, RECONCILE) == Next(Next(s2.(worker := Observed(s2.task, s.pod.phase)), ALL), ALL)
  {
    FiveEvents(s, ALL);
    AtPodFetched(s);
    var s2 := AtPod(s);
    var s3 := Next(s2, ALL);
    assert s3 == s2.(worker := Observed(s2.task, s.pod.phase));
    var s5 := Next(Next(s3, ALL), ALL);
    assert s5.worker == Idle && Next(s5, ALL) == s5;
  }

  lemma ReconcileCompletes(s: State)
    requires AtRest(s) && s.task.status.podName != "" && s.pod == Present(PodSucceeded)
    ensures var s' := Exec(s, RECONCILE); s'.task.status.phase == Completed && AtRest(s') && s'.pod == s.pod
  {
    AtPodFetched(s);
    ReconcileFromPod(s);
    ObservedSuccessCompletes(AtPod(s));
  }

  lemma ObservedSuccessCompletes(s: State)
    requires s.stored
    ensures var s' := Next(Next(s.(worker := Observed(s.task, PodSucceeded)), ALL), ALL);
            && s'.worker == Idle && s'.stored && s'.task.deleting == s.task.deleting && s'.pod == s.pod
            && s'.task.status.phase == Completed
  {
    var s1 := Next(s.(worker := Observed(s.task, PodSucceeded)), ALL);
    assert s1.worker == Synced(s1.task) && s1.task.status.phase == Completed;
  }

  lemma ReconcileRetries(s: State)
    requires Resting(s) && s.task.status.podName != "" && s.pod == Present(PodFailed)
    requires s.task.status.retryCount < s.task.retries
    ensures var s' := Exec(s, RECONCILE);
            Resting(s') && s'.pod == s.pod && s'.task.status == Status(Pending, "", s.task.status.retryCount + 1)
  {
    AtPodFetched(s);
    ReconcileFromPod(s);
    ObservedFailureRetries(AtPod(s));
    RunInv(s, RECONCILE);
  }

  lemma ObservedFailureRetries(s: State)
    requires s.stored && s.task.status.retryCount < s.task.retries
    ensures var s' := Next(Next(s.(worker := Observed(s.task, PodFailed)), ALL), ALL);
            && s'.worker == Idle && s'.stored && s'.task.deleting == s.task.deleting && s'.pod == s.pod
            && s'.task.status == Status(Pending, "", s.task.status.retryCount + 1)
  {
    var s1 := Next(s.(worker := Observed(s.task, PodFailed)), ALL);
    assert s1.worker == Synced(s1.task) && s1.stored && s1.task.status == s.task.status.(phase := Failed);
  }

  lemma RunningPodCompletes(s: State)
    requires Resting(s) && s.task.status.podName != "" && s.pod.Present? && s.pod.phase != PodFailed
    ensures CanComplete(s)
  {
    var s1 := Step(s, PodMoves(PodSucceeded));
    PodMovesInv(s, PodSucceeded);
    ReconcileCompletes(s1);
    CompletesNow(Exec(s1, RECONCILE));
    CompletesLater(s1, RECONCILE);
    OneEvent(s, PodMoves(PodSucceeded));
    CompletesLater(s, [PodMoves(PodSucceeded)]);
  }

  lemma NoPodCompletes(s: State)
    requires Resting(s) && s.task.status.podName == ""
    ensures CanComplete(s)
  {
    var s1 := Step(s, Removed);
    RemovedInv(s);
    ReconcileStarts(s1);
    RunInv(s1, RECONCILE);
    RunningPodCompletes(Exec(s1, RECONCILE));
    CompletesLater(s1, RECONCILE);
    OneEvent(s, Removed);
    CompletesLater(s, [Removed]);
  }

  lemma FailedPodCompletes(s: State)
    requires Resting(s) && s.task.status.podName != "" && s.pod == Present(PodFailed)
    requires s.task.status.retryCount < MAX_RETRIES
    ensures CanComplete(s)
  {
    var s1 := Step(s, EditSpec(MAX_RETRIES));
    EditSpecInv(s, MAX_RETRIES);
    ReconcileRetries(s1);
    NoPodCompletes(Exec(s1, RECONCILE));
    CompletesLater(s1, RECONCILE);
    OneEvent(s, EditSpec(MAX_RETRIES));
    CompletesLater(s, [EditSpec(MAX_RETRIES)]);
  }

  lemma AdvanceAll(s: State)
    requires Inv(s)
    ensures Inv(Next(s, ALL))
    ensures CanComplete(Next(s, ALL)) ==> CanComplete(s)
  {
    StepInv(s, Advance(ALL));
    OneEvent(s, Advance(ALL));
    if CanComplete(Next(s, ALL)) {
      CompletesLater(s, [Advance(ALL)]);
    }
  }

  lemma SyncedRetries(s: State)
    requires Inv(s) && s.stored && !s.task.deleting && s.worker == Synced(s.task)
    requires s.task.status.phase == Failed && s.task.status.retryCount < s.task.retries
    ensures CanComplete(s)
  {
    AdvanceAll(s);
    NoPodCompletes(Next(s, ALL));
  }

  lemma InFlightCompletes(s: State)
    requires Inv(s) && s.stored && !s.task.deleting && s.pod == Absent && EndInFlight(s)
    ensures CanComplete(s)
  {
    if s.worker.Synced? {
      SyncedRetries(s);
    } else {
      AdvanceAll(s);
      var s1 := Next(s, ALL);
      if s.worker.pod == PodSucceeded {
        CompletesNow(s1);
      } else {
        SyncedRetries(s1);
      }
    }
  }

  /** Some continuation completes the task, whatever the operator, the users and the cluster do in
      it, exactly when the task is completable. */
  lemma CanCompleteIff(s: State)
    requires Inv(s)
    ensures CanComplete(s) <==> Completable(s)
  {
    if !Completable(s) {
      forall es ensures Exec(s, es).task.status.phase != Completed {
        HopelessRun(s, es);
      }
    } else if s.task.status.phase == Completed {
      CompletesNow(s);
    } else if s.task.status.podName != "" && s.pod == Absent {
      InFlightCompletes(s);
    } else {
      var s1 := Step(s, Crash);
      CrashInv(s);
      if s.task.status.podName == "" {
        NoPodCompletes(s1);
      } else if s.pod.phase != PodFailed {
        RunningPodCompletes(s1);
      } else {
        FailedPodCompletes(s1);
      }
      OneEvent(s, Crash);
      CompletesLater(s, [Crash]);
    }
  }

  // ----- both traps are reached -----

  lemma InitInv(name: string, r: int)
    requires Accepted(r)
    ensures Inv(Init(name, r))
  {
  }

  /** The first reconcile of a new task starts its pod. */
  lemma FirstReconcile(name: string, r: int)
    requires Accepted(r)
    ensures var s := Exec(Init(name, r), RECONCILE);
            && Resting(s) && s.pod == Present(PodPending) && s.task.retries == Defaulted(r)
            && s.task.status == Status(Running, PodName(s), 0) && PodName(s) != ""
  {
    InitInv(name, r);
    ReconcileStarts(Init(name, r));
    RunInv(Init(name, r), RECONCILE);
    NameStays(Init(name, r), RECONCILE);
  }

  lemma {:induction false} NameStays(s: State, es: seq<Event>)
    ensures Exec(s, es).name == s.name
    decreases |es|
  {
    if es != [] {
      NameStays(Step(s, es[0]), es[1..]);
    }
  }

  /** Every new task is wedged after its first pod fails: the reconcile that retries it leaves the
      failed pod in the way. */
  lemma FirstFailureWedges(name: string, r: int)
    requires Accepted(r)
    ensures var s := Exec(Init(name, r), RECONCILE + [PodMoves(PodFailed)] + RECONCILE);
            Wedged(s) && AtRest(s) && s.pod == Present(PodFailed) && s.task.status == Status(Pending, "", 1)
  {
    var s1 := Exec(Init(name, r), RECONCILE);
    var s2 := Step(s1, PodMoves(PodFailed));
    FirstReconcile(name, r);
    PodMovesInv(s1, PodFailed);
    ReconcileRetries(s2);
    OneEvent(s1, PodMoves(PodFailed));
    ExecJoin(Init(name, r), RECONCILE, [PodMoves(PodFailed)]);
    ExecJoin(Init(name, r), RECONCILE + [PodMoves(PodFailed)], RECONCILE);
  }

  /** Every new task is orphaned when its first pod is removed before a reconcile has seen it end,
      and then it never completes. */
  lemma FirstRemovalOrphans(name: string, r: int)
    requires Accepted(r)
    ensures var s := Exec(Init(name, r), RECONCILE + [Removed]);
            Orphaned(s) && s.task.status.phase == Running && !CanComplete(s)
  {
    var s1 := Exec(Init(name, r), RECONCILE);
    FirstReconcile(name, r);
    RemovedInv(s1);
    OneEvent(s1, Removed);
    ExecJoin(Init(name, r), RECONCILE, [Removed]);
    CanCompleteIff(Step(s1, Removed));
  }
}
