/** The CloudTask machine when a reconcile may start from an old version of the task, as a cached
    client allows. Writes from an old copy never land, but an old copy that has not started creates
    the pod again. What that breaks, what it rescues and what still holds. */
module CloudTaskStale {
  import opened CloudTask
  import opened CloudTaskCompletion
  import opened CloudTaskOutcomes

  /** The machine with all earlier versions of the task, oldest first. */
  datatype World = World(s: State, past: seq<Task>)

  datatype Happening = Now(e: Event) | StaleBegin(v: nat)

  function Recorded(w: World, s': State): World {
    World(s', if s'.task != w.s.task then w.past + [w.s.task] else w.past)
  }

  /** The v-th version, the last one included: it is also an old read once the task is gone. */
  function Version(w: World, v: nat): Task
    requires v <= |w.past|
  {
    if v < |w.past| then w.past[v] else w.s.task
  }

  function Happen(w: World, h: Happening): World {
    match h
    case Now(e) => Recorded(w, Step(w.s, e))
    case StaleBegin(v) =>
      if w.s.worker == Idle && v <= |w.past| then w.(s := w.s.(worker := Fetched(Version(w, v)))) else w
  }

  function Run(w: World, hs: seq<Happening>): World
    decreases |hs|
  {
    if hs == [] then w else Run(Happen(w, hs[0]), hs[1..])
  }

  function Start(name: string, r: int): World {
    World(Init(name, r), [])
  }

  // ----- what every run keeps -----

  predicate TaskOk(t: Task) {
    && t.retries <= MAX_RETRIES && 0 <= t.status.retryCount <= MAX_RETRIES
    && (t.status.podName == "" ==> Startable(t.status.phase))
  }

  /** A version from which a reconcile creates a pod. */
  predicate Seed(t: Task) {
    Startable(t.status.phase) && t.finalizer && !t.deleting
  }

  predicate WorkerKind(k: Worker) {
    && (k.Observed? || k.Synced? || k.NoPod? || k.Created? ==> !k.c.deleting && k.c.finalizer)
    && (k.Observed? || k.Synced? ==> k.c.status.podName != "")
    && (k.Created? ==> Startable(k.c.status.phase))
    && (k.DeletingPod? || k.DroppingFinalizer? ==> k.c.deleting)
  }

  /** The copy is no newer than the task, is the task if it is as new, and is one that was stored. */
  predicate CopyOk(t: Task, c: Task) {
    && TaskOk(c) && c.version <= t.version
    && (c.version == t.version ==> c == t)
    && (c.deleting ==> t.deleting)
  }

  predicate PastOk(w: World) {
    forall i :: 0 <= i < |w.past| ==> w.past[i].version < w.s.task.version && CopyOk(w.s.task, w.past[i])
  }

  ghost predicate Seeded(w: World) {
    w.s.task.status.podName != "" ==> exists i :: 0 <= i < |w.past| && Seed(w.past[i])
  }

  ghost predicate StaleInv(w: World) {
    && TaskOk(w.s.task) && PastOk(w) && Seeded(w)
    && (w.s.worker != Idle ==> CopyOk(w.s.task, w.s.worker.c) && WorkerKind(w.s.worker))
    && w.s.creations == w.s.removals + w.s.ownRemovals + One(w.s.pod.Present?)
  }

  /** One event as the machine sees it: the task is kept or replaced by a newer version. */
  predicate Advances(s: State, s': State) {
    && TaskOk(s'.task)
    && (s'.task == s.task || s'.task.version == s.task.version + 1)
    && (s.task.deleting ==> s'.task.deleting)
    && s'.task.status.retryCount >= s.task.status.retryCount
    && (s'.task.status.podName != "" ==> s.task.status.podName != "" || Seed(s.task))
    && (s'.worker != Idle ==> CopyOk(s'.task, s'.worker.c) && WorkerKind(s'.worker))
    && s'.creations == s'.removals + s'.ownRemovals + One(s'.pod.Present?)
  }

  predicate MachineOk(s: State) {
    && TaskOk(s.task)
    && (s.worker != Idle ==> CopyOk(s.task, s.worker.c) && WorkerKind(s.worker))
    && s.creations == s.removals + s.ownRemovals + One(s.pod.Present?)
  }

  lemma FetchedAdvances(s: State, a: Answers)
    requires MachineOk(s) && s.worker.Fetched?
    ensures Advances(s, Next(s, a))
  {
  }

  lemma SeenAdvances(s: State, a: Answers)
    requires MachineOk(s) && (s.worker.Observed? || s.worker.Synced?)
    ensures Advances(s, Next(s, a))
  {
  }

  lemma CreatingAdvances(s: State, a: Answers)
    requires MachineOk(s) && (s.worker.NoPod? || s.worker.Created?)
    ensures Advances(s, Next(s, a))
  {
  }

  lemma StepAdvances(s: State, e: Event)
    requires MachineOk(s)
    ensures Advances(s, Step(s, e))
  {
    if e.Advance? {
      if s.worker.Fetched? {
        FetchedAdvances(s, e.a);
      } else if s.worker.Observed? || s.worker.Synced? {
        SeenAdvances(s, e.a);
      } else if s.worker.NoPod? || s.worker.Created? {
        CreatingAdvances(s, e.a);
      }
    }
  }

  lemma PastGrows(w: World, s': State)
    requires StaleInv(w) && Advances(w.s, s')
    ensures PastOk(Recorded(w, s'))
  {
    var w' := Recorded(w, s');
    forall i | 0 <= i < |w'.past| ensures w'.past[i].version < s'.task.version && CopyOk(s'.task, w'.past[i]) {
      if i < |w.past| {
        assert w.past[i].version < w.s.task.version && CopyOk(w.s.task, w.past[i]);
      }
    }
  }

  lemma SeedStays(w: World, s': State)
    requires StaleInv(w) && Advances(w.s, s')
    ensures Seeded(Recorded(w, s'))
  {
    var w' := Recorded(w, s');
    if s'.task.status.podName != "" {
      if w.s.task.status.podName != "" {
        var i :| 0 <= i < |w.past| && Seed(w.past[i]);
        assert w'.past[i] == w.past[i];
      } else {
        assert w'.past[|w.past|] == w.s.task;
      }
    }
  }

  lemma HappenInv(w: World, h: Happening)
    requires StaleInv(w)
    ensures StaleInv(Happen(w, h))
    ensures Happen(w, h).s.task.status.retryCount >= w.s.task.status.retryCount
  {
    match h
    case Now(e) =>
      StepAdvances(w.s, e);
      PastGrows(w, Step(w.s, e));
      SeedStays(w, Step(w.s, e));
    case StaleBegin(v) =>
  }

  lemma {:induction false} StaleRunInv(w: World, hs: seq<Happening>)
    requires StaleInv(w)
    ensures StaleInv(Run(w, hs))
    ensures Run(w, hs).s.task.status.retryCount >= w.s.task.status.retryCount
    decreases |hs|
  {
    if hs != [] {
      HappenInv(w, hs[0]);
      StaleRunInv(Happen(w, hs[0]), hs[1..]);
    }
  }

  /** Old reads or not, the retry count stays between 0 and 10, and pods are created at most once
      more than they are removed. */
  lemma StaleBounds(name: string, r: int, hs: seq<Happening>)
    requires Accepted(r)
    ensures var s := Run(Start(name, r), hs).s;
            && 0 <= s.task.status.retryCount <= MAX_RETRIES
            && s.creations <= 1 + s.removals + s.ownRemovals
  {
    StaleRunInv(Start(name, r), hs);
  }

  lemma StaleWithinStep(w: World, h: Happening, most: int)
    requires StaleInv(w) && w.s.task.retries <= most && w.s.task.status.retryCount <= most
    requires h.Now? ==> EditWithin(h.e, most)
    ensures Happen(w, h).s.task.retries <= most && Happen(w, h).s.task.status.retryCount <= most
  {
    if h.Now? && h.e.EditSpec? {
      WebhookMeaning(h.e.retries);
    }
  }

  /** Old reads or not, the task is retried at most as often as the greatest number of retries ever
      specified. */
  lemma {:induction false} StaleRetriesWithinSpec(w: World, hs: seq<Happening>, most: int)
    requires StaleInv(w) && w.s.task.retries <= most && w.s.task.status.retryCount <= most
    requires forall h :: h in hs && h.Now? ==> EditWithin(h.e, most)
    ensures Run(w, hs).s.task.status.retryCount <= most
    decreases |hs|
  {
    if hs != [] {
      assert hs[0] in hs;
      StaleWithinStep(w, hs[0], most);
      HappenInv(w, hs[0]);
      StaleRetriesWithinSpec(Happen(w, hs[0]), hs[1..], most);
    }
  }

  // ----- runs -----

  function Lift(es: seq<Event>): seq<Happening> {
    seq(|es|, i requires 0 <= i < |es| => Now(es[i]))
  }

  lemma {:induction false} LiftRuns(w: World, es: seq<Event>)
    ensures Run(w, Lift(es)).s == Exec(w.s, es)
    decreases |es|
  {
    if es != [] {
      assert Lift(es)[1..] == Lift(es[1..]);
      LiftRuns(Happen(w, Now(es[0])), es[1..]);
    }
  }

  lemma {:induction false} RunJoin(w: World, hs: seq<Happening>, gs: seq<Happening>)
    ensures Run(w, hs + gs) == Run(Run(w, hs), gs)
    decreases |hs|
  {
    if hs == [] {
      assert hs + gs == gs;
    } else {
      assert (hs + gs)[1..] == hs[1..] + gs;
      RunJoin(Happen(w, hs[0]), hs[1..], gs);
    }
  }

  /** Some continuation, old reads included, brings the status to this phase. */
  ghost predicate Reaches(w: World, p: Phase) {
    exists hs :: Run(w, hs).s.task.status.phase == p
  }

  lemma ReachesNow(w: World)
    ensures Reaches(w, w.s.task.status.phase)
  {
    assert Run(w, []) == w;
  }

  lemma ReachesLater(w: World, hs: seq<Happening>, p: Phase)
    requires Reaches(Run(w, hs), p)
    ensures Reaches(w, p)
  {
    var gs :| Run(Run(w, hs), gs).s.task.status.phase == p;
    RunJoin(w, hs, gs);
    assert Run(w, hs + gs).s.task.status.phase == p;
  }

  // ----- a deleted task -----

  predicate Frozen(s: State) {
    !s.stored || s.task.deleting
  }

  lemma FrozenStep(w: World, h: Happening)
    requires StaleInv(w) && Frozen(w.s)
    ensures Frozen(Happen(w, h).s) && Happen(w, h).s.task.status == w.s.task.status
  {
  }

  /** The status of a task that is being deleted or gone never changes. */
  lemma {:induction false} FrozenRun(w: World, hs: seq<Happening>)
    requires StaleInv(w) && Frozen(w.s)
    ensures Run(w, hs).s.task.status == w.s.task.status
    decreases |hs|
  {
    if hs != [] {
      FrozenStep(w, hs[0]);
      HappenInv(w, hs[0]);
      FrozenRun(Happen(w, hs[0]), hs[1..]);
    }
  }

  // ----- the old read that starts a pod again -----

  const RECREATE := [Now(Advance(ALL)), Now(Advance(ALL)), Now(Advance(ALL))]

  lemma SeedCreates(w: World, i: nat)
    requires StaleInv(w) && w.s.worker == Idle && w.s.pod == Absent && i < |w.past| && Seed(w.past[i])
    ensures var w' := Run(w, [StaleBegin(i)] + RECREATE);
            w'.s.task == w.s.task && w'.s.stored == w.s.stored && w'.s.worker == Idle && w'.s.pod == Present(PodPending)
  {
    var c := w.past[i];
    assert c.version < w.s.task.version;
    var w1 := Happen(w, StaleBegin(i));
    var w2 := Happen(w1, Now(Advance(ALL)));
    assert w2 == w.(s := w.s.(worker := NoPod(c)));
    var w3 := Happen(w2, Now(Advance(ALL)));
    assert w3.s.worker == Created(c) && w3.s.task == w.s.task && w3.s.pod == Present(PodPending);
    var w4 := Happen(w3, Now(Advance(ALL)));
    FourHappenings(w, StaleBegin(i), Now(Advance(ALL)));
  }

  lemma FourHappenings(w: World, g: Happening, h: Happening)
    ensures Run(w, [g] + [h, h, h]) == Happen(Happen(Happen(Happen(w, g), h), h), h)
  {
    assert ([g] + [h, h, h])[1..] == [h, h, h] && [h, h, h][1..] == [h, h] && [h, h][1..] == [h] && [h][1..] == [];
    var w1 := Happen(w, g);
    var w2 := Happen(w1, h);
    assert Run(Happen(w2, h), [h]) == Happen(Happen(w2, h), h);
    assert Run(w2, [h, h]) == Run(Happen(w2, h), [h]);
  }

  /** The pod is there again under the name the task knows, so the next reconcile takes its phase. */
  lemma PodIsFollowed(w: World, p: PodPhase)
    requires AtRest(w.s) && w.s.task.status.podName != "" && w.s.pod == Present(PodPending)
    requires p == PodSucceeded || p == PodRunning
    ensures Reaches(w, if p == PodSucceeded then Completed else Running)
  {
    var es := [PodMoves(p)] + RECONCILE;
    var s1 := Step(w.s, PodMoves(p));
    assert es[1..] == RECONCILE;
    assert Exec(w.s, es) == Exec(s1, RECONCILE);
    FollowedPhase(s1);
    LiftRuns(w, es);
    ReachesNow(Run(w, Lift(es)));
    ReachesLater(w, Lift(es), if p == PodSucceeded then Completed else Running);
  }

  lemma FollowedPhase(s: State)
    requires AtRest(s) && s.task.status.podName != "" && s.pod.Present?
    requires s.pod.phase == PodSucceeded || s.pod.phase == PodRunning
    ensures Exec(s, RECONCILE).task.status.phase == if s.pod.phase == PodSucceeded then Completed else Running
  {
    AtPodFetched(s);
    ReconcileFromPod(s);
  }

  /** A crash and an outside removal: nothing in flight and no pod. */
  lemma Cleared(w: World)
    requires StaleInv(w)
    ensures var w' := Run(w, Lift([Crash, Removed]));
            && StaleInv(w') && w'.past == w.past && w'.s.task == w.s.task && w'.s.stored == w.s.stored
            && w'.s.worker == Idle && w'.s.pod == Absent
  {
    var es := [Crash, Removed];
    LiftRuns(w, es);
    StaleRunInv(w, Lift(es));
    assert es[1..] == [Removed] && [Removed][1..] == [];
    var s1 := Step(w.s, Crash);
    assert Exec(s1, [Removed]) == Step(s1, Removed);
    assert Lift(es) == [Now(Crash), Now(Removed)];
    var hs := Lift(es);
    assert hs[1..] == [Now(Removed)] && hs[1..][1..] == [];
    var w1 := Happen(w, Now(Crash));
    assert Run(w1, hs[1..]) == Happen(w1, Now(Removed));
  }

  lemma StartedReaches(w: World, p: PodPhase)
    requires StaleInv(w) && w.s.stored && !w.s.task.deleting && w.s.task.status.podName != ""
    requires p == PodSucceeded || p == PodRunning
    ensures Reaches(w, if p == PodSucceeded then Completed else Running)
  {
    var w1 := Run(w, Lift([Crash, Removed]));
    Cleared(w);
    var i :| 0 <= i < |w1.past| && Seed(w1.past[i]);
    var hs := [StaleBegin(i)] + RECREATE;
    SeedCreates(w1, i);
    PodIsFollowed(Run(w1, hs), p);
    ReachesLater(w1, hs, if p == PodSucceeded then Completed else Running);
    ReachesLater(w, Lift([Crash, Removed]), if p == PodSucceeded then Completed else Running);
  }

  lemma UnstartedReaches(w: World)
    requires StaleInv(w) && w.s.stored && !w.s.task.deleting && w.s.task.status.podName == ""
    ensures Reaches(w, Completed)
  {
    var w1 := Run(w, Lift([Crash, Removed]));
    Cleared(w);
    var w2 := Run(w1, Lift(RECONCILE));
    LiftRuns(w1, RECONCILE);
    ReconcileStarts(w1.s);
    PodIsFollowed(w2, PodSucceeded);
    ReachesLater(w1, Lift(RECONCILE), Completed);
    ReachesLater(w, Lift([Crash, Removed]), Completed);
  }

  /** With old reads, some continuation completes a task if and only if it is Completed, or stored and
      not being deleted: an old read rescues every orphaned and every exhausted task. */
  lemma StaleCanCompleteIff(w: World)
    requires StaleInv(w)
    ensures Reaches(w, Completed) <==> w.s.task.status.phase == Completed || !Frozen(w.s)
  {
    if w.s.task.status.phase == Completed {
      ReachesNow(w);
    } else if Frozen(w.s) {
      forall hs ensures Run(w, hs).s.task.status.phase != Completed {
        FrozenRun(w, hs);
      }
    } else if w.s.task.status.podName == "" {
      UnstartedReaches(w);
    } else {
      StartedReaches(w, PodSucceeded);
    }
  }

  /** With old reads a Completed task is safe from going back to Running if and only if it is being
      deleted or gone. */
  lemma CompletedUndoneIff(w: World)
    requires StaleInv(w) && w.s.task.status.phase == Completed
    ensures Reaches(w, Running) <==> !Frozen(w.s)
  {
    if Frozen(w.s) {
      forall hs ensures Run(w, hs).s.task.status.phase != Running {
        FrozenRun(w, hs);
      }
    } else {
      StartedReaches(w, PodRunning);
    }
  }

  // ----- but only after an outside removal -----

  /** Completed with its pod still there and nothing else seen of it in flight, or frozen. */
  predicate Settled(s: State) {
    && s.task.status.phase == Completed
    && (|| Frozen(s)
        || (&& s.pod == Present(PodSucceeded)
            && (s.worker.Observed? && s.worker.c.version == s.task.version ==> s.worker.pod == PodSucceeded)))
  }

  lemma SettledStep(w: World, h: Happening)
    requires StaleInv(w) && Settled(w.s) && h != Now(Removed)
    ensures Settled(Happen(w, h).s) && Happen(w, h).s.task.status == w.s.task.status
  {
    if Frozen(w.s) {
      FrozenStep(w, h);
    }
  }

  /** A Completed task whose succeeded pod is not removed from outside keeps its status, old reads or
      not. */
  lemma {:induction false} SettledUntilRemoved(w: World, hs: seq<Happening>)
    requires StaleInv(w) && Settled(w.s) && Now(Removed) !in hs
    ensures Run(w, hs).s.task.status == w.s.task.status
    decreases |hs|
  {
    if hs != [] {
      assert hs[0] in hs;
      SettledStep(w, hs[0]);
      HappenInv(w, hs[0]);
      SettledUntilRemoved(Happen(w, hs[0]), hs[1..]);
    }
  }

  /** The ordinary life of a task ends settled, and a removal of its pod with one old read after that
      brings it back to Running. */
  lemma CompletedIsUndone(name: string, r: int)
    requires Accepted(r)
    ensures var w := Run(Start(name, r), Lift(RECONCILE + [PodMoves(PodSucceeded)] + RECONCILE));
            Settled(w.s) && Reaches(w, Running)
  {
    var es := RECONCILE + [PodMoves(PodSucceeded)] + RECONCILE;
    var s1 := Exec(Init(name, r), RECONCILE);
    FirstReconcile(name, r);
    ReconcileCompletes(Step(s1, PodMoves(PodSucceeded)));
    OneEvent(s1, PodMoves(PodSucceeded));
    ExecJoin(Init(name, r), RECONCILE, [PodMoves(PodSucceeded)]);
    ExecJoin(Init(name, r), RECONCILE + [PodMoves(PodSucceeded)], RECONCILE);
    LiftRuns(Start(name, r), es);
    StaleRunInv(Start(name, r), Lift(es));
    CompletedUndoneIff(Run(Start(name, r), Lift(es)));
  }
}
