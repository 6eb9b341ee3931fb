/** The CloudTask operator: one reconcile at a time per task, one API call per step, crashes
    between any two of them, spec edits and deletion requests from users, pods that move
    forward on their own and can be removed from outside. */
module CloudTask {
  datatype Phase = Unset | Pending | Running | Completed | Failed

  datatype Status = Status(phase: Phase, podName: string, retryCount: int)

  datatype PodPhase = PodPending | PodRunning | PodSucceeded | PodFailed | PodUnknown

  datatype PodView = Absent | Present(phase: PodPhase)

  /** The stored object; `version` changes with every accepted write. */
  datatype Task = Task(version: nat, retries: int, status: Status, deleting: bool, finalizer: bool)

  /** What the reconcile in progress will do next, with the copy of the task it holds. */
  datatype Worker =
    | Idle
    | Fetched(c: Task)
    | Observed(c: Task, pod: PodPhase)
    | Synced(c: Task)
    | NoPod(c: Task)
    | Created(c: Task)
    | DeletingPod(c: Task)
    | DroppingFinalizer(c: Task)

  /** `creations`, `removals` (from outside), `ownRemovals` (by the finalizer), `lost` (status
      writes after a Create that did not take effect), `succeeded` and `failed` (pods that ended
      so) are history counters. */
  datatype State = State(name: string, stored: bool, task: Task, pod: PodView, worker: Worker,
                         creations: nat, removals: nat, ownRemovals: nat, lost: nat, succeeded: nat, failed: nat)

  /** Whether each kind of API call of a reconcile gets through. */
  datatype Answers = Answers(finalizer: bool, sync: bool, retry: bool, create: bool, write: bool, delete: bool, drop: bool)

  datatype Event =
    | Begin
    | Advance(a: Answers)
    | Crash
    | EditSpec(retries: int)
    | RequestDelete
    | PodMoves(phase: PodPhase)
    | Removed

  const MAX_RETRIES := 10

  /** The webhooks: zero becomes three, and only 0 to 10 is accepted. */
  function Defaulted(retries: int): int {
    if retries == 0 then 3 else retries
  }

  predicate Accepted(retries: int) {
    0 <= Defaulted(retries) <= MAX_RETRIES
  }

  /** What the webhooks let through, and with which value. */
  lemma WebhookMeaning(retries: int)
    ensures Accepted(retries) <==> 0 <= retries <= 10
    ensures Accepted(retries) ==> 1 <= Defaulted(retries) <= 10 && (retries == 0 ==> Defaulted(retries) == 3)
    ensures retries != 0 ==> Defaulted(retries) == retries
  {
  }

  function PodName(s: State): string {
    s.name + "-pod"
  }

  predicate Startable(p: Phase) {
    p == Unset || p == Pending
  }

  function Init(name: string, retries: int): State {
    State(name, true, Task(0, Defaulted(retries), Status(Unset, "", 0), false, false), Absent, Idle, 0, 0, 0, 0, 0, 0)
  }

  /** updateStatusFromPod. */
  function SyncFromPod(st: Status, pod: PodPhase): Status {
    match pod
    case PodRunning => if st.phase != Running then st.(phase := Running) else st
    case PodSucceeded => if st.phase != Completed then st.(phase := Completed) else st
    case PodFailed => if st.phase != Failed then st.(phase := Failed) else st
    case PodPending => if st.phase != Running && st.phase != Pending then st.(phase := Pending) else st
    case PodUnknown => st
  }

  // ----- one API call -----

  /** A write of the task takes effect if it reaches the server at the version it was read. */
  predicate Lands(s: State, c: Task, reached: bool) {
    reached && s.stored && c.version == s.task.version
  }

  function Store(s: State, c: Task): State {
    s.(task := c.(version := s.task.version + 1))
  }

  function AdvanceFetched(s: State, c: Task, a: Answers): State {
    if c.deleting then
      if !c.finalizer then s.(worker := Idle)
      else if c.status.podName != "" && s.pod.Present? then s.(worker := DeletingPod(c))
      else s.(worker := DroppingFinalizer(c))
    else if !c.finalizer then
      if Lands(s, c, a.finalizer) then
        var s' := Store(s, c.(finalizer := true));
        s'.(worker := Fetched(s'.task))
      else s.(worker := Idle)
    else if c.status.podName != "" && s.pod.Present? then s.(worker := Observed(c, s.pod.phase))
    else s.(worker := NoPod(c))
  }

  function AdvanceObserved(s: State, c: Task, p: PodPhase, a: Answers): State {
    var st := SyncFromPod(c.status, p);
    if st == c.status then s.(worker := Synced(c))
    else if Lands(s, c, a.sync) then
      var s' := Store(s, c.(status := st));
      s'.(worker := Synced(s'.task))
    else s.(worker := Idle)
  }

  /** Failed with retries left: back to Pending, the pod forgotten but not deleted. */
  function AdvanceSynced(s: State, c: Task, a: Answers): State {
    if c.status.phase == Failed && c.status.retryCount < c.retries && Lands(s, c, a.retry)
    then Store(s, c.(status := Status(Pending, "", c.status.retryCount + 1))).(worker := Idle)
    else s.(worker := Idle)
  }

  function AdvanceNoPod(s: State, c: Task, a: Answers): State {
    if Startable(c.status.phase) && a.create && s.pod == Absent
    then s.(pod := Present(PodPending), creations := s.creations + 1, worker := Created(c))
    else s.(worker := Idle)
  }

  function AdvanceCreated(s: State, c: Task, a: Answers): State {
    if Lands(s, c, a.write)
    then Store(s, c.(status := Status(Running, PodName(s), c.status.retryCount))).(worker := Idle)
    else s.(worker := Idle, lost := s.lost + 1)
  }

  function AdvanceDeleting(s: State, c: Task, a: Answers): State {
    if a.delete && s.pod.Present?
    then s.(pod := Absent, ownRemovals := s.ownRemovals + 1, worker := DroppingFinalizer(c))
    else s.(worker := Idle)
  }

  function AdvanceDropping(s: State, c: Task, a: Answers): State {
    if Lands(s, c, a.drop) then s.(stored := false, worker := Idle) else s.(worker := Idle)
  }

  function Next(s: State, a: Answers): State {
    match s.worker
    case Idle => s
    case Fetched(c) => AdvanceFetched(s, c, a)
    case Observed(c, p) => AdvanceObserved(s, c, p, a)
    case Synced(c) => AdvanceSynced(s, c, a)
    case NoPod(c) => AdvanceNoPod(s, c, a)
    case Created(c) => AdvanceCreated(s, c, a)
    case DeletingPod(c) => AdvanceDeleting(s, c, a)
    case DroppingFinalizer(c) => AdvanceDropping(s, c, a)
  }

  /** An event that is not possible leaves the state as it is, so every sequence is a run. */
  function Step(s: State, e: Event): State {
    match e
    case Begin => if s.worker == Idle && s.stored then s.(worker := Fetched(s.task)) else s
    case Advance(a) => Next(s, a)
    case Crash => s.(worker := Idle, lost := if s.worker.Created? then s.lost + 1 else s.lost)
    case EditSpec(r) =>
      if s.stored && Accepted(r) then Store(s, s.task.(retries := Defaulted(r))) else s
    case RequestDelete =>
      if !s.stored then s
      else if !s.task.finalizer then s.(stored := false)
      else Store(s, s.task.(deleting := true))
    case PodMoves(p) =>
      if s.pod.Present? && s.pod.phase != PodSucceeded && s.pod.phase != PodFailed
      then s.(pod := Present(p), succeeded := s.succeeded + One(p == PodSucceeded), failed := s.failed + One(p == PodFailed))
      else s
    case Removed => if s.pod.Present? then s.(pod := Absent, removals := s.removals + 1) else s
  }

  function Exec(s: State, es: seq<Event>): State
    decreases |es|
  {
    if es == [] then s else Exec(Step(s, es[0]), es[1..])
  }

  // ----- invariant -----

  function One(b: bool): nat {
    if b then 1 else 0
  }

  predicate PodAgrees(st: Status, pod: PodView) {
    && (st.podName != "" ==> st.phase == Running || st.phase == Completed || st.phase == Failed)
    && (st.podName == "" ==> Startable(st.phase))
    && (st.podName != "" && st.phase == Completed ==> pod == Absent || pod == Present(PodSucceeded))
    && (st.podName != "" && st.phase == Failed ==> pod == Absent || pod == Present(PodFailed))
  }

  /** The copy a reconcile holds has the stored status: nobody else writes it. */
  predicate WorkerOk(s: State) {
    && (s.worker != Idle ==> s.worker.c.status == s.task.status && s.worker.c.retries <= MAX_RETRIES)
    && (s.worker != Idle && s.worker.c.version == s.task.version ==> s.worker.c == s.task)
    && (s.worker != Idle ==> s.worker.c.version <= s.task.version)
    && (s.worker.Observed? ==> s.worker.c.status.podName != "" && PodAgrees(s.worker.c.status, Present(s.worker.pod)))
    && ((s.worker.Observed? && (s.worker.pod == PodSucceeded || s.worker.pod == PodFailed))
        ==> s.pod == Absent || s.pod == Present(s.worker.pod))
    && (s.worker.Synced? ==> s.worker.c.status.podName != "")
    && (s.worker.Created? ==> Startable(s.worker.c.status.phase))
    && (s.worker.DeletingPod? ==> s.worker.c.status.podName != "")
    && (s.worker.DeletingPod? || s.worker.DroppingFinalizer? ==> s.worker.c.deleting)
    && (s.worker != Idle && s.worker.c.deleting ==> s.task.deleting)
    && (s.worker.Observed? || s.worker.Synced? || s.worker.NoPod? || s.worker.Created? ==> !s.worker.c.deleting)
  }

  predicate CountsOk(s: State) {
    && s.creations == s.removals + s.ownRemovals + One(s.pod.Present?)
    && s.lost + One(s.worker.Created?) <= s.creations
    && s.task.status.retryCount + One(s.task.status.podName != "")
         == s.creations - s.lost - One(s.worker.Created?)
    && (s.ownRemovals > 0 ==> s.task.deleting && s.pod == Absent && (s.worker != Idle ==> s.worker.c.deleting))
    && s.ownRemovals <= 1
  }

  /** A failure of the task's own pod that no retry has used up yet. */
  predicate FailureDue(s: State) {
    || (s.task.status.podName != "" && s.task.status.phase == Failed)
    || (s.pod == Present(PodFailed) && (s.task.status.podName != "" || s.worker.Created?))
    || (s.worker.Observed? && s.worker.pod == PodFailed)
  }

  /** A success of the task's own pod that the status has shown or will show. */
  predicate SuccessSeen(s: State) {
    || s.task.status.phase == Completed
    || s.pod == Present(PodSucceeded)
    || (s.worker.Observed? && s.worker.pod == PodSucceeded)
  }

  predicate EndingsOk(s: State) {
    && s.task.status.retryCount + One(FailureDue(s)) <= s.failed
    && One(SuccessSeen(s)) <= s.succeeded
  }

  predicate Inv(s: State) {
    && 0 <= s.task.status.retryCount <= MAX_RETRIES && s.task.retries <= MAX_RETRIES
    && PodAgrees(s.task.status, s.pod)
    && WorkerOk(s) && CountsOk(s) && EndingsOk(s)
  }

  /** The retry count never goes down, and a Completed status never changes. */
  predicate Kept(s: State, s': State) {
    && s'.task.status.retryCount >= s.task.status.retryCount
    && (s.task.status.phase == Completed ==> s'.task.status == s.task.status)
  }

  lemma FinalizerInv(s: State, a: Answers)
    requires Inv(s) && s.worker.Fetched? && !s.worker.c.deleting && !s.worker.c.finalizer
    ensures Inv(AdvanceFetched(s, s.worker.c, a)) && Kept(s, AdvanceFetched(s, s.worker.c, a))
  {
  }

  lemma FetchedInv(s: State, a: Answers)
    requires Inv(s) && s.worker.Fetched?
    ensures Inv(AdvanceFetched(s, s.worker.c, a)) && Kept(s, AdvanceFetched(s, s.worker.c, a))
  {
    if !s.worker.c.deleting && !s.worker.c.finalizer {
      FinalizerInv(s, a);
    }
  }

  lemma ObservedInv(s: State, a: Answers)
    requires Inv(s) && s.worker.Observed?
    ensures Inv(AdvanceObserved(s, s.worker.c, s.worker.pod, a)) && Kept(s, AdvanceObserved(s, s.worker.c, s.worker.pod, a))
  {
  }

  lemma SyncedInv(s: State, a: Answers)
    requires Inv(s) && s.worker.Synced?
    ensures Inv(AdvanceSynced(s, s.worker.c, a)) && Kept(s, AdvanceSynced(s, s.worker.c, a))
  {
  }

  lemma NoPodInv(s: State, a: Answers)
    requires Inv(s) && s.worker.NoPod?
    ensures Inv(AdvanceNoPod(s, s.worker.c, a)) && Kept(s, AdvanceNoPod(s, s.worker.c, a))
  {
  }

  lemma CreatedInv(s: State, a: Answers)
    requires Inv(s) && s.worker.Created?
    ensures Inv(AdvanceCreated(s, s.worker.c, a)) && Kept(s, AdvanceCreated(s, s.worker.c, a))
  {
  }

  lemma DeletingPodInv(s: State, a: Answers)
    requires Inv(s) && s.worker.DeletingPod?
    ensures Inv(AdvanceDeleting(s, s.worker.c, a)) && Kept(s, AdvanceDeleting(s, s.worker.c, a))
  {
  }

  lemma DroppingFinalizerInv(s: State, a: Answers)
    requires Inv(s) && s.worker.DroppingFinalizer?
    ensures Inv(AdvanceDropping(s, s.worker.c, a)) && Kept(s, AdvanceDropping(s, s.worker.c, a))
  {
  }

  lemma BeginInv(s: State)
    requires Inv(s)
    ensures Inv(Step(s, Begin)) && Kept(s, Step(s, Begin))
  {
  }

  lemma CrashInv(s: State)
    requires Inv(s)
    ensures Inv(Step(s, Crash)) && Kept(s, Step(s, Crash))
  {
  }

  lemma EditSpecInv(s: State, r: int)
    requires Inv(s)
    ensures Inv(Step(s, EditSpec(r))) && Kept(s, Step(s, EditSpec(r)))
  {
  }

  lemma RequestDeleteInv(s: State)
    requires Inv(s)
    ensures Inv(Step(s, RequestDelete)) && Kept(s, Step(s, RequestDelete))
  {
  }

  lemma PodMovesInv(s: State, p: PodPhase)
    requires Inv(s)
    ensures Inv(Step(s, PodMoves(p))) && Kept(s, Step(s, PodMoves(p)))
  {
  }

  lemma RemovedInv(s: State)
    requires Inv(s)
    ensures Inv(Step(s, Removed)) && Kept(s, Step(s, Removed))
  {
  }

  lemma StepInv(s: State, e: Event)
    requires Inv(s)
    ensures Inv(Step(s, e)) && Kept(s, Step(s, e))
  {
    match e
    case Advance(a) =>
      match s.worker {
        case Idle =>
        case Fetched(_) => FetchedInv(s, a);
        case Observed(_, _) => ObservedInv(s, a);
        case Synced(_) => SyncedInv(s, a);
        case NoPod(_) => NoPodInv(s, a);
        case Created(_) => CreatedInv(s, a);
        case DeletingPod(_) => DeletingPodInv(s, a);
        case DroppingFinalizer(_) => DroppingFinalizerInv(s, a);
      }
    case Begin => BeginInv(s);
    case Crash => CrashInv(s);
    case EditSpec(r) => EditSpecInv(s, r);
    case RequestDelete => RequestDeleteInv(s);
    case PodMoves(p) => PodMovesInv(s, p);
    case Removed => RemovedInv(s);
  }

  lemma {:induction false} RunInv(s: State, es: seq<Event>)
    requires Inv(s)
    ensures Inv(Exec(s, es)) && Kept(s, Exec(s, es))
    decreases |es|
  {
    if es != [] {
      StepInv(s, es[0]);
      RunInv(Step(s, es[0]), es[1..]);
    }
  }

  lemma {:induction false} ExecJoin(s: State, es: seq<Event>, fs: seq<Event>)
    ensures Exec(s, es + fs) == Exec(Exec(s, es), fs)
    decreases |es|
  {
    if es == [] {
      assert es + fs == fs;
    } else {
      assert (es + fs)[1..] == es[1..] + fs;
      ExecJoin(Step(s, es[0]), es[1..], fs);
    }
  }

  // ----- every run -----

  /** In every run the retry count stays between 0 and 10 and never goes down, whatever spec
      edits the webhooks let through. */
  lemma RetriesBounded(name: string, r: int, es: seq<Event>, later: seq<Event>)
    requires Accepted(r)
    ensures 0 <= Exec(Init(name, r), es).task.status.retryCount <= MAX_RETRIES
    ensures Exec(Init(name, r), es + later).task.status.retryCount >= Exec(Init(name, r), es).task.status.retryCount
  {
    var s := Exec(Init(name, r), es);
    RunInv(Init(name, r), es);
    RunInv(s, later);
    ExecJoin(Init(name, r), es, later);
  }

  /** Completed is absorbing: no later event changes the status. */
  lemma CompletedAbsorbing(name: string, r: int, es: seq<Event>, later: seq<Event>)
    requires Accepted(r) && Exec(Init(name, r), es).task.status.phase == Completed
    ensures Exec(Init(name, r), es + later).task.status == Exec(Init(name, r), es).task.status
  {
    var s := Exec(Init(name, r), es);
    RunInv(Init(name, r), es);
    RunInv(s, later);
    ExecJoin(Init(name, r), es, later);
  }

  /** Pods are created at most once more than they are removed from outside, at most once more
      than the task was retried if no status write after a Create is lost, and a retry always
      uses up a created pod. */
  lemma CreationsBounded(name: string, r: int, es: seq<Event>)
    requires Accepted(r)
    ensures var s := Exec(Init(name, r), es);
            && s.creations <= 1 + s.removals
            && s.creations <= 1 + s.task.status.retryCount + s.lost
            && s.task.status.retryCount <= s.creations
  {
    RunInv(Init(name, r), es);
  }

  /** The task is retried at most as often as pods failed, reports Failed only after another
      failure, and Completed only after a pod succeeded. */
  lemma StatusIsEarned(name: string, r: int, es: seq<Event>)
    requires Accepted(r)
    ensures var s := Exec(Init(name, r), es);
            && s.task.status.retryCount + One(s.task.status.phase == Failed) <= s.failed
            && (s.task.status.phase == Completed ==> s.succeeded > 0)
            && (s.task.status.phase == Running ==> s.creations > s.task.status.retryCount)
  {
    RunInv(Init(name, r), es);
  }

  // ----- the retry that cannot start -----

  /** The task wants a pod, does not know of one, and its pod's name is taken. */
  predicate Wedged(s: State) {
    s.task.status.podName == "" && s.pod.Present? && !s.worker.Created?
  }

  lemma WedgedStep(s: State, e: Event)
    requires Inv(s) && Wedged(s) && e != Removed
    ensures Wedged(Step(s, e)) && Step(s, e).task.status == s.task.status
  {
  }

  /** A retry while the failed pod is still there wedges the task, and so does a crash or a lost
      write right after a Create. */
  lemma BecomesWedged(s: State, e: Event)
    requires Inv(s) && s.pod.Present?
    ensures Step(s, e).task.status.retryCount > s.task.status.retryCount ==> Wedged(Step(s, e))
    ensures Step(s, e).lost > s.lost ==> Wedged(Step(s, e))
  {
  }

  /** A wedged task keeps its status until the pod is removed from outside, whatever the
      controller, the users and the pod do. */
  lemma {:induction false} WedgedUntilRemoved(s: State, es: seq<Event>)
    requires Inv(s) && Wedged(s) && Removed !in es
    ensures Wedged(Exec(s, es)) && Exec(s, es).task.status == s.task.status
    decreases |es|
  {
    if es != [] {
      assert es[0] in es;
      WedgedStep(s, es[0]);
      StepInv(s, es[0]);
      WedgedUntilRemoved(Step(s, es[0]), es[1..]);
    }
  }

  const ALL := Answers(true, true, true, true, true, true, true)

  /** One reconcile in which every call gets through. */
  const RECONCILE := [Begin, Advance(ALL), Advance(ALL), Advance(ALL), Advance(ALL)]

  lemma ThreeAdvances(s: State, a: Answers)
    ensures Exec(s, [Advance(a), Advance(a), Advance(a)]) == Next(Next(Next(s, a), a), a)
  {
    var es := [Advance(a), Advance(a), Advance(a)];
    assert es[1..] == [Advance(a), Advance(a)];
    assert es[1..][1..] == [Advance(a)];
    assert es[1..][1..][1..] == [];
    assert Exec(Next(Next(s, a), a), es[1..][1..]) == Next(Next(Next(s, a), a), a);
    assert Exec(Next(s, a), es[1..]) == Exec(Next(Next(s, a), a), es[1..][1..]);
  }

  lemma FiveEvents(s: State, a: Answers)
    ensures Exec(s, [Begin, Advance(a), Advance(a), Advance(a), Advance(a)])
         == Next(Next(Next(Next(Step(s, Begin), a), a), a), a)
  {
    var es := [Begin, Advance(a), Advance(a), Advance(a), Advance(a)];
    assert es[1..] == [Advance(a), Advance(a), Advance(a), Advance(a)];
    assert es[1..][1..] == [Advance(a), Advance(a), Advance(a)];
    ThreeAdvances(Next(Step(s, Begin), a), a);
  }

  /** Nothing stands in the way of the next reconcile. */
  predicate AtRest(s: State) {
    s.worker == Idle && s.stored && !s.task.deleting
  }

  /** A reconcile of a task that has not started, without a pod, starts one. */
  lemma ReconcileStarts(s: State)
    requires AtRest(s) && Startable(s.task.status.phase) && s.pod == Absent
    ensures var s' := Exec(s, RECONCILE);
            && s'.task.status == Status(Running, s.name + "-pod", s.task.status.retryCount) && s'.pod == Present(PodPending)
            && AtRest(s') && s'.task.retries == s.task.retries
  {
    FiveEvents(s, ALL);
    var s1 := Step(s, Begin);
    var s2 := if s.task.finalizer then s1 else Next(s1, ALL);
    assert s2.worker.Fetched? && s2.worker.c == s2.task && s2.task.finalizer;
    var s3 := Next(s2, ALL);
    assert s3.worker == NoPod(s3.task);
    var s4 := Next(s3, ALL);
    assert s4.worker == Created(s4.task);
    var s5 := Next(s4, ALL);
    assert s5.worker == Idle && Next(s5, ALL) == s5;
  }

  /** Once the pod that wedged a task is gone, the next reconcile starts a new one. */
  lemma RemovalRestarts(s: State)
    requires Inv(s) && Wedged(s) && AtRest(s)
    ensures var s' := Exec(s, [Removed] + RECONCILE);
            s'.task.status == Status(Running, PodName(s), s.task.status.retryCount) && s'.pod == Present(PodPending)
  {
    ReconcileStarts(Step(s, Removed));
    assert ([Removed] + RECONCILE)[1..] == RECONCILE;
  }

  // ----- the reconciler -----

  class Reconciler {
    var s: State

    constructor (initial: State)
      ensures s == initial
    {
      s := initial;
    }

    /** Writes the copy c back; on success the copy takes the new version. */
    method Write(c: Task, reached: bool) returns (ok: bool, c': Task)
      modifies this
      ensures ok == Lands(old(s), c, reached)
      ensures s == if ok then Store(old(s), c) else old(s)
      ensures ok ==> c' == s.task
    {
      ok, c' := Lands(s, c, reached), c;
      if ok {
        s := Store(s, c);
        c' := s.task;
      }
    }

    method UpdateStatusFromPod(st: Status, pod: PodPhase) returns (st': Status, updated: bool)
      ensures st' == SyncFromPod(st, pod) && (updated <==> st' != st)
      ensures st' == st.(phase := match pod
                                  case PodRunning => Running
                                  case PodSucceeded => Completed
                                  case PodFailed => Failed
                                  case PodPending => if st.phase == Running then Running else Pending
                                  case PodUnknown => st.phase)
    {
      st', updated := st, false;
      match pod
      case PodRunning =>
        if st'.phase != Running {
          st', updated := st'.(phase := Running), true;
        }
      case PodSucceeded =>
        if st'.phase != Completed {
          st', updated := st'.(phase := Completed), true;
        }
      case PodFailed =>
        if st'.phase != Failed {
          st', updated := st'.(phase := Failed), true;
        }
      case PodPending =>
        if st'.phase != Running && st'.phase != Pending {
          st', updated := st'.(phase := Pending), true;
        }
      case PodUnknown =>
    }

    /** Deletion with the finalizer: delete the pod if one is known, then drop the finalizer. */
    method Finalize(c: Task, a: Answers)
      requires s.worker == Idle && c.deleting
      modifies this
      ensures s.worker == Idle
      ensures s == Next(Next(Next(old(s).(worker := Fetched(c)), a), a), a)
    {
      if !c.finalizer {
        return;
      }
      if c.status.podName != "" && s.pod.Present? {
        if !a.delete {
          return;
        }
        s := s.(pod := Absent, ownRemovals := s.ownRemovals + 1);
      }
      if Lands(s, c, a.drop) {
        s := s.(stored := false);
      }
    }

    /** A pod was found: take over its phase, then retry a failure if retries are left. */
    method FollowPod(c0: Task, a: Answers)
      requires s.worker == Idle && s.pod.Present?
      modifies this
      ensures s.worker == Idle
      ensures s == Next(Next(old(s).(worker := Observed(c0, old(s).pod.phase)), a), a)
    {
      var c := c0;
      var st, updated := UpdateStatusFromPod(c.status, s.pod.phase);
      if updated {
        var ok;
        ok, c := Write(c.(status := st), a.sync);
        if !ok {
          return;
        }
      }
      if c.status.phase == Failed && c.status.retryCount < c.retries {
        var _, _ := Write(c.(status := Status(Pending, "", c.status.retryCount + 1)), a.retry);
      }
    }

    /** No pod is known: create one if the task has not started. */
    method StartPod(c: Task, a: Answers)
      requires s.worker == Idle
      modifies this
      ensures s.worker == Idle
      ensures s == Next(Next(old(s).(worker := NoPod(c)), a), a)
    {
      if Startable(c.status.phase) {
        if !a.create || s.pod != Absent {
          return;
        }
        s := s.(pod := Present(PodPending), creations := s.creations + 1);
        var ok, _ := Write(c.(status := Status(Running, PodName(s), c.status.retryCount)), a.write);
        if !ok {
          s := s.(lost := s.lost + 1);
        }
      }
    }

    /** One reconcile from start to end is one run of the protocol's steps. */
    method Reconcile(a: Answers)
      requires s.worker == Idle
      modifies this
      ensures s.worker == Idle
      ensures s == Exec(old(s), [Begin, Advance(a), Advance(a), Advance(a), Advance(a)])
    {
      FiveEvents(s, a);
      if !s.stored {
        return;
      }
      var c := s.task;
      if c.deleting {
        Finalize(c, a);
        return;
      }
      if !c.finalizer {
        var ok;
        ok, c := Write(c.(finalizer := true), a.finalizer);
        if !ok {
          return;
        }
      }
      if c.status.podName != "" && s.pod.Present? {
        FollowPod(c, a);
      } else {
        StartPod(c, a);
      }
    }
  }
}
