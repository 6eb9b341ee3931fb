/** The TaskJob operator as a protocol: any number of reconcile calls in flight, one API
    call per step, reads that may be stale, status writes that are compare-and-swap on the
    object version, crashes between any two API calls, and pods that move on their own. */
module TaskJobOperator {
  import opened Graphs

  datatype Phase = Unset | Queued | Running | Completed | Failed

  datatype Status = Status(phase: Phase, podName: string, message: string,
                           startTime: string, endTime: string, exitCode: int)

  const FRESH := Status(Unset, "", "", "", "", 0)

  datatype PodPhase = PodPending | PodRunning | PodSucceeded | PodFailed | PodUnknown

  datatype PodView = Absent | Present(phase: PodPhase)

  datatype Spec = Spec(dependsOn: seq<Name>, image: string)

  /** A TaskJob with every version of its status and of its pod, oldest first: a read returns
      some version, a write succeeds only on top of the newest one. `createErrors` is a history
      variable: the messages of the Creates that reported an error. */
  datatype JobRecord = JobRecord(spec: Spec, statuses: seq<Status>, pods: seq<PodView>, createErrors: seq<string>)

  type Job = r: JobRecord | r.statuses != [] && r.pods != []
    witness JobRecord(Spec([], ""), [FRESH], [Absent], [])

  /** A reconcile call in flight, holding the copy of the TaskJob it read at `version`. */
  datatype Worker =
    | Checking(job: Name, version: nat, status: Status, next: nat)
    | Creating(job: Name, version: nat, status: Status)
    | Writing(job: Name, version: nat, status: Status)

  /** `completions` is a history variable: the jobs in the order in which they completed. */
  datatype State = State(jobs: map<Name, Job>, workers: map<nat, Worker>, completions: seq<Name>)

  const INIT := State(map[], map[], [])

  datatype Event =
    | Submit(j: Name, spec: Spec)
    | Get(w: nat, j: Name, version: nat)
    | CheckDep(w: nat, version: nat)
    | ListPods(w: nat, version: nat, now: string)
    | Create(w: nat, created: bool, error: bool, message: string)
    | Update(w: nat, reached: bool)
    | Crash(w: nat)
    | PodMoves(j: Name, phase: PodPhase)
    | Evict(j: Name)

  predicate Terminal(p: Phase) {
    p == Completed || p == Failed
  }

  function Current(job: Job): Status {
    job.statuses[|job.statuses| - 1]
  }

  function CurrentPod(job: Job): PodView {
    job.pods[|job.pods| - 1]
  }

  function PodName(j: Name): string {
    "taskjob-" + j
  }

  // ----- the reconciler's pieces -----

  /** What syncStatus assigns for an observed pod phase; nothing for an unknown phase. */
  function SyncStatus(st: Status, pod: PodPhase, now: string): (r: seq<Status>) {
    match pod
    case PodRunning =>
      [st.(phase := Running, message := "Pod is running",
           startTime := if st.startTime == "" then now else st.startTime)]
    case PodSucceeded =>
      [st.(phase := Completed, endTime := now, message := "Task completed successfully", exitCode := 0)]
    case PodFailed =>
      [st.(phase := Failed, endTime := now, message := "Pod failed")]
    case PodPending =>
      [st.(phase := Queued, message := "Pod pending scheduling")]
    case PodUnknown => []
  }

  function Drop(s: State, w: nat): State {
    s.(workers := s.workers - {w})
  }

  function Put(s: State, w: nat, wk: Worker): State {
    s.(workers := s.workers[w := wk])
  }

  function GetStep(s: State, w: nat, j: Name, v: nat): State {
    if w !in s.workers && j in s.jobs && v < |s.jobs[j].statuses| && !Terminal(s.jobs[j].statuses[v].phase)
    then Put(s, w, Checking(j, v, s.jobs[j].statuses[v], 0))
    else s
  }

  function CheckDepStep(s: State, w: nat, v: nat): State {
    if w in s.workers && s.workers[w].Checking? && s.workers[w].job in s.jobs
       && s.workers[w].next < |s.jobs[s.workers[w].job].spec.dependsOn| then
      var wk := s.workers[w];
      var d := s.jobs[wk.job].spec.dependsOn[wk.next];
      if d !in s.jobs then Drop(s, w)
      else if v >= |s.jobs[d].statuses| then s
      else if s.jobs[d].statuses[v].phase == Completed then Put(s, w, wk.(next := wk.next + 1))
      else Put(s, w, Writing(wk.job, wk.version,
                             wk.status.(phase := Queued, message := "Waiting for dependencies")))
    else s
  }

  function ListStep(s: State, w: nat, v: nat, now: string): State {
    if w in s.workers && s.workers[w].Checking? && s.workers[w].job in s.jobs
       && s.workers[w].next == |s.jobs[s.workers[w].job].spec.dependsOn|
       && v < |s.jobs[s.workers[w].job].pods| then
      var wk := s.workers[w];
      var job := s.jobs[wk.job];
      match job.pods[v]
      case Absent =>
        if job.spec.image == ""
        then Put(s, w, Writing(wk.job, wk.version, wk.status.(phase := Failed, message := "No image specified")))
        else Put(s, w, Creating(wk.job, wk.version, wk.status))
      case Present(p) =>
        var out := SyncStatus(wk.status, p, now);
        if out == [] then Drop(s, w) else Put(s, w, Writing(wk.job, wk.version, out[0]))
    else s
  }

  function AddPod(s: State, j: Name, view: PodView): State
    requires j in s.jobs
  {
    s.(jobs := s.jobs[j := s.jobs[j].(pods := s.jobs[j].pods + [view])])
  }

  function AddCreateError(s: State, j: Name, message: string): State
    requires j in s.jobs
  {
    s.(jobs := s.jobs[j := s.jobs[j].(createErrors := s.jobs[j].createErrors + [message])])
  }

  /** What a Create leaves behind. */
  function Created(s: State, j: Name, created: bool, error: bool, message: string): (s': State)
    requires j in s.jobs
    ensures j in s'.jobs && s'.workers == s.workers && s'.jobs[j].statuses == s.jobs[j].statuses
  {
    var podded := if created then AddPod(s, j, Present(PodPending)) else s;
    if error then AddCreateError(podded, j, message) else podded
  }

  /** A pod is created only if none exists under its name. A call that reports no error did
      create the pod; one that reports an error may or may not have. */
  function CreateStep(s: State, w: nat, created: bool, error: bool, message: string): State {
    if w in s.workers && s.workers[w].Creating? && s.workers[w].job in s.jobs
       && (created ==> CurrentPod(s.jobs[s.workers[w].job]) == Absent) && (!error ==> created) then
      var wk := s.workers[w];
      var after := Created(s, wk.job, created, error, message);
      if error
      then Put(after, w, Writing(wk.job, wk.version, wk.status.(phase := Failed, message := "Pod creation failed: " + message)))
      else Put(after, w, Writing(wk.job, wk.version, wk.status.(phase := Running, podName := PodName(wk.job))))
    else s
  }

  /** Status().Update: takes effect only if it reaches the server and the object is still at
      the version that was read. */
  function UpdateStep(s: State, w: nat, reached: bool): State {
    if w in s.workers && s.workers[w].Writing? then
      var wk := s.workers[w];
      if reached && wk.job in s.jobs && wk.version == |s.jobs[wk.job].statuses| - 1 then
        var job := s.jobs[wk.job];
        State(s.jobs[wk.job := job.(statuses := job.statuses + [wk.status])], s.workers - {w},
              if wk.status.phase == Completed then s.completions + [wk.job] else s.completions)
      else Drop(s, w)
    else s
  }

  function PodStep(s: State, j: Name, p: PodPhase): State {
    if j in s.jobs && CurrentPod(s.jobs[j]).Present?
       && CurrentPod(s.jobs[j]).phase != PodSucceeded && CurrentPod(s.jobs[j]).phase != PodFailed
    then AddPod(s, j, Present(p))
    else s
  }

  /** s with a new job. */
  function WithJob(s: State, j: Name, spec: Spec): State {
    s.(jobs := s.jobs[j := JobRecord(spec, [FRESH], [Absent], [])])
  }

  /** One event. An event that is not possible in s leaves s as it is, so every sequence of
      events is a run. */
  function Step(s: State, e: Event): State {
    match e
    case Submit(j, spec) =>
      if j in s.jobs then s else WithJob(s, j, spec)
    case Get(w, j, v) => GetStep(s, w, j, v)
    case CheckDep(w, v) => CheckDepStep(s, w, v)
    case ListPods(w, v, now) => ListStep(s, w, v, now)
    case Create(w, created, error, message) => CreateStep(s, w, created, error, message)
    case Update(w, reached) => UpdateStep(s, w, reached)
    case Crash(w) => Drop(s, w)
    case PodMoves(j, p) => PodStep(s, j, p)
    case Evict(j) =>
      if j in s.jobs then AddPod(s, j, Absent) else s
  }

  function Exec(s: State, es: seq<Event>): State
    decreases |es|
  {
    if es == [] then s else Exec(Step(s, es[0]), es[1..])
  }

  // ----- invariant -----

  predicate Done(s: State, d: Name) {
    d in s.jobs && Current(s.jobs[d]).phase == Completed
  }

  predicate DepsDone(s: State, j: Name)
    requires j in s.jobs
  {
    forall d :: d in s.jobs[j].spec.dependsOn ==> Done(s, d)
  }

  predicate Succeeded(job: Job) {
    Present(PodSucceeded) in job.pods
  }

  predicate EverHadPod(job: Job) {
    exists v :: v in job.pods && v.Present?
  }

  /** A start time, once recorded, is kept by the later status. */
  predicate KeepsStart(before: Status, after: Status) {
    before.startTime != "" ==> after.startTime == before.startTime
  }

  predicate WorkerOk(s: State, wk: Worker) {
    && wk.job in s.jobs
    && var job := s.jobs[wk.job];
    && wk.version < |job.statuses|
    && !Terminal(job.statuses[wk.version].phase)
    && match wk
       case Checking(_, v, st, next) =>
         && st == job.statuses[v] && next <= |job.spec.dependsOn|
         && forall k :: 0 <= k < next ==> Done(s, job.spec.dependsOn[k])
       case Creating(j, v, st) =>
         st == job.statuses[v] && DepsDone(s, j) && job.spec.image != ""
       case Writing(j, v, st) =>
         && KeepsStart(job.statuses[v], st)
         && (st.phase == Completed ==> Succeeded(job))
  }

  predicate JobOk(s: State, j: Name)
    requires j in s.jobs
  {
    var job := s.jobs[j];
    && job.statuses[0] == FRESH
    && (forall i :: 0 <= i < |job.statuses| - 1 ==> !Terminal(job.statuses[i].phase))
    && (forall i, k :: 0 <= i < k < |job.statuses| ==> KeepsStart(job.statuses[i], job.statuses[k]))
    && (EverHadPod(job) ==> DepsDone(s, j) && job.spec.image != "")
    && (Current(job).phase == Completed ==> Succeeded(job))
  }

  predicate LoggedAfterDeps(s: State, i: nat)
    requires i < |s.completions|
  {
    && s.completions[i] in s.jobs
    && forall d :: d in s.jobs[s.completions[i]].spec.dependsOn ==> d in s.completions[..i]
  }

  /** The completion log holds exactly the Completed jobs, each after all its dependencies. */
  ghost predicate LogOk(s: State) {
    && (forall j :: j in s.completions <==> Done(s, j))
    && (forall i :: 0 <= i < |s.completions| ==> LoggedAfterDeps(s, i))
  }

  ghost predicate Inv(s: State) {
    && (forall j :: j in s.jobs ==> JobOk(s, j))
    && (forall w :: w in s.workers ==> WorkerOk(s, s.workers[w]))
    && LogOk(s)
  }

  /** s' continues s: jobs stay, with their specs and with every recorded version. */
  predicate Continues(s: State, s': State) {
    && s.completions <= s'.completions
    && forall j :: j in s.jobs ==>
         && j in s'.jobs && s'.jobs[j].spec == s.jobs[j].spec
         && s.jobs[j].statuses <= s'.jobs[j].statuses && s.jobs[j].pods <= s'.jobs[j].pods
         && s.jobs[j].createErrors <= s'.jobs[j].createErrors
  }
}
