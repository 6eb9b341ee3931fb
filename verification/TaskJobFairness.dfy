/** Progress of the controller itself: whole reconcile calls with fresh reads, one after the other,
    between the moves of pods that do not fail. Every fair order of them completes every job that is
    not doomed. */
module TaskJobFairness {
  import opened Graphs
  import opened TaskJobOperator
  import opened TaskJobInvariant
  import opened TaskJobRuns
  import opened TaskJobReconciler

  type LivePhase = p: PodPhase | p != PodFailed witness PodPending

  /** One reconcile call whose Create gets through and whose status write may be lost, or one move of
      a pod to any phase but Failed. */
  datatype Action = Call(j: Name, now: string, written: bool) | PodChanges(j: Name, phase: LivePhase)

  function Replies(now: string, written: bool): Answers {
    Answers(true, false, "", written, now)
  }

  function EventsOf(s: State, a: Action): seq<Event> {
    match a
    case Call(j, now, written) => ReconcileEvents(s, 0, j, Replies(now, written))
    case PodChanges(j, phase) => [PodMoves(j, phase)]
  }

  function Act(s: State, a: Action): State {
    Exec(s, EventsOf(s, a))
  }

  function ActAll(s: State, actions: seq<Action>): State
    decreases |actions|
  {
    if actions == [] then s else ActAll(Act(s, actions[0]), actions[1..])
  }

  function ActRounds(s: State, rounds: seq<seq<Action>>): State
    decreases |rounds|
  {
    if rounds == [] then s else ActRounds(ActAll(s, rounds[0]), rounds[1..])
  }

  predicate Calls(round: seq<Action>, j: Name) {
    exists i :: 0 <= i < |round| && round[i].Call? && round[i].j == j && round[i].written
  }

  predicate Ends(round: seq<Action>, j: Name) {
    exists i :: 0 <= i < |round| && round[i] == PodChanges(j, PodSucceeded)
  }

  /** In every round every job is reconciled with a write that gets through and every pod has its
      turn to succeed, among any other actions. */
  ghost predicate Fair(rounds: seq<seq<Action>>, jobs: set<Name>) {
    forall i, j :: 0 <= i < |rounds| && j in jobs ==> Calls(rounds[i], j) && Ends(rounds[i], j)
  }

  /** No call is in flight, and no unfinished job whose pod has failed had one that succeeded. */
  ghost predicate Calm(s: State) {
    && Inv(s) && s.workers == map[]
    && forall j :: j in s.jobs ==> PodsAgree(s.jobs[j])
  }

  predicate PodsAgree(job: Job) {
    Current(job).phase != Completed && CurrentPod(job) == Present(PodFailed) ==> !Succeeded(job)
  }

  // ----- one action -----

  /** How far a job is from Completed: a pod to create, to wait for, and to see succeeded. */
  function Stage(job: Job): nat {
    if Current(job).phase == Completed then 0
    else if CurrentPod(job) == Present(PodSucceeded) then 1
    else if CurrentPod(job).Present? then 2
    else 3
  }

  /** What an action makes of a job: never further from Completed, never lost by it, never saved. */
  predicate Nearer(job: Job, job': Job) {
    && job'.spec == job.spec
    && (PodsAgree(job) ==> PodsAgree(job'))
    && (PodsAgree(job) ==> (Hopeless(job') <==> Hopeless(job)))
    && (!Hopeless(job) && PodsAgree(job) ==> Stage(job') <= Stage(job))
  }

  function WithStatus(job: Job, st: Status): Job {
    job.(statuses := job.statuses + [st])
  }

  function WithPod(job: Job, view: PodView): Job {
    job.(pods := job.pods + [view])
  }

  lemma StatusNearer(job: Job, st: Status)
    requires !Terminal(Current(job).phase) && !Terminal(st.phase)
    ensures Nearer(job, WithStatus(job, st)) && Stage(WithStatus(job, st)) == Stage(job)
  {
  }

  lemma EndNearer(job: Job, st: Status)
    requires !Terminal(Current(job).phase) && Terminal(st.phase)
    requires CurrentPod(job) == Present(if st.phase == Completed then PodSucceeded else PodFailed)
    ensures Nearer(job, WithStatus(job, st)) && (st.phase == Completed ==> Stage(WithStatus(job, st)) == 0)
  {
    assert CurrentPod(job) in job.pods;
  }

  lemma PodNearer(job: Job, p: PodPhase)
    requires CurrentPod(job) == Absent || (CurrentPod(job).phase != PodSucceeded && CurrentPod(job).phase != PodFailed)
    requires p != PodFailed && job.spec.image != ""
    requires CurrentPod(job) == Absent ==> p == PodPending
    ensures Nearer(job, WithPod(job, Present(p)))
    ensures Current(job).phase != Completed ==> Stage(WithPod(job, Present(p))) == (if p == PodSucceeded then 1 else 2)
  {
    assert CurrentPod(job) in job.pods;
    assert forall v :: v in WithPod(job, Present(p)).pods <==> v in job.pods || v == Present(p);
  }

  lemma {:induction false} FirstUndone(s: State, deps: seq<Name>) returns (m: nat)
    requires exists d :: d in deps && !Done(s, d)
    ensures m < |deps| && !Done(s, deps[m]) && forall i :: 0 <= i < m ==> Done(s, deps[i])
    decreases |deps|
  {
    if Done(s, deps[0]) {
      assert deps == [deps[0]] + deps[1..];
      var k := FirstUndone(s, deps[1..]);
      m := k + 1;
    } else {
      m := 0;
    }
  }

  /** The state after an action on job j. */
  ghost predicate Effect(s: State, s': State, j: Name) {
    && j in s.jobs && s'.workers == s.workers && OnlyJobChanged(s, s', j)
    && Nearer(s.jobs[j], s'.jobs[j])
  }

  lemma NoEffect(s: State, j: Name)
    requires j in s.jobs
    ensures Effect(s, s, j)
  {
  }

  lemma BlockedEffect(s: State, j: Name, now: string, written: bool)
    requires Calm(s) && j in s.jobs && !Terminal(Current(s.jobs[j]).phase) && !DepsDone(s, j)
    ensures Effect(s, Act(s, Call(j, now, written)), j)
  {
    var m := FirstUndone(s, s.jobs[j].spec.dependsOn);
    BlockedCall(s, 0, j, m, Replies(now, written));
    NoEffect(s, j);
    StatusNearer(s.jobs[j], Current(s.jobs[j]).(phase := Queued, message := "Waiting for dependencies"));
  }

  lemma SyncEffect(s: State, j: Name, now: string, written: bool)
    requires Calm(s) && j in s.jobs && !Terminal(Current(s.jobs[j]).phase) && DepsDone(s, j)
    requires CurrentPod(s.jobs[j]).Present?
    ensures Effect(s, Act(s, Call(j, now, written)), j)
    ensures written && Stage(s.jobs[j]) == 1 ==> Stage(Act(s, Call(j, now, written)).jobs[j]) == 0
  {
    var job := s.jobs[j];
    var out := SyncStatus(Current(job), CurrentPod(job).phase, now);
    SyncCall(s, 0, j, Replies(now, written));
    NoEffect(s, j);
    if out != [] {
      if Terminal(out[0].phase) {
        EndNearer(job, out[0]);
      } else {
        StatusNearer(job, out[0]);
      }
    }
  }

  lemma NoImageEffect(s: State, j: Name, now: string, written: bool)
    requires Calm(s) && j in s.jobs && !Terminal(Current(s.jobs[j]).phase) && DepsDone(s, j)
    requires CurrentPod(s.jobs[j]) == Absent && s.jobs[j].spec.image == ""
    ensures Effect(s, Act(s, Call(j, now, written)), j) && Hopeless(s.jobs[j])
  {
    var job, a := s.jobs[j], Replies(now, written);
    NoPodCall(s, 0, j, a);
    assert JobOk(s, j);
    assert Succeeded(job) ==> EverHadPod(job);
    NoEffect(s, j);
    NoImageNearer(job, NoPodStatus(job, j, a));
  }

  lemma NoImageNearer(job: Job, st: Status)
    requires job.spec.image == "" && !Succeeded(job) && CurrentPod(job) == Absent && st.phase == Failed
    ensures Nearer(job, WithStatus(job, st))
  {
  }

  /** A pod created and Running written. */
  lemma CreationNearer(job: Job, st: Status)
    requires job.spec.image != "" && CurrentPod(job) == Absent && !Terminal(Current(job).phase) && !Terminal(st.phase)
    ensures var job' := WithStatus(WithPod(job, Present(PodPending)), st);
            Nearer(job, job') && Stage(job') == 2
  {
    PodNearer(job, PodPending);
    StatusNearer(WithPod(job, Present(PodPending)), st);
  }

  lemma CreateEffect(s: State, j: Name, now: string, written: bool)
    requires Calm(s) && j in s.jobs && !Terminal(Current(s.jobs[j]).phase) && DepsDone(s, j)
    requires CurrentPod(s.jobs[j]) == Absent && s.jobs[j].spec.image != ""
    ensures Effect(s, Act(s, Call(j, now, written)), j)
    ensures Stage(Act(s, Call(j, now, written)).jobs[j]) == 2
  {
    var a := Replies(now, written);
    NoPodCall(s, 0, j, a);
    if written {
      CreationNearer(s.jobs[j], NoPodStatus(s.jobs[j], j, a));
    } else {
      PodNearer(s.jobs[j], PodPending);
    }
  }

  /** A reconcile call changes its own job only. It brings a ready one that has no pod a stage
      further, and also one whose pod has succeeded if its write gets through. */
  lemma CallEffect(s: State, j: Name, now: string, written: bool)
    requires Calm(s) && j in s.jobs
    ensures Effect(s, Act(s, Call(j, now, written)), j)
    ensures DepsDone(s, j) && !Hopeless(s.jobs[j]) && ((written && Stage(s.jobs[j]) == 1) || Stage(s.jobs[j]) == 3)
            ==> Stage(Act(s, Call(j, now, written)).jobs[j]) < Stage(s.jobs[j])
  {
    if Terminal(Current(s.jobs[j]).phase) {
      TerminalIdle(s, 0, j, Replies(now, written));
      NoEffect(s, j);
    } else if !DepsDone(s, j) {
      BlockedEffect(s, j, now, written);
    } else if CurrentPod(s.jobs[j]).Present? {
      SyncEffect(s, j, now, written);
    } else if s.jobs[j].spec.image == "" {
      NoImageEffect(s, j, now, written);
    } else {
      CreateEffect(s, j, now, written);
    }
  }

  lemma PodChangesRuns(s: State, j: Name, p: LivePhase)
    ensures Act(s, PodChanges(j, p)) == PodStep(s, j, p)
  {
    var es := [PodMoves(j, p)];
    assert es[1..] == [] && Exec(Step(s, es[0]), []) == Step(s, es[0]);
  }

  lemma PodChangesEffect(s: State, j: Name, p: LivePhase)
    requires Calm(s) && j in s.jobs
    ensures Effect(s, Act(s, PodChanges(j, p)), j)
    ensures !Hopeless(s.jobs[j]) && Stage(s.jobs[j]) == 2 && p == PodSucceeded
            ==> Stage(Act(s, PodChanges(j, p)).jobs[j]) == 1
  {
    var job := s.jobs[j];
    assert JobOk(s, j);
    PodChangesRuns(s, j, p);
    NoEffect(s, j);
    if PodStep(s, j, p) != s {
      assert CurrentPod(job) in job.pods;
      PodNearer(job, p);
    }
  }

  /** A job after actions on it: as lost as before, and if not, no further from Completed. */
  predicate JobOnward(job: Job, job': Job) {
    && job'.spec == job.spec
    && (Hopeless(job') <==> Hopeless(job))
    && (!Hopeless(job) ==> Stage(job') <= Stage(job))
    && (Current(job).phase == Completed ==> Current(job').phase == Completed)
  }

  ghost predicate Onward(s: State, s': State) {
    && s'.jobs.Keys == s.jobs.Keys
    && forall j :: j in s.jobs ==> JobOnward(s.jobs[j], s'.jobs[j])
  }

  lemma EffectOnward(s: State, s': State, j: Name)
    requires Effect(s, s', j) && PodsAgree(s.jobs[j])
    requires Current(s.jobs[j]).phase == Completed ==> Succeeded(s.jobs[j])
    ensures Onward(s, s')
  {
    forall k | k in s.jobs ensures JobOnward(s.jobs[k], s'.jobs[k]) {
      if k != j {
        assert s'.jobs[k] == s.jobs[k];
      }
    }
  }

  lemma EffectCalm(s: State, s': State, j: Name)
    requires Calm(s) && Effect(s, s', j) && Inv(s')
    ensures Calm(s')
  {
    forall k | k in s'.jobs ensures PodsAgree(s'.jobs[k]) {
      assert PodsAgree(s.jobs[k]);
      if k != j {
        assert s'.jobs[k] == s.jobs[k];
      }
    }
  }

  lemma ActOnKnown(s: State, a: Action)
    requires Calm(s) && a.j in s.jobs
    ensures Effect(s, Act(s, a), a.j)
  {
    match a
    case Call(j, now, written) => CallEffect(s, j, now, written);
    case PodChanges(j, p) => PodChangesEffect(s, j, p);
  }

  lemma ActOnUnknown(s: State, a: Action)
    requires a.j !in s.jobs
    ensures Act(s, a) == s
  {
    if a.PodChanges? {
      PodChangesRuns(s, a.j, a.phase);
    }
  }

  lemma ActOnward(s: State, a: Action)
    requires Calm(s)
    ensures Calm(Act(s, a)) && Onward(s, Act(s, a))
  {
    if a.j in s.jobs {
      RunInv(s, EventsOf(s, a));
      ActOnKnown(s, a);
      EffectCalm(s, Act(s, a), a.j);
      assert JobOk(s, a.j) && PodsAgree(s.jobs[a.j]);
      EffectOnward(s, Act(s, a), a.j);
    } else {
      ActOnUnknown(s, a);
    }
  }

  lemma OnwardJoin(s: State, s1: State, s2: State)
    requires Onward(s, s1) && Onward(s1, s2)
    ensures Onward(s, s2)
  {
    forall j | j in s.jobs ensures JobOnward(s.jobs[j], s2.jobs[j]) {
      assert JobOnward(s.jobs[j], s1.jobs[j]) && JobOnward(s1.jobs[j], s2.jobs[j]);
    }
  }

  lemma OnwardDone(s: State, s': State, j: Name)
    requires Onward(s, s') && Done(s, j)
    ensures Done(s', j)
  {
    assert JobOnward(s.jobs[j], s'.jobs[j]);
  }

  lemma {:induction false} ActAllOnward(s: State, actions: seq<Action>)
    requires Calm(s)
    ensures Calm(ActAll(s, actions)) && Onward(s, ActAll(s, actions))
    decreases |actions|
  {
    if actions != [] {
      ActOnward(s, actions[0]);
      ActAllOnward(Act(s, actions[0]), actions[1..]);
      OnwardJoin(s, Act(s, actions[0]), ActAll(s, actions));
    }
  }

  lemma {:induction false} ActRoundsOnward(s: State, rounds: seq<seq<Action>>)
    requires Calm(s)
    ensures Calm(ActRounds(s, rounds)) && Onward(s, ActRounds(s, rounds))
    decreases |rounds|
  {
    if rounds != [] {
      ActAllOnward(s, rounds[0]);
      ActRoundsOnward(ActAll(s, rounds[0]), rounds[1..]);
      OnwardJoin(s, ActAll(s, rounds[0]), ActRounds(s, rounds));
    }
  }

  lemma {:induction false} ActAllJoin(s: State, a: seq<Action>, b: seq<Action>)
    ensures ActAll(s, a + b) == ActAll(ActAll(s, a), b)
    decreases |a|
  {
    if a == [] {
      assert a + b == b;
    } else {
      assert (a + b)[1..] == a[1..] + b;
      ActAllJoin(Act(s, a[0]), a[1..], b);
    }
  }

  lemma {:induction false} ActRoundsJoin(s: State, a: seq<seq<Action>>, b: seq<seq<Action>>)
    ensures ActRounds(s, a + b) == ActRounds(ActRounds(s, a), b)
    decreases |a|
  {
    if a == [] {
      assert a + b == b;
    } else {
      assert (a + b)[1..] == a[1..] + b;
      ActRoundsJoin(ActAll(s, a[0]), a[1..], b);
    }
  }

  // ----- one round -----

  predicate Ready(s: State, j: Name) {
    j in s.jobs && DepsDone(s, j) && !Hopeless(s.jobs[j])
  }

  lemma ReadyStays(s: State, s': State, j: Name)
    requires Onward(s, s') && Ready(s, j)
    ensures Ready(s', j) && Stage(s'.jobs[j]) <= Stage(s.jobs[j])
  {
    assert JobOnward(s.jobs[j], s'.jobs[j]);
    forall d | d in s'.jobs[j].spec.dependsOn ensures Done(s', d) {
      assert Done(s, d);
      OnwardDone(s, s', d);
    }
  }

  /** The action that a ready job at this stage is waiting for. */
  predicate Wanted(s: State, a: Action, j: Name)
    requires j in s.jobs
  {
    a.j == j && (if Stage(s.jobs[j]) == 2 then a == PodChanges(j, PodSucceeded) else a.Call? && a.written)
  }

  lemma WantedAdvances(s: State, a: Action, j: Name)
    requires Calm(s) && Ready(s, j) && Stage(s.jobs[j]) > 0 && Wanted(s, a, j)
    ensures j in Act(s, a).jobs && Stage(Act(s, a).jobs[j]) < Stage(s.jobs[j])
  {
    match a
    case Call(_, now, written) => CallEffect(s, j, now, written);
    case PodChanges(_, p) => PodChangesEffect(s, j, p);
  }

  lemma ActAllSplit(s: State, round: seq<Action>, i: nat)
    requires i < |round|
    ensures ActAll(s, round) == ActAll(Act(ActAll(s, round[..i]), round[i]), round[i + 1..])
  {
    var rest := [round[i]] + round[i + 1..];
    assert round == round[..i] + rest && rest[1..] == round[i + 1..];
    ActAllJoin(s, round[..i], rest);
  }

  /** The wanted action, wherever it comes in a round, brings a ready job a stage further. */
  lemma WantedInRound(s: State, round: seq<Action>, i: nat, j: Name)
    requires Calm(s) && Ready(s, j) && Stage(s.jobs[j]) > 0 && i < |round| && Wanted(s, round[i], j)
    ensures j in ActAll(s, round).jobs && Stage(ActAll(s, round).jobs[j]) < Stage(s.jobs[j])
  {
    var s1 := ActAll(s, round[..i]);
    var s2 := Act(s1, round[i]);
    ActAllOnward(s, round[..i]);
    ReadyStays(s, s1, j);
    ActOnward(s1, round[i]);
    ReadyStays(s1, s2, j);
    if Stage(s1.jobs[j]) == Stage(s.jobs[j]) {
      WantedAdvances(s1, round[i], j);
    }
    ActAllOnward(s2, round[i + 1..]);
    ReadyStays(s2, ActAll(s2, round[i + 1..]), j);
    ActAllSplit(s, round, i);
  }

  lemma RoundAdvances(s: State, round: seq<Action>, j: Name)
    requires Calm(s) && Ready(s, j) && Stage(s.jobs[j]) > 0 && Calls(round, j) && Ends(round, j)
    ensures j in ActAll(s, round).jobs && Stage(ActAll(s, round).jobs[j]) < Stage(s.jobs[j])
  {
    var i: nat;
    if Stage(s.jobs[j]) == 2 {
      i :| i < |round| && round[i] == PodChanges(j, PodSucceeded);
    } else {
      i :| i < |round| && round[i].Call? && round[i].j == j && round[i].written;
    }
    WantedInRound(s, round, i, j);
  }

  /** As many fair rounds as its stage complete a ready job. */
  lemma {:induction false} RoundsComplete(s: State, rounds: seq<seq<Action>>, j: Name)
    requires Calm(s) && Ready(s, j) && Fair(rounds, {j}) && |rounds| >= Stage(s.jobs[j])
    ensures Done(ActRounds(s, rounds), j)
    decreases |rounds|
  {
    if Stage(s.jobs[j]) == 0 {
      ActRoundsOnward(s, rounds);
      OnwardDone(s, ActRounds(s, rounds), j);
    } else {
      var s1 := ActAll(s, rounds[0]);
      assert Calls(rounds[0], j) && Ends(rounds[0], j);
      RoundAdvances(s, rounds[0], j);
      ActAllOnward(s, rounds[0]);
      ReadyStays(s, s1, j);
      FairRest(rounds, {j}, 1);
      RoundsComplete(s1, rounds[1..], j);
    }
  }

  lemma FairRest(rounds: seq<seq<Action>>, jobs: set<Name>, n: nat)
    requires Fair(rounds, jobs) && n <= |rounds|
    ensures Fair(rounds[..n], jobs) && Fair(rounds[n..], jobs)
  {
  }

  // ----- all rounds -----

  lemma OnwardDoom(s: State, s': State, j: Name)
    requires Onward(s, s')
    ensures Doomed(s', j) <==> Doomed(s, j)
  {
    forall k | k in s.jobs ensures s'.jobs[k].spec == s.jobs[k].spec && (Hopeless(s'.jobs[k]) <==> Hopeless(s.jobs[k])) {
      assert JobOnward(s.jobs[k], s'.jobs[k]);
    }
    if Doomed(s', j) {
      var doom :| j in doom && DoomedSet(s', doom);
      DoomMoves(s', s, doom);
    }
    if Doomed(s, j) {
      var doom :| j in doom && DoomedSet(s, doom);
      DoomMoves(s, s', doom);
    }
  }

  lemma DoomMoves(s: State, s': State, doom: set<Name>)
    requires s'.jobs.Keys == s.jobs.Keys && DoomedSet(s, doom)
    requires forall k :: k in s.jobs ==> s'.jobs[k].spec == s.jobs[k].spec && (Hopeless(s'.jobs[k]) <==> Hopeless(s.jobs[k]))
    ensures DoomedSet(s', doom)
  {
    forall k | k in doom ensures DoomedBy(s', k, doom) {
      assert DoomedBy(s, k, doom);
      if !Hopeless(s.jobs[k]) {
        var d :| d in s.jobs[k].spec.dependsOn && (d !in s.jobs || d in doom);
        assert d in s'.jobs[k].spec.dependsOn && (d !in s'.jobs || d in doom);
      }
    }
  }

  lemma UndoomedIsNotHopeless(s: State, j: Name)
    requires j in s.jobs && !Doomed(s, j)
    ensures !Hopeless(s.jobs[j])
  {
    if Hopeless(s.jobs[j]) {
      assert DoomedSet(s, {j});
    }
  }

  lemma OnwardUnfinished(s: State, s': State, j: Name)
    requires Onward(s, s') && j in Unfinished(s) && Done(s', j)
    ensures |Unfinished(s')| < |Unfinished(s)|
  {
    var fewer := Unfinished(s) - {j};
    forall k | k in Unfinished(s') ensures k in fewer {
      OnwardDoom(s, s', k);
      if Done(s, k) {
        OnwardDone(s, s', k);
      }
    }
    SubsetCount(Unfinished(s'), fewer);
  }

  /** Three fair rounds finish one more job, if there is one to finish. */
  lemma ThreeRounds(s: State, rounds: seq<seq<Action>>)
    requires Calm(s) && Fair(rounds, s.jobs.Keys) && |rounds| == 3 && Unfinished(s) != {}
    ensures |Unfinished(ActRounds(s, rounds))| < |Unfinished(s)|
  {
    var r := SomeJobReady(s);
    UndoomedIsNotHopeless(s, r);
    RoundsComplete(s, rounds, r);
    ActRoundsOnward(s, rounds);
    OnwardUnfinished(s, ActRounds(s, rounds), r);
  }

  lemma AfterThree(s: State, rounds: seq<seq<Action>>, j: Name)
    requires Calm(s) && Fair(rounds, s.jobs.Keys) && |rounds| >= 3
    ensures var s3 := ActRounds(s, rounds[..3]);
            && Calm(s3) && Fair(rounds[3..], s3.jobs.Keys) && s3.jobs.Keys == s.jobs.Keys
            && (Doomed(s3, j) <==> Doomed(s, j))
            && ActRounds(s, rounds) == ActRounds(s3, rounds[3..])
  {
    FairRest(rounds, s.jobs.Keys, 3);
    ActRoundsOnward(s, rounds[..3]);
    OnwardDoom(s, ActRounds(s, rounds[..3]), j);
    ActRoundsJoin(s, rounds[..3], rounds[3..]);
    assert rounds == rounds[..3] + rounds[3..];
  }

  lemma {:induction false} FairRoundsComplete(s: State, rounds: seq<seq<Action>>, j: Name, n: nat)
    requires Calm(s) && Fair(rounds, s.jobs.Keys) && n >= |Unfinished(s)| && |rounds| >= 3 * n
    requires j in s.jobs && !Doomed(s, j)
    ensures Done(ActRounds(s, rounds), j)
    decreases n
  {
    if Done(s, j) {
      ActRoundsOnward(s, rounds);
      OnwardDone(s, ActRounds(s, rounds), j);
    } else {
      assert j in Unfinished(s);
      FairRest(rounds, s.jobs.Keys, 3);
      ThreeRounds(s, rounds[..3]);
      AfterThree(s, rounds, j);
      FairRoundsComplete(ActRounds(s, rounds[..3]), rounds[3..], j, n - 1);
    }
  }

  /** From any state with no call in flight, after three fair rounds for every unfinished job, in
      whatever order, the Completed jobs are exactly those that are not doomed. */
  lemma FairCompletesIff(s: State, rounds: seq<seq<Action>>, j: Name)
    requires Calm(s) && Fair(rounds, s.jobs.Keys) && |rounds| >= 3 * |Unfinished(s)| && j in s.jobs
    ensures Done(ActRounds(s, rounds), j) <==> !Doomed(s, j)
  {
    var s' := ActRounds(s, rounds);
    ActRoundsOnward(s, rounds);
    if Doomed(s, j) {
      OnwardDoom(s, s', j);
      var doom :| j in doom && DoomedSet(s', doom);
      DoomedNotDone(s', doom, j);
    } else {
      FairRoundsComplete(s, rounds, j, |Unfinished(s)|);
    }
  }

  // ----- which states are calm -----

  predicate SuccessIsLast(job: Job) {
    Succeeded(job) ==> CurrentPod(job) == Present(PodSucceeded)
  }

  ghost predicate SuccessesAreLast(s: State) {
    forall j :: j in s.jobs ==> SuccessIsLast(s.jobs[j])
  }

  lemma AddPodLast(s: State, j: Name, view: PodView)
    requires SuccessesAreLast(s) && j in s.jobs && CurrentPod(s.jobs[j]) != Present(PodSucceeded)
    ensures SuccessesAreLast(AddPod(s, j, view))
  {
    var job := AddPod(s, j, view).jobs[j];
    assert forall v :: v in job.pods <==> v in s.jobs[j].pods || v == view;
    assert SuccessIsLast(s.jobs[j]);
  }

  lemma SamePodsLast(s: State, s': State)
    requires SuccessesAreLast(s) && s'.jobs.Keys == s.jobs.Keys
    requires forall j :: j in s.jobs ==> s'.jobs[j].pods == s.jobs[j].pods
    ensures SuccessesAreLast(s')
  {
    forall j | j in s'.jobs ensures SuccessIsLast(s'.jobs[j]) {
      assert SuccessIsLast(s.jobs[j]);
    }
  }

  lemma CreateLast(s: State, w: nat, created: bool, error: bool, message: string)
    requires SuccessesAreLast(s)
    ensures SuccessesAreLast(CreateStep(s, w, created, error, message))
  {
    var s' := CreateStep(s, w, created, error, message);
    if s' != s && created {
      var j := s.workers[w].job;
      AddPodLast(s, j, Present(PodPending));
      SamePodsLast(AddPod(s, j, Present(PodPending)), s');
    } else {
      SamePodsLast(s, s');
    }
  }

  lemma StepLast(s: State, e: Event)
    requires SuccessesAreLast(s) && !e.Evict?
    ensures SuccessesAreLast(Step(s, e))
  {
    match e
    case Submit(j, spec) =>
    case Get(w, j, v) => SamePodsLast(s, GetStep(s, w, j, v));
    case CheckDep(w, v) => SamePodsLast(s, CheckDepStep(s, w, v));
    case ListPods(w, v, now) => SamePodsLast(s, ListStep(s, w, v, now));
    case Create(w, created, error, message) => CreateLast(s, w, created, error, message);
    case Update(w, reached) => SamePodsLast(s, UpdateStep(s, w, reached));
    case Crash(w) => SamePodsLast(s, Drop(s, w));
    case PodMoves(j, p) =>
      if PodStep(s, j, p) != s {
        AddPodLast(s, j, Present(p));
      }
    case Evict(j) =>
  }

  lemma {:induction false} RunLast(s: State, es: seq<Event>)
    requires SuccessesAreLast(s) && forall e :: e in es ==> !e.Evict?
    ensures SuccessesAreLast(Exec(s, es))
    decreases |es|
  {
    if es != [] {
      assert es[0] in es;
      StepLast(s, es[0]);
      RunLast(Step(s, es[0]), es[1..]);
    }
  }

  /** Every state reached without a pod being removed from outside is calm once no call is in
      flight. */
  lemma ReachedCalm(es: seq<Event>)
    requires (forall e :: e in es ==> !e.Evict?) && Exec(INIT, es).workers == map[]
    ensures Calm(Exec(INIT, es))
  {
    InitInv();
    RunInv(INIT, es);
    RunLast(INIT, es);
    var s := Exec(INIT, es);
    forall j | j in s.jobs ensures PodsAgree(s.jobs[j]) {
      assert SuccessIsLast(s.jobs[j]);
    }
  }

  /** The jobs that calm states leave out fail: a call that reads a failed pod writes Failed, even
      when an earlier pod of the job had succeeded. */
  lemma FailedPodFails(s: State, j: Name, now: string)
    requires s.workers == map[] && j in s.jobs && !Terminal(Current(s.jobs[j]).phase) && DepsDone(s, j)
    requires CurrentPod(s.jobs[j]) == Present(PodFailed)
    ensures j in Act(s, Call(j, now, true)).jobs && Current(Act(s, Call(j, now, true)).jobs[j]).phase == Failed
  {
    SyncCall(s, 0, j, Replies(now, true));
  }
}
