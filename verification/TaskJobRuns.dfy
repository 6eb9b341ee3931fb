/** What holds in every run of the TaskJob operator, and exactly which jobs can complete. */
module TaskJobRuns {
  import opened Graphs
  import opened TaskJobOperator
  import opened TaskJobInvariant

  function DependencyGraph(s: State): Adj {
    map j | j in s.jobs :: s.jobs[j].spec.dependsOn
  }

  lemma InitInv()
    ensures Inv(INIT)
  {
  }

  lemma {:induction false} ExecJoin(s: State, es: seq<Event>, fs: seq<Event>)
    ensures Exec(s, es + fs) == Exec(Exec(s, es), fs)
    decreases |es|
  {
    if es == [] {
      assert es + fs == fs;
    } else {
      assert (es + fs)[1..] == es[1..] + fs;
      ExecJoin(Step(s, es[0]), es[1..], fs);
    }
  }

  lemma ExecCons(s: State, e: Event, es: seq<Event>)
    ensures Exec(s, [e] + es) == Exec(Step(s, e), es)
  {
    assert ([e] + es)[1..] == es;
  }

  lemma GetRuns(s: State, w: nat, j: Name)
    requires w !in s.workers && j in s.jobs && !Terminal(Current(s.jobs[j]).phase)
    ensures Step(s, Get(w, j, |s.jobs[j].statuses| - 1))
         == Put(s, w, Checking(j, |s.jobs[j].statuses| - 1, Current(s.jobs[j]), 0))
  {
  }

  lemma GetThen(s: State, w: nat, j: Name, es: seq<Event>)
    requires w !in s.workers && j in s.jobs && !Terminal(Current(s.jobs[j]).phase)
    ensures Exec(s, [Get(w, j, |s.jobs[j].statuses| - 1)] + es)
         == Exec(Put(s, w, Checking(j, |s.jobs[j].statuses| - 1, Current(s.jobs[j]), 0)), es)
  {
    GetRuns(s, w, j);
    ExecCons(s, Get(w, j, |s.jobs[j].statuses| - 1), es);
  }

  // ----- safety -----

  /** In every run a job has had a pod only if all its dependencies are Completed. */
  lemma PodOnlyAfterDependencies(es: seq<Event>, j: Name)
    requires j in Exec(INIT, es).jobs && EverHadPod(Exec(INIT, es).jobs[j])
    ensures DepsDone(Exec(INIT, es), j)
    ensures Exec(INIT, es).jobs[j].spec.image != ""
  {
    InitInv();
    RunInv(INIT, es);
  }

  lemma {:induction false} DoneAlongWalk(s: State, p: seq<Name>)
    requires Inv(s) && Walk(DependencyGraph(s), p) && Done(s, p[0])
    ensures Done(s, p[|p| - 1])
    decreases |p|
  {
    if |p| > 1 {
      assert Edge(DependencyGraph(s), p[0], p[1]);
      DoneHasDeps(s, p[0]);
      WalkSuffix(DependencyGraph(s), p, 1);
      DoneAlongWalk(s, p[1..]);
    }
  }

  lemma DoneHasDeps(s: State, j: Name)
    requires Inv(s) && Done(s, j)
    ensures DepsDone(s, j) && Succeeded(s.jobs[j])
  {
    assert JobOk(s, j);
  }

  /** The Completed jobs are closed under DependsOn, transitively, and each of them has had a
      pod that succeeded. */
  lemma CompletedClosed(es: seq<Event>, j: Name, d: Name)
    requires Done(Exec(INIT, es), j)
    requires Reaches(DependencyGraph(Exec(INIT, es)), j, d)
    ensures Done(Exec(INIT, es), d) && Succeeded(Exec(INIT, es).jobs[d])
  {
    var s := Exec(INIT, es);
    InitInv();
    RunInv(INIT, es);
    var p :| WalkBetween(DependencyGraph(s), p, j, d);
    DoneAlongWalk(s, p);
    DoneHasDeps(s, d);
  }

  /** Completed and Failed are absorbing: no later event changes any field of the status. */
  lemma TerminalAbsorbing(es: seq<Event>, later: seq<Event>, j: Name)
    requires j in Exec(INIT, es).jobs && Terminal(Current(Exec(INIT, es).jobs[j]).phase)
    ensures j in Exec(INIT, es + later).jobs
    ensures Exec(INIT, es + later).jobs[j].statuses == Exec(INIT, es).jobs[j].statuses
  {
    InitInv();
    RunInv(INIT, es);
    RunInv(Exec(INIT, es), later);
    ExecJoin(INIT, es, later);
    ContinuesKeepsDone(Exec(INIT, es), Exec(Exec(INIT, es), later), j);
  }

  /** A recorded start time is never overwritten. */
  lemma StartTimeIsFinal(es: seq<Event>, later: seq<Event>, j: Name)
    requires j in Exec(INIT, es).jobs && Current(Exec(INIT, es).jobs[j]).startTime != ""
    ensures j in Exec(INIT, es + later).jobs
    ensures Current(Exec(INIT, es + later).jobs[j]).startTime == Current(Exec(INIT, es).jobs[j]).startTime
  {
    var s := Exec(INIT, es);
    var s' := Exec(s, later);
    InitInv();
    RunInv(INIT, es);
    RunInv(s, later);
    ExecJoin(INIT, es, later);
    StartCarries(s', j, |s.jobs[j].statuses| - 1);
  }

  lemma StartCarries(s: State, j: Name, n: nat)
    requires Inv(s) && j in s.jobs && n < |s.jobs[j].statuses| && s.jobs[j].statuses[n].startTime != ""
    ensures Current(s.jobs[j]).startTime == s.jobs[j].statuses[n].startTime
  {
    assert JobOk(s, j);
    if n < |s.jobs[j].statuses| - 1 {
      assert KeepsStart(s.jobs[j].statuses[n], Current(s.jobs[j]));
    }
  }

  // ----- trap sets -----

  ghost predicate Blocked(s: State, j: Name, trap: set<Name>) {
    && j in s.jobs
    && exists d :: d in s.jobs[j].spec.dependsOn && (d in trap || (d in s.jobs && Current(s.jobs[d]).phase == Failed))
  }

  /** Each member depends on a Failed job or on another member. */
  ghost predicate TrapSet(s: State, trap: set<Name>) {
    forall j {:trigger Blocked(s, j, trap)} :: j in trap ==> Blocked(s, j, trap)
  }

  /** A job that is logged while no member of a trap was logged before it is not blocked by the
      trap: its dependencies are all logged before it. */
  lemma LoggedNotBlocked(s: State, trap: set<Name>, i: nat)
    requires LogOk(s) && i < |s.completions| && forall d :: d in s.completions[..i] ==> d !in trap
    ensures !Blocked(s, s.completions[i], trap)
  {
    var j := s.completions[i];
    assert LoggedAfterDeps(s, i);
    forall d | d in s.jobs[j].spec.dependsOn ensures d !in trap && Done(s, d) {
      assert d in s.completions[..i] && d in s.completions;
    }
  }

  /** No member of a trap set has completed: the first one to do so would have done it after
      a dependency that is Failed or a member. */
  lemma {:induction false} TrapNotLogged(s: State, trap: set<Name>, i: nat)
    requires LogOk(s) && TrapSet(s, trap) && i <= |s.completions|
    ensures forall d :: d in s.completions[..i] ==> d !in trap
  {
    if i > 0 {
      TrapNotLogged(s, trap, i - 1);
      LoggedNotBlocked(s, trap, i - 1);
      assert s.completions[..i] == s.completions[..i - 1] + [s.completions[i - 1]];
    }
  }

  lemma TrapStays(s: State, s': State, trap: set<Name>)
    requires Inv(s) && Inv(s') && Continues(s, s') && TrapSet(s, trap)
    ensures TrapSet(s', trap)
  {
    forall j | j in trap ensures Blocked(s', j, trap) {
      assert Blocked(s, j, trap);
      var d :| d in s.jobs[j].spec.dependsOn && (d in trap || (d in s.jobs && Current(s.jobs[d]).phase == Failed));
      if d !in trap {
        ContinuesKeepsDone(s, s', d);
      }
    }
  }

  /** Once a set of jobs is a trap (a dependency cycle, or jobs that wait for a Failed one), no
      member has ever had a pod or completed, and none ever will, whatever happens next. */
  lemma TrapNeverRuns(es: seq<Event>, later: seq<Event>, trap: set<Name>)
    requires TrapSet(Exec(INIT, es), trap)
    ensures var s := Exec(INIT, es + later);
            forall j :: j in trap ==> j in s.jobs && !EverHadPod(s.jobs[j]) && Current(s.jobs[j]).phase != Completed
  {
    var s := Exec(INIT, es);
    var s' := Exec(s, later);
    InitInv();
    RunInv(INIT, es);
    RunInv(s, later);
    ExecJoin(INIT, es, later);
    TrapStays(s, s', trap);
    forall j | j in trap ensures j in s'.jobs && !EverHadPod(s'.jobs[j]) && Current(s'.jobs[j]).phase != Completed {
      TrappedHasNothing(s', trap, j);
    }
  }

  lemma TrappedHasNothing(s: State, trap: set<Name>, j: Name)
    requires Inv(s) && TrapSet(s, trap) && j in trap
    ensures j in s.jobs && !EverHadPod(s.jobs[j]) && !Done(s, j)
  {
    TrapNotLogged(s, trap, |s.completions|);
    assert s.completions[..|s.completions|] == s.completions;
    assert Blocked(s, j, trap) && JobOk(s, j);
  }

  /** Members of a dependency cycle form a trap, so they never run. */
  lemma CycleIsTrap(s: State, c: seq<Name>)
    requires ClosedWalk(DependencyGraph(s), c)
    ensures TrapSet(s, Elements(c))
  {
    var g := DependencyGraph(s);
    forall j | j in Elements(c) ensures Blocked(s, j, Elements(c)) {
      var i :| 0 <= i < |c| && c[i] == j;
      var k := if i == |c| - 1 then 0 else i;
      assert Edge(g, c[k], c[k + 1]) && c[k + 1] in Elements(c);
    }
  }

  // ----- exactly which jobs can complete -----

  /** Lost whatever its dependencies do: already Failed, or no pod of it has succeeded and
      none will, because it has no image or its pod has failed. */
  predicate Hopeless(job: Job) {
    || Current(job).phase == Failed
    || (!Succeeded(job) && (job.spec.image == "" || CurrentPod(job) == Present(PodFailed)))
  }

  ghost predicate DoomedBy(s: State, j: Name, doom: set<Name>) {
    && j in s.jobs
    && (Hopeless(s.jobs[j]) || exists d :: d in s.jobs[j].spec.dependsOn && (d !in s.jobs || d in doom))
  }

  ghost predicate DoomedSet(s: State, doom: set<Name>) {
    forall j {:trigger DoomedBy(s, j, doom)} :: j in doom ==> DoomedBy(s, j, doom)
  }

  /** j is in a set whose members are hopeless, miss a dependency or depend on a member. */
  ghost predicate Doomed(s: State, j: Name) {
    exists doom :: j in doom && DoomedSet(s, doom)
  }

  /** No new jobs and no pods removed from outside. */
  predicate Undisturbed(es: seq<Event>) {
    forall e :: e in es ==> !e.Submit? && !e.Evict?
  }

  ghost predicate CanComplete(s: State, j: Name) {
    exists es :: Undisturbed(es) && Done(Exec(s, es), j)
  }

  lemma {:induction false} DoomedNotLogged(s: State, doom: set<Name>, i: nat)
    requires Inv(s) && DoomedSet(s, doom) && i <= |s.completions|
    ensures forall k :: 0 <= k < i ==> s.completions[k] !in doom
  {
    if i > 0 {
      DoomedNotLogged(s, doom, i - 1);
      var j := s.completions[i - 1];
      assert LoggedAfterDeps(s, i - 1) && j in s.completions;
      DoneHasDeps(s, j);
      forall d | d in s.jobs[j].spec.dependsOn ensures d !in doom && Done(s, d) {
        assert d in s.completions[..i - 1];
      }
      assert !DoomedBy(s, j, doom);
    }
  }

  lemma DoomedNotDone(s: State, doom: set<Name>, j: Name)
    requires Inv(s) && DoomedSet(s, doom) && j in doom
    ensures !Done(s, j)
  {
    DoomedNotLogged(s, doom, |s.completions|);
  }

  lemma FailedPodStays(s: State, e: Event, j: Name)
    requires !e.Evict? && j in s.jobs && CurrentPod(s.jobs[j]) == Present(PodFailed)
    ensures j in Step(s, e).jobs && Step(s, e).jobs[j].pods == s.jobs[j].pods
  {
  }

  lemma JobsStay(s: State, e: Event)
    requires !e.Submit?
    ensures Step(s, e).jobs.Keys == s.jobs.Keys
  {
  }

  lemma HopelessStays(s: State, e: Event, j: Name)
    requires Inv(s) && !e.Submit? && !e.Evict? && j in s.jobs && Hopeless(s.jobs[j])
    ensures j in Step(s, e).jobs && Hopeless(Step(s, e).jobs[j])
  {
    StepInv(s, e);
    if Current(s.jobs[j]).phase != Failed && CurrentPod(s.jobs[j]) == Present(PodFailed) {
      FailedPodStays(s, e, j);
    }
    HopelessCarries(s, Step(s, e), j);
  }

  lemma HopelessCarries(s: State, s': State, j: Name)
    requires Inv(s) && Inv(s') && Continues(s, s') && j in s.jobs && Hopeless(s.jobs[j])
    requires (Current(s.jobs[j]).phase != Failed && CurrentPod(s.jobs[j]) == Present(PodFailed))
             ==> s'.jobs[j].pods == s.jobs[j].pods
    ensures Hopeless(s'.jobs[j])
  {
    if Current(s.jobs[j]).phase == Failed {
      ContinuesKeepsDone(s, s', j);
    } else if s.jobs[j].spec.image == "" {
      assert JobOk(s', j);
      if Succeeded(s'.jobs[j]) {
        assert EverHadPod(s'.jobs[j]);
      }
    }
  }

  lemma DoomStays(s: State, e: Event, doom: set<Name>)
    requires Inv(s) && !e.Submit? && !e.Evict? && DoomedSet(s, doom)
    ensures DoomedSet(Step(s, e), doom)
  {
    StepInv(s, e);
    JobsStay(s, e);
    forall j | j in doom ensures DoomedBy(Step(s, e), j, doom) {
      assert DoomedBy(s, j, doom);
      if Hopeless(s.jobs[j]) {
        HopelessStays(s, e, j);
      } else {
        DoomCarries(s, Step(s, e), j, doom);
      }
    }
  }

  lemma DoomCarries(s: State, s': State, j: Name, doom: set<Name>)
    requires Continues(s, s') && s'.jobs.Keys == s.jobs.Keys
    requires DoomedBy(s, j, doom) && !Hopeless(s.jobs[j])
    ensures DoomedBy(s', j, doom)
  {
    var d :| d in s.jobs[j].spec.dependsOn && (d !in s.jobs || d in doom);
    assert d in s'.jobs[j].spec.dependsOn && (d !in s'.jobs || d in doom);
  }

  lemma {:induction false} DoomStaysRun(s: State, es: seq<Event>, doom: set<Name>)
    requires Inv(s) && Undisturbed(es) && DoomedSet(s, doom)
    ensures DoomedSet(Exec(s, es), doom)
    decreases |es|
  {
    if es != [] {
      assert es[0] in es;
      StepInv(s, es[0]);
      DoomStays(s, es[0], doom);
      DoomStaysRun(Step(s, es[0]), es[1..], doom);
    }
  }

  // ----- a run that completes a job whose dependencies are done -----

  lemma {:induction false} FreshWorker(ws: set<nat>) returns (w: nat)
    ensures forall u :: u in ws ==> u < w
    decreases ws
  {
    if ws == {} {
      w := 0;
    } else {
      var u :| u in ws;
      var rest := FreshWorker(ws - {u});
      w := if rest > u then rest else u + 1;
      assert forall x :: x in ws ==> x == u || x in ws - {u};
    }
  }

  function CheckAll(jobs: map<Name, Job>, w: nat, deps: seq<Name>): seq<Event> {
    if deps == [] then []
    else
      [CheckDep(w, if deps[0] in jobs then |jobs[deps[0]].statuses| - 1 else 0)] + CheckAll(jobs, w, deps[1..])
  }

  lemma {:induction false} CheckAllRuns(s: State, w: nat, k: nat)
    requires w in s.workers && s.workers[w].Checking? && s.workers[w].next == k
    requires s.workers[w].job in s.jobs && DepsDone(s, s.workers[w].job)
    requires k <= |s.jobs[s.workers[w].job].spec.dependsOn|
    ensures var deps := s.jobs[s.workers[w].job].spec.dependsOn;
            Exec(s, CheckAll(s.jobs, w, deps[k..])) == Put(s, w, s.workers[w].(next := |deps|))
    decreases |s.jobs[s.workers[w].job].spec.dependsOn| - k
  {
    var deps := s.jobs[s.workers[w].job].spec.dependsOn;
    if k == |deps| {
      assert Put(s, w, s.workers[w].(next := |deps|)) == s;
    } else {
      assert deps[k] in deps && Done(s, deps[k]);
      var es := CheckAll(s.jobs, w, deps[k..]);
      assert deps[k..][1..] == deps[k + 1..];
      var s' := Step(s, es[0]);
      assert s' == Put(s, w, s.workers[w].(next := k + 1));
      CheckAllRuns(s', w, k + 1);
    }
  }

  lemma {:induction false} ChecksUndisturbed(jobs: map<Name, Job>, w: nat, deps: seq<Name>)
    ensures Undisturbed(CheckAll(jobs, w, deps))
    decreases |deps|
  {
    if deps != [] {
      ChecksUndisturbed(jobs, w, deps[1..]);
    }
  }

  /** Get, then every dependency check, with fresh reads. */
  function Begin(s: State, w: nat, j: Name): seq<Event>
    requires j in s.jobs
  {
    [Get(w, j, |s.jobs[j].statuses| - 1)] + CheckAll(s.jobs, w, s.jobs[j].spec.dependsOn)
  }

  lemma BeginRuns(s: State, w: nat, j: Name)
    requires w !in s.workers && j in s.jobs && DepsDone(s, j) && !Terminal(Current(s.jobs[j]).phase)
    ensures Exec(s, Begin(s, w, j)) == Put(s, w, ReadyWorker(s, j))
  {
    BeginIs(s, w, j);
    AllChecksRun(s, w, Checking(j, |s.jobs[j].statuses| - 1, Current(s.jobs[j]), 0));
  }

  /** All dependency checks of a call that has just read its job. */
  lemma AllChecksRun(s: State, w: nat, read: Worker)
    requires read.Checking? && read.next == 0 && read.job in s.jobs && DepsDone(s, read.job)
    ensures var deps := s.jobs[read.job].spec.dependsOn;
            Exec(Put(s, w, read), CheckAll(s.jobs, w, deps)) == Put(s, w, read.(next := |deps|))
  {
    var deps := s.jobs[read.job].spec.dependsOn;
    assert deps[0..] == deps;
    PutKeepsDone(s, w, read, read.job);
    CheckAllRuns(Put(s, w, read), w, 0);
    PutTwice(s, w, read, read.(next := |deps|));
  }

  lemma PutTwice(s: State, w: nat, a: Worker, b: Worker)
    ensures Put(Put(s, w, a), w, b) == Put(s, w, b)
  {
    assert s.workers[w := a][w := b] == s.workers[w := b];
  }

  lemma BeginUndisturbed(s: State, w: nat, j: Name)
    requires j in s.jobs
    ensures Undisturbed(Begin(s, w, j))
  {
    ChecksUndisturbed(s.jobs, w, s.jobs[j].spec.dependsOn);
  }

  lemma PutKeepsDone(s: State, w: nat, wk: Worker, j: Name)
    requires j in s.jobs && DepsDone(s, j)
    ensures DepsDone(Put(s, w, wk), j)
  {
    assert forall d :: Done(Put(s, w, wk), d) <==> Done(s, d);
  }

  /** Begin is one read followed by the checks. */
  lemma BeginIs(s: State, w: nat, j: Name)
    requires w !in s.workers && j in s.jobs && !Terminal(Current(s.jobs[j]).phase)
    ensures Exec(s, Begin(s, w, j))
         == Exec(Put(s, w, Checking(j, |s.jobs[j].statuses| - 1, Current(s.jobs[j]), 0)),
                 CheckAll(s.jobs, w, s.jobs[j].spec.dependsOn))
  {
    GetThen(s, w, j, CheckAll(s.jobs, w, s.jobs[j].spec.dependsOn));
  }

  /** Past its dependency checks, holding the newest version. */
  function ReadyWorker(s: State, j: Name): Worker
    requires j in s.jobs
  {
    Checking(j, |s.jobs[j].statuses| - 1, Current(s.jobs[j]), |s.jobs[j].spec.dependsOn|)
  }

  lemma ListAbsent(s: State, w: nat, j: Name, now: string)
    requires j in s.jobs && CurrentPod(s.jobs[j]) == Absent && s.jobs[j].spec.image != ""
    ensures ListStep(Put(s, w, ReadyWorker(s, j)), w, |s.jobs[j].pods| - 1, now)
         == Put(s, w, Creating(j, |s.jobs[j].statuses| - 1, Current(s.jobs[j])))
  {
  }

  /** A Create that succeeds, and the write that follows it. */
  lemma CreateAndWrite(s: State, w: nat, j: Name)
    requires w !in s.workers && j in s.jobs && CurrentPod(s.jobs[j]) == Absent
    ensures var creating := Put(s, w, Creating(j, |s.jobs[j].statuses| - 1, Current(s.jobs[j])));
            var s' := UpdateStep(CreateStep(creating, w, true, false, ""), w, true);
            && OnlyJobChanged(s, s', j) && s'.workers == s.workers
            && CurrentPod(s'.jobs[j]) == Present(PodPending) && Current(s'.jobs[j]).phase == Running
  {
    var creating := Put(s, w, Creating(j, |s.jobs[j].statuses| - 1, Current(s.jobs[j])));
    var s' := UpdateStep(CreateStep(creating, w, true, false, ""), w, true);
    assert s'.workers == s.workers;
  }

  lemma SucceededCompletes(s: State, w: nat, j: Name) returns (es: seq<Event>)
    requires w !in s.workers && j in s.jobs && DepsDone(s, j)
    requires !Terminal(Current(s.jobs[j]).phase) && Succeeded(s.jobs[j])
    ensures Undisturbed(es) && Done(Exec(s, es), j) && OnlyJobChanged(s, Exec(s, es), j)
  {
    var i :| 0 <= i < |s.jobs[j].pods| && s.jobs[j].pods[i] == Present(PodSucceeded);
    BeginRuns(s, w, j);
    BeginUndisturbed(s, w, j);
    var s1 := Exec(s, Begin(s, w, j));
    var tail := [ListPods(w, i, ""), Update(w, true)];
    es := Begin(s, w, j) + tail;
    ExecJoin(s, Begin(s, w, j), tail);
    var s2 := ListStep(s1, w, i, "");
    var s3 := UpdateStep(s2, w, true);
    assert Exec(s1, tail) == s3 by {
      assert tail[1..] == [Update(w, true)];
      assert Exec(s2, tail[1..]) == s3;
    }
  }

  lemma AbsentGetsPod(s: State, w: nat, j: Name) returns (es: seq<Event>)
    requires w !in s.workers && j in s.jobs && DepsDone(s, j) && !Terminal(Current(s.jobs[j]).phase)
    requires CurrentPod(s.jobs[j]) == Absent && s.jobs[j].spec.image != ""
    ensures Undisturbed(es)
    ensures var s' := Exec(s, es);
            && OnlyJobChanged(s, s', j) && s'.workers == s.workers
            && CurrentPod(s'.jobs[j]) == Present(PodPending)
            && Current(s'.jobs[j]).phase == Running
  {
    var v := |s.jobs[j].pods| - 1;
    BeginRuns(s, w, j);
    BeginUndisturbed(s, w, j);
    var s1 := Exec(s, Begin(s, w, j));
    var tail := [ListPods(w, v, ""), Create(w, true, false, ""), Update(w, true)];
    es := Begin(s, w, j) + tail;
    ExecJoin(s, Begin(s, w, j), tail);
    ListAbsent(s, w, j, "");
    CreateAndWrite(s, w, j);
    ThreeCalls(s1, w, v, "", true, false, "", true);
  }

  lemma ThreeCalls(s: State, w: nat, v: nat, now: string, created: bool, error: bool, message: string, written: bool)
    ensures Exec(s, [ListPods(w, v, now), Create(w, created, error, message), Update(w, written)])
         == UpdateStep(CreateStep(ListStep(s, w, v, now), w, created, error, message), w, written)
  {
    var es := [ListPods(w, v, now), Create(w, created, error, message), Update(w, written)];
    var s1 := ListStep(s, w, v, now);
    var s2 := CreateStep(s1, w, created, error, message);
    assert es[1..] == [Create(w, created, error, message), Update(w, written)];
    assert es[1..][1..] == [Update(w, written)];
    assert Exec(s2, [Update(w, written)]) == UpdateStep(s2, w, written);
    assert Exec(s1, es[1..]) == Exec(s2, [Update(w, written)]);
  }

  predicate OnlyJobChanged(s: State, s': State, j: Name) {
    && j in s.jobs && s'.jobs.Keys == s.jobs.Keys
    && s'.jobs[j].spec == s.jobs[j].spec
    && forall k :: k in s.jobs && k != j ==> s'.jobs[k] == s.jobs[k]
  }

  /** A job with a live pod and finished dependencies gets a pod that succeeds. */
  lemma PodSucceeds(s: State, j: Name) returns (es: seq<Event>)
    requires j in s.jobs && CurrentPod(s.jobs[j]).Present? && CurrentPod(s.jobs[j]).phase != PodFailed
    ensures Undisturbed(es)
    ensures var s' := Exec(s, es);
            && OnlyJobChanged(s, s', j) && s'.workers == s.workers
            && s'.jobs[j].statuses == s.jobs[j].statuses && Succeeded(s'.jobs[j])
  {
    if CurrentPod(s.jobs[j]).phase == PodSucceeded {
      es := [];
      assert CurrentPod(s.jobs[j]) in s.jobs[j].pods;
    } else {
      es := [PodMoves(j, PodSucceeded)];
      var s' := PodStep(s, j, PodSucceeded);
      assert Exec(s, es) == s' by {
        assert es[1..] == [];
      }
      assert CurrentPod(s'.jobs[j]) in s'.jobs[j].pods;
    }
  }

  /** A job whose dependencies are done and that is not hopeless can be completed by a run
      that touches no other job. */
  lemma ReadyCompletes(s: State, j: Name) returns (es: seq<Event>)
    requires j in s.jobs && DepsDone(s, j) && !Done(s, j) && !Hopeless(s.jobs[j])
    ensures Undisturbed(es) && Done(Exec(s, es), j) && OnlyJobChanged(s, Exec(s, es), j)
  {
    var w := FreshWorker(s.workers.Keys);
    if Succeeded(s.jobs[j]) {
      es := SucceededCompletes(s, w, j);
    } else if CurrentPod(s.jobs[j]) == Absent {
      var e1 := AbsentGetsPod(s, w, j);
      var s1 := Exec(s, e1);
      DepsDoneElsewhere(s, s1, j);
      var e2 := LivePodCompletes(s1, w, j);
      ExecJoin(s, e1, e2);
      es := e1 + e2;
    } else {
      es := LivePodCompletes(s, w, j);
    }
  }

  lemma LivePodCompletes(s: State, w: nat, j: Name) returns (es: seq<Event>)
    requires w !in s.workers && j in s.jobs && DepsDone(s, j) && !Terminal(Current(s.jobs[j]).phase)
    requires CurrentPod(s.jobs[j]).Present? && CurrentPod(s.jobs[j]).phase != PodFailed
    ensures Undisturbed(es) && Done(Exec(s, es), j) && OnlyJobChanged(s, Exec(s, es), j)
  {
    var e1 := PodSucceeds(s, j);
    var s1 := Exec(s, e1);
    DepsDoneElsewhere(s, s1, j);
    var e2 := SucceededCompletes(s1, w, j);
    ExecJoin(s, e1, e2);
    es := e1 + e2;
  }

  lemma DepsDoneElsewhere(s: State, s': State, j: Name)
    requires j in s.jobs && DepsDone(s, j) && !Done(s, j) && OnlyJobChanged(s, s', j)
    ensures DepsDone(s', j)
  {
    forall d | d in s'.jobs[j].spec.dependsOn ensures Done(s', d) {
      assert Done(s, d);
    }
  }

  ghost function Unfinished(s: State): set<Name> {
    set j | j in s.jobs && !Doomed(s, j) && !Done(s, j)
  }

  ghost function AllDoomed(s: State): set<Name> {
    set k | k in s.jobs && Doomed(s, k)
  }

  lemma DoomedByAll(s: State, k: Name, all: set<Name>)
    requires k in AllDoomed(s) && AllDoomed(s) <= all
    ensures DoomedBy(s, k, all)
  {
    var part :| k in part && DoomedSet(s, part);
    assert DoomedBy(s, k, part);
    if !Hopeless(s.jobs[k]) {
      var d :| d in s.jobs[k].spec.dependsOn && (d !in s.jobs || d in part);
      if d in s.jobs {
        assert Doomed(s, d);
      }
      assert d !in s.jobs || d in all;
    }
  }

  /** If every unfinished job waits for something that is not done, the unfinished jobs and the
      doomed ones together are a doomed set. */
  lemma AllWaitingIsDoomed(s: State)
    requires forall k :: k in Unfinished(s) ==> !DepsDone(s, k)
    ensures DoomedSet(s, AllDoomed(s) + Unfinished(s))
  {
    var all := AllDoomed(s) + Unfinished(s);
    forall k | k in all ensures DoomedBy(s, k, all) {
      if k in AllDoomed(s) {
        DoomedByAll(s, k, all);
      } else {
        var d :| d in s.jobs[k].spec.dependsOn && !Done(s, d);
        assert d !in s.jobs || d in all;
      }
    }
  }

  /** If some job is neither doomed nor done, one of those has all its dependencies done. */
  lemma SomeJobReady(s: State) returns (j: Name)
    requires Unfinished(s) != {}
    ensures j in Unfinished(s) && DepsDone(s, j)
  {
    var some :| some in Unfinished(s);
    if forall k :: k in Unfinished(s) ==> !DepsDone(s, k) {
      AllWaitingIsDoomed(s);
    }
    j :| j in Unfinished(s) && DepsDone(s, j);
  }

  lemma DoomFollowsBack(s: State, s': State, j: Name, k: Name)
    requires Inv(s') && OnlyJobChanged(s, s', j) && Done(s', j) && Doomed(s', k)
    ensures Doomed(s, k)
  {
    var doom :| k in doom && DoomedSet(s', doom);
    if j in doom {
      DoomedNotDone(s', doom, j);
    }
    forall i | i in doom ensures DoomedBy(s, i, doom) {
      assert DoomedBy(s', i, doom);
    }
    assert DoomedSet(s, doom);
  }

  lemma SameDoom(s: State, es: seq<Event>, j: Name, k: Name)
    requires Inv(s) && Undisturbed(es) && OnlyJobChanged(s, Exec(s, es), j) && Done(Exec(s, es), j)
    ensures Doomed(s, k) <==> Doomed(Exec(s, es), k)
  {
    RunInv(s, es);
    if Doomed(s, k) {
      var doom :| k in doom && DoomedSet(s, doom);
      DoomStaysRun(s, es, doom);
    }
    if Doomed(Exec(s, es), k) {
      DoomFollowsBack(s, Exec(s, es), j, k);
    }
  }

  lemma FewerUnfinished(s: State, es: seq<Event>, j: Name)
    requires Inv(s) && Undisturbed(es) && OnlyJobChanged(s, Exec(s, es), j) && Done(Exec(s, es), j)
    requires j in Unfinished(s)
    ensures Unfinished(Exec(s, es)) == Unfinished(s) - {j}
    ensures forall k :: Doomed(s, k) <==> Doomed(Exec(s, es), k)
  {
    var s' := Exec(s, es);
    forall k ensures Doomed(s, k) <==> Doomed(s', k) {
      SameDoom(s, es, j, k);
    }
    UnfinishedShrinks(s, s', j);
  }

  lemma UnfinishedShrinks(s: State, s': State, j: Name)
    requires OnlyJobChanged(s, s', j) && Done(s', j)
    requires forall k :: Doomed(s, k) <==> Doomed(s', k)
    ensures Unfinished(s') == Unfinished(s) - {j}
  {
    assert forall k :: k in s.jobs && k != j ==> (Done(s', k) <==> Done(s, k));
  }

  /** One run completes every job that is not doomed. */
  lemma {:induction false} AllUndoomedComplete(s: State) returns (es: seq<Event>)
    requires Inv(s)
    ensures Undisturbed(es)
    ensures forall j :: j in s.jobs && !Doomed(s, j) ==> Done(Exec(s, es), j)
    decreases Unfinished(s)
  {
    if Unfinished(s) == {} {
      es := [];
      assert forall j :: j in s.jobs && !Doomed(s, j) && !Done(s, j) ==> j in Unfinished(s);
    } else {
      var j := SomeJobReady(s);
      assert !Hopeless(s.jobs[j]) by {
        if Hopeless(s.jobs[j]) { assert DoomedSet(s, {j}); }
      }
      es := ReadyCompletes(s, j);
      var s' := Exec(s, es);
      RunInv(s, es);
      FewerUnfinished(s, es, j);
      var rest := AllUndoomedComplete(s');
      ExecJoin(s, es, rest);
      es := es + rest;
    }
  }

  /** In every reachable state, a job can still complete if and only if it is not doomed. */
  lemma CanCompleteIffNotDoomed(es: seq<Event>, j: Name)
    requires j in Exec(INIT, es).jobs
    ensures CanComplete(Exec(INIT, es), j) <==> !Doomed(Exec(INIT, es), j)
  {
    var s := Exec(INIT, es);
    InitInv();
    RunInv(INIT, es);
    if Doomed(s, j) {
      var doom :| j in doom && DoomedSet(s, doom);
      forall later | Undisturbed(later) ensures !Done(Exec(s, later), j) {
        RunInv(s, later);
        DoomStaysRun(s, later, doom);
        DoomedNotDone(Exec(s, later), doom, j);
      }
    } else {
      var later := AllUndoomedComplete(s);
      assert Done(Exec(s, later), j);
    }
  }

  /** Progress: without dependency cycles, missing dependencies and hopeless jobs, some run
      completes every job. */
  lemma AcyclicJobsAllComplete(es: seq<Event>) returns (later: seq<Event>)
    requires var s := Exec(INIT, es);
             && !Cyclic(DependencyGraph(s))
             && (forall j :: j in s.jobs ==> !Hopeless(s.jobs[j]))
             && (forall j, d :: Edge(DependencyGraph(s), j, d) ==> d in s.jobs)
    ensures Undisturbed(later)
    ensures forall j :: j in Exec(INIT, es).jobs ==> Done(Exec(INIT, es + later), j)
  {
    var s := Exec(INIT, es);
    InitInv();
    RunInv(INIT, es);
    forall j | j in s.jobs ensures !Doomed(s, j) {
      if Doomed(s, j) {
        var doom :| j in doom && DoomedSet(s, doom);
        forall k | k in doom ensures DependsWithin(DependencyGraph(s), k, doom) {
          assert DoomedBy(s, k, doom);
          var d :| d in s.jobs[k].spec.dependsOn && (d !in s.jobs || d in doom);
          assert Edge(DependencyGraph(s), k, d);
        }
        NoSinkLeadsToCycle(DependencyGraph(s), doom, j);
      }
    }
    later := AllUndoomedComplete(s);
    ExecJoin(INIT, es, later);
  }
}
