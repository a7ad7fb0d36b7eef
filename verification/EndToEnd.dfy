/**
 The executor reporting to the run store: what status a run ends with once every
 interleaved report has been applied, and for which runs that status is right.
 */
module EndToEnd {
  import opened Wrappers
  import opened Graph
  import opened Pipelines
  import opened Executor
  import opened ExecutorInvariant
  import T = ExecutorTheorems
  import opened Runs
  import opened RunTheorems

  /** The run after the given reports have reached the store one by one. */
  function Deliver(run: Run, reports: seq<Report>): Run {
    if reports == [] then run
    else WithReport(Deliver(run, reports[..|reports| - 1]), reports[|reports| - 1])
  }

  /** A queued run whose steps are distinct and all pending: a fresh submission or retry. */
  ghost predicate Untouched(run: Run) {
    run.status == RunQueued && run.progress == 0 && |run.steps| > 0 && DistinctNames(run.steps) && AllPending(run.steps)
  }

  ghost function StepNames(run: Run): set<Name> {
    set i | 0 <= i < |run.steps| :: run.steps[i].name
  }

  /** Each report of the executor is one accepted call of the store's report operation. */
  lemma DeliveredByStore(db: Db, i: nat, r: Report)
    requires DbOk(db) && i < |db.runs| && r.step != ""
    ensures Effect(db, OpReport(db.runs[i].id, r.step, StatusText(r.status), r.message))
         == db.(runs := db.runs[i := WithReport(db.runs[i], r)])
  {
    assert Find(db.runs, db.runs[i].id) == i;
    assert ParseStatus(StatusText(r.status)) == Some(r.status);
    hide WithReport, RunOk, Accepted;
  }

  // ----- What a state has told the store -----

  function Told(s: State, n: Name): StepStatus {
    if n !in s.workers then Pending
    else match s.workers[n].phase
         case Launched => Pending
         case Finished(_) => Succeeded
         case Reported(_) => Failed
         case Aborted(_) => Failed
         case _ => Running
  }

  ghost predicate ToldFailure(s: State) {
    exists n :: Told(s, n).Failed?
  }

  /** The steps are those the run started with plus those reported, each with its last report. */
  ghost predicate Mirrors(s: State, names: set<Name>, steps: seq<Step>) {
    && DistinctNames(steps)
    && (forall i :: 0 <= i < |steps| ==> steps[i].status == Told(s, steps[i].name))
    && (forall i :: 0 <= i < |steps| ==> steps[i].name in names || !Told(s, steps[i].name).Pending?)
    && (forall n :: n in names || !Told(s, n).Pending? ==> Named(steps, n))
  }

  /** A step sends at most one report, which is what the state then tells about that job. */
  lemma StepTells(p: Plan, s: State, a: Action) returns (sent: Option<Report>)
    requires Enabled(p, s, a) && !Apply(p, s, a).control.Stuck?
    requires a.Launch? ==> a.job !in s.workers
    requires a.Advance? ==> p.jobs[a.job].name == a.job
    ensures var t := Apply(p, s, a);
            match sent
            case None => t.reports == s.reports && forall k :: Told(t, k) == Told(s, k)
            case Some(r) =>
              && t.reports == s.reports + [r]
              && r.status == Told(t, r.step) && !r.status.Pending?
              && a == Advance(r.step)
              && forall k :: k != r.step ==> Told(t, k) == Told(s, k)
  {
    sent := None;
    if a.Advance? {
      var reports := NextReports(p.jobs[a.job], s.workers[a.job].phase);
      if reports == [] {
        assert s.reports + reports == s.reports;
      } else {
        sent := Some(reports[0]);
      }
    }
  }

  /** Applying a report to mirrored steps mirrors the state that sent it. */
  lemma MirrorStep(s: State, t: State, names: set<Name>, steps: seq<Step>, r: Report)
    requires Mirrors(s, names, steps)
    requires r.status == Told(t, r.step) && !r.status.Pending?
    requires forall k :: k != r.step ==> Told(t, k) == Told(s, k)
    ensures Mirrors(t, names, Upsert(steps, r.step, r.status))
  {
    var k := UpsertShape(steps, r.step, r.status);
    var next := Upsert(steps, r.step, r.status);
    hide Upsert, Told;
    assert next[k].name == r.step && next[k].status == r.status;
    assert forall i :: 0 <= i < |steps| ==> next[i].name == steps[i].name;
    assert forall i :: 0 <= i < |next| && i != k ==> i < |steps| && next[i] == steps[i];
    assert DistinctNames(next);
    MirrorNames(s, t, names, steps, next, k, r);
    MirrorStatuses(s, t, names, steps, next, k, r);
    hide DistinctNames, Named, NewStep, WithStatus;
  }

  /** Every step but the reported one is untouched, and so is what the state tells about it. */
  lemma MirrorStatuses(s: State, t: State, names: set<Name>, steps: seq<Step>, next: seq<Step>, k: nat, r: Report)
    requires Mirrors(s, names, steps) && DistinctNames(next)
    requires r.status == Told(t, r.step) && !r.status.Pending?
    requires forall n :: n != r.step ==> Told(t, n) == Told(s, n)
    requires k < |next| && next[k].name == r.step && next[k].status == r.status
    requires forall i :: 0 <= i < |next| && i != k ==> i < |steps| && next[i] == steps[i]
    ensures forall i :: 0 <= i < |next| ==> next[i].status == Told(t, next[i].name)
    ensures forall i :: 0 <= i < |next| ==> next[i].name in names || !Told(t, next[i].name).Pending?
  {
    hide Told, Named;
    forall i | 0 <= i < |next|
      ensures next[i].status == Told(t, next[i].name)
      ensures next[i].name in names || !Told(t, next[i].name).Pending?
    {
      if i != k {
        assert next[i].name != r.step;
        assert next[i] == steps[i];
      }
    }
  }

  lemma MirrorNames(s: State, t: State, names: set<Name>, steps: seq<Step>, next: seq<Step>, k: nat, r: Report)
    requires forall n :: n in names || !Told(s, n).Pending? ==> Named(steps, n)
    requires forall n :: n != r.step ==> Told(t, n) == Told(s, n)
    requires k < |next| && |steps| <= |next| && next[k].name == r.step
    requires forall i :: 0 <= i < |steps| ==> next[i].name == steps[i].name
    ensures forall n :: n in names || !Told(t, n).Pending? ==> Named(next, n)
  {
    hide Told;
    forall n | n in names || !Told(t, n).Pending?
      ensures Named(next, n)
    {
      if n == r.step {
        assert next[k].name == n;
      } else {
        var i :| 0 <= i < |steps| && steps[i].name == n;
        assert next[i].name == n;
      }
    }
  }

  /** The run as the store holds it when the executor is in state `s`. */
  ghost function RunAt(run: Run, s: State): Run {
    Deliver(run, s.reports)
  }

  /** How one executor step shows in the store. */
  lemma RunStep(p: Plan, s: State, a: Action, run: Run) returns (sent: Option<Report>)
    requires Enabled(p, s, a) && !Apply(p, s, a).control.Stuck?
    requires a.Launch? ==> a.job !in s.workers
    requires a.Advance? ==> p.jobs[a.job].name == a.job
    requires RunOk(RunAt(run, s))
    ensures var t := Apply(p, s, a);
            && RunOk(RunAt(run, t))
            && (sent.None? ==> RunAt(run, t) == RunAt(run, s) && forall k :: Told(t, k) == Told(s, k))
            && (sent.Some? ==>
                  && a == Advance(sent.value.step)
                  && RunAt(run, t) == WithReport(RunAt(run, s), sent.value)
                  && sent.value.status == Told(t, sent.value.step) && !sent.value.status.Pending?
                  && forall k :: k != sent.value.step ==> Told(t, k) == Told(s, k))
  {
    sent := StepTells(p, s, a);
    var t := Apply(p, s, a);
    hide Apply, Enabled, RunOk, Told;
    if sent.Some? {
      assert t.reports[..|t.reports| - 1] == s.reports;
      ReportedOk(RunAt(run, s), sent.value);
    }
  }

  /** While the run is live its steps mirror the executor; RunOk then fixes its status. */
  ghost predicate Tracks(names: set<Name>, s: State, run: Run) {
    RunOk(run) && !run.status.RunCancelled? && (!IsTerminal(run.status) ==> Mirrors(s, names, run.steps))
  }

  /** A report to a live run keeps mirroring; one to an ended run changes nothing that counts. */
  lemma ReportTracks(s: State, t: State, names: set<Name>, run: Run, r: Report)
    requires Tracks(names, s, run)
    requires r.status == Told(t, r.step) && !r.status.Pending?
    requires forall k :: k != r.step ==> Told(t, k) == Told(s, k)
    ensures Tracks(names, t, WithReport(run, r))
    ensures IsTerminal(run.status) ==> WithReport(run, r).status == run.status
    ensures !IsTerminal(run.status) ==> Mirrors(t, names, WithReport(run, r).steps)
  {
    ReportedOk(run, r);
    if !IsTerminal(run.status) {
      MirrorStep(s, t, names, run.steps, r);
    }
    hide Mirrors, Upsert, Tally, RunOk, Told;
  }

  /** What the store shows after a step, given what it showed before. */
  ghost predicate Follows(names: set<Name>, t: State, before: Run, after: Run) {
    && Tracks(names, t, after)
    && (IsTerminal(before.status) ==> after.status == before.status)
    && (!IsTerminal(before.status) ==> Mirrors(t, names, after.steps))
  }

  lemma TracksStep(p: Plan, s: State, a: Action, run: Run, names: set<Name>)
    requires Enabled(p, s, a) && !Apply(p, s, a).control.Stuck?
    requires a.Launch? ==> a.job !in s.workers
    requires a.Advance? ==> p.jobs[a.job].name == a.job
    requires Tracks(names, s, RunAt(run, s))
    ensures Follows(names, Apply(p, s, a), RunAt(run, s), RunAt(run, Apply(p, s, a)))
    ensures forall k :: a != Advance(k) ==> Told(Apply(p, s, a), k) == Told(s, k)
  {
    var sent := RunStep(p, s, a, run);
    var t := Apply(p, s, a);
    hide Apply, Enabled, RunOk, Told, RunAt;
    if sent.Some? {
      ReportTracks(s, t, names, RunAt(run, s), sent.value);
      hide *;
    }
  }

  lemma UntouchedTracks(p: Plan, run: Run)
    requires Untouched(run)
    ensures Tracks(StepNames(run), Init(p), RunAt(run, Init(p)))
  {
    FreshStepsOk(run);
    var names := StepNames(run);
    assert forall i :: 0 <= i < |run.steps| ==> run.steps[i].name in names;
    assert forall n :: n in names ==> Named(run.steps, n);
  }

  // ----- Runs whose status turns out right -----

  /**
   Every step is a job, and for every job that is not a step there is some step at a greater
   depth, so that the barrier between their waves holds the run open until that job has ended.
   */
  ghost predicate Covers(level: map<Name, nat>, names: set<Name>) {
    && (forall n :: n in names ==> n in level)
    && (forall b :: b in level && b !in names ==> exists n :: n in names && n in level && level[b] < level[n])
  }

  ghost predicate AllJobsFinished(level: map<Name, nat>, s: State) {
    forall n :: n in level ==> n in s.workers && s.workers[n].phase.Finished?
  }

  /** The run has failed exactly when a failure was told, and succeeded only if all jobs have. */
  ghost predicate Right(level: map<Name, nat>, s: State, run: Run) {
    && (run.status.RunFailed? <==> ToldFailure(s))
    && (run.status.RunSucceeded? ==> AllJobsFinished(level, s))
  }

  /** When mirrored steps are all finished, a covered plan has no job left. */
  lemma NothingLeft(level: map<Name, nat>, names: set<Name>, s: State, steps: seq<Step>)
    requires Layout(level, s) && Covers(level, names)
    requires Mirrors(s, names, steps) && AllFinished(steps)
    ensures AllJobsFinished(level, s)
  {
    forall b | b in level
      ensures b in s.workers && s.workers[b].phase.Finished?
    {
      if b !in names {
        var n :| n in names && n in level && level[b] < level[n];
        StepTold(names, s, steps, n);
        assert level[b] < s.wave;
      } else {
        StepTold(names, s, steps, b);
      }
    }
  }

  lemma StepTold(names: set<Name>, s: State, steps: seq<Step>, n: Name)
    requires Mirrors(s, names, steps) && AllFinished(steps) && n in names
    ensures n in s.workers && s.workers[n].phase.Finished?
  {
    assert Named(steps, n);
    var i :| 0 <= i < |steps| && steps[i].name == n;
    assert IsFinished(steps[i].status) && steps[i].status == Told(s, n);
  }

  /** Mirrored steps contain a failed one exactly when a failure was told. */
  lemma FailureMirrored(s: State, names: set<Name>, steps: seq<Step>)
    requires Mirrors(s, names, steps)
    ensures SomeFailed(steps) <==> ToldFailure(s)
  {
    if n :| Told(s, n).Failed? {
      assert Named(steps, n);
      var i :| 0 <= i < |steps| && steps[i].name == n;
      assert steps[i].status.Failed?;
    }
    if i :| 0 <= i < |steps| && steps[i].status.Failed? {
      assert Told(s, steps[i].name).Failed?;
    }
  }

  /** A job that reported failure has used up its attempts, and stays that way. */
  lemma FailureStays(p: Plan, s: State, a: Action)
    requires Enabled(p, s, a) && (a.Launch? ==> a.job !in s.workers)
    requires ToldFailure(s)
    ensures ToldFailure(Apply(p, s, a))
  {
    var n :| Told(s, n).Failed?;
    hide ReadInputs, NextReports, AfterCall;
    assert Told(Apply(p, s, a), n).Failed?;
  }

  lemma FinishedStays(p: Plan, level: map<Name, nat>, s: State, a: Action)
    requires Enabled(p, s, a) && (a.Launch? ==> a.job in level && a.job !in s.workers)
    requires AllJobsFinished(level, s)
    ensures AllJobsFinished(level, Apply(p, s, a))
  {
  }

  lemma RightStep(p: Plan, level: map<Name, nat>, names: set<Name>, s: State, a: Action, before: Run, after: Run)
    requires Enabled(p, s, a) && (a.Launch? ==> a.job in level && a.job !in s.workers)
    requires Layout(level, Apply(p, s, a)) && Covers(level, names)
    requires Tracks(names, s, before) && Right(level, s, before)
    requires Follows(names, Apply(p, s, a), before, after)
    ensures Right(level, Apply(p, s, a), after)
  {
    var t := Apply(p, s, a);
    if IsTerminal(before.status) {
      if before.status.RunFailed? {
        FailureStays(p, s, a);
      } else {
        FinishedStays(p, level, s, a);
        AllFinishedTold(level, t);
      }
    } else {
      FailureMirrored(t, names, after.steps);
      if after.status.RunSucceeded? {
        NothingLeft(level, names, t, after.steps);
      }
    }
  }

  lemma AllFinishedTold(level: map<Name, nat>, s: State)
    requires Layout(level, s) && AllJobsFinished(level, s)
    ensures !ToldFailure(s)
  {
  }

  /** Reports never arrive from a job that is not in the plan. */
  lemma StepSane(p: Plan, m: Meaning, s: State, a: Action)
    requires Enabled(p, s, a) && Descending(p, m.level) && Inv(p, m, s) && Inv(p, m, Apply(p, s, a))
    ensures !Apply(p, s, a).control.Stuck?
    ensures a.Launch? ==> a.job in m.level && a.job !in s.workers
  {
    NotStuck(p, m, Apply(p, s, a));
    T.LaunchIsNew(p, m, s, a);
    hide Enabled, Apply, Inv;
  }

  lemma NotStuck(p: Plan, m: Meaning, s: State)
    requires Inv(p, m, s)
    ensures !s.control.Stuck?
  {
  }

  /** Along every interleaving the store tracks the executor. */
  lemma {:induction false} RunTracks(p: Plan, acts: seq<Action>, run: Run)
    requires ValidPlan(p) && Admissible(p, acts) && Untouched(run)
    ensures Tracks(StepNames(run), After(p, acts), RunAt(run, After(p, acts)))
    decreases |acts|
  {
    if acts == [] {
      UntouchedTracks(p, run);
    } else {
      var prefix, a := acts[..|acts| - 1], acts[|acts| - 1];
      var s := After(p, prefix);
      RunTracks(p, prefix, run);
      RunPreserves(p, prefix);
      RunPreserves(p, acts);
      StepSane(p, MeaningOf(p), s, a);
      TracksStep(p, s, a, run, StepNames(run));
      hide *;
    }
  }

  /** Along every interleaving of a covered plan the run's status is right. */
  lemma {:induction false} RunRight(p: Plan, acts: seq<Action>, run: Run)
    requires ValidPlan(p) && Admissible(p, acts) && Untouched(run)
    requires Covers(Levels(p), StepNames(run))
    ensures Right(Levels(p), After(p, acts), RunAt(run, After(p, acts)))
    decreases |acts|
  {
    if acts != [] {
      var prefix, a := acts[..|acts| - 1], acts[|acts| - 1];
      var s, names := After(p, prefix), StepNames(run);
      RunRight(p, prefix, run);
      RunTracks(p, prefix, run);
      RunPreserves(p, prefix);
      RunPreserves(p, acts);
      StepSane(p, MeaningOf(p), s, a);
      TracksStep(p, s, a, run, names);
      hide Levels, Covers, Right, Tracks, Follows, Layout, Records, Histories, Enabled, Apply;
      RightStep(p, Levels(p), names, s, a, RunAt(run, s), RunAt(run, After(p, acts)));
    } else {
      assert forall n :: Told(Init(p), n).Pending?;
    }
  }

  /** A finished execution of a covered plan leaves a run whose steps have all finished. */
  lemma SucceededAtEnd(level: map<Name, nat>, names: set<Name>, s: State, run: Run)
    requires Layout(level, s) && s.control.Returned? && !s.failed
    requires Covers(level, names) && Tracks(names, s, run) && Right(level, s, run)
    ensures run.status.RunSucceeded? && run.progress == 100
  {
    assert AllJobsFinished(level, s);
    AllFinishedTold(level, s);
    if !IsTerminal(run.status) {
      AllStepsFinished(level, names, s, run.steps);
    }
  }

  lemma AllStepsFinished(level: map<Name, nat>, names: set<Name>, s: State, steps: seq<Step>)
    requires AllJobsFinished(level, s) && Covers(level, names) && Mirrors(s, names, steps)
    requires forall n :: n in s.workers ==> n in level
    ensures AllFinished(steps)
  {
    forall i | 0 <= i < |steps|
      ensures IsFinished(steps[i].status)
    {
      assert steps[i].status == Told(s, steps[i].name);
    }
  }

  /** The run shows the status its jobs earned: succeeded at 100 percent exactly when every job succeeds. */
  ghost predicate ShowsEarned(p: Plan, run: Run)
    requires ValidPlan(p)
  {
    if T.AllSucceed(MeaningOf(p)) then run.status == RunSucceeded && run.progress == 100
    else run.status == RunFailed && run.progress < 100
  }

  /**
   Whatever the interleaving, a run that covers its plan ends succeeded at 100 percent exactly
   when every job succeeds, and ends failed otherwise.
   */
  lemma FinalStatus(p: Plan, acts: seq<Action>, run: Run)
    requires ValidPlan(p) && Admissible(p, acts) && Untouched(run)
    requires Covers(Levels(p), StepNames(run)) && After(p, acts).control.Returned?
    ensures ShowsEarned(p, RunAt(run, After(p, acts)))
  {
    var s := After(p, acts);
    RunPreserves(p, acts);
    RunTracks(p, acts, run);
    RunRight(p, acts, run);
    T.ResultIsDetermined(p, acts);
    EndStatus(Levels(p), StepNames(run), s, RunAt(run, s));
    hide Covers, Tracks, Right, Layout, Records, Untouched, Inv, Admissible, After, RunAt, Levels, Histories;
  }

  lemma EndStatus(level: map<Name, nat>, names: set<Name>, s: State, run: Run)
    requires Layout(level, s) && Records(s) && s.control.Returned?
    requires Covers(level, names) && Tracks(names, s, run) && Right(level, s, run)
    ensures if s.failed then run.status == RunFailed && run.progress < 100
            else run.status == RunSucceeded && run.progress == 100
  {
    if s.failed {
      hide Covers, Mirrors, Layout;
      var n :| n in s.workers && s.workers[n].phase.Aborted?;
      assert Told(s, n).Failed?;
      FailedBelow100(run);
    } else {
      hide Records, Mirrors;
      SucceededAtEnd(level, names, s, run);
    }
  }

  lemma FailedBelow100(run: Run)
    requires RunOk(run) && run.status.RunFailed?
    ensures run.progress < 100
  {
    hide IsFloorOfShare, StepsOk;
  }

  // ----- Runs whose status turns out wrong -----

  /** A step that is no job of the plan is never reported, so the run never succeeds. */
  lemma {:induction false} StrayStepNeverSucceeds(p: Plan, acts: seq<Action>, run: Run, x: Name)
    requires ValidPlan(p) && Admissible(p, acts) && Untouched(run)
    requires x in StepNames(run) && x !in p.jobs
    ensures !RunAt(run, After(p, acts)).status.RunSucceeded?
    decreases |acts|
  {
    if acts != [] {
      var prefix, a := acts[..|acts| - 1], acts[|acts| - 1];
      var s, names := After(p, prefix), StepNames(run);
      StrayStepNeverSucceeds(p, prefix, run, x);
      RunTracks(p, prefix, run);
      RunPreserves(p, prefix);
      RunPreserves(p, acts);
      StepSane(p, MeaningOf(p), s, a);
      TracksStep(p, s, a, run, names);
      StrayPending(p, MeaningOf(p), After(p, acts), x);
      hide *;
      StrayUnfinished(names, After(p, acts), RunAt(run, s), RunAt(run, After(p, acts)), x);
    }
  }

  lemma StrayPending(p: Plan, m: Meaning, s: State, x: Name)
    requires Descending(p, m.level) && Inv(p, m, s) && x !in p.jobs
    ensures Told(s, x).Pending?
  {
  }

  lemma StrayUnfinished(names: set<Name>, t: State, before: Run, after: Run, x: Name)
    requires Follows(names, t, before, after) && x in names && Told(t, x).Pending?
    requires !before.status.RunSucceeded?
    ensures !after.status.RunSucceeded?
  {
    if !IsTerminal(before.status) {
      assert Named(after.steps, x);
      var i :| 0 <= i < |after.steps| && after.steps[i].name == x;
      assert !IsFinished(after.steps[i].status);
    }
  }

  /** Every interleaving can be carried on until the executor returns. */
  lemma Complete(p: Plan, acts: seq<Action>) returns (whole: seq<Action>)
    requires ValidPlan(p) && Admissible(p, acts)
    ensures acts <= whole && Admissible(p, whole) && After(p, whole).control.Returned?
    decreases T.Work(p, After(p, acts))
  {
    RunPreserves(p, acts);
    var s := After(p, acts);
    if s.control.Returned? {
      whole := acts;
    } else {
      var a := T.StepExists(p, MeaningOf(p), s);
      T.LaunchIsNew(p, MeaningOf(p), s, a);
      T.StepWorks(p, s, a);
      T.Extend(p, acts, a);
      var longer := acts + [a];
      hide Inv, Levels, Enabled, Apply, Admissible, After;
      whole := Complete(p, longer);
    }
  }

  /** Later reports cannot change the status of an ended run. */
  lemma {:induction false} DeliveredFrozen(run: Run, first: seq<Report>, all: seq<Report>)
    requires first <= all && IsTerminal(Deliver(run, first).status)
    ensures Deliver(run, all).status == Deliver(run, first).status
    decreases |all|
  {
    if |first| < |all| {
      DeliveredFrozen(run, first, all[..|all| - 1]);
    } else {
      assert first == all;
    }
  }

  lemma EndedStaysEnded(p: Plan, acts: seq<Action>, whole: seq<Action>, run: Run)
    requires ValidPlan(p) && Admissible(p, whole) && acts <= whole
    requires Admissible(p, acts) && IsTerminal(RunAt(run, After(p, acts)).status)
    ensures RunAt(run, After(p, whole)).status == RunAt(run, After(p, acts)).status
  {
    T.RunGrows(p, whole, |acts|);
    assert whole[..|acts|] == acts;
    DeliveredFrozen(run, After(p, acts).reports, After(p, whole).reports);
  }

  /** All functions answer, except those of job `b`, which always fail. */
  ghost predicate OnlyFails(p: Plan, b: Name) {
    forall n, payload, k :: p.invoke(n, payload, k).Error? <==> n == b
  }

  lemma {:induction false} FailsAlways(p: Plan, b: Name, payload: Payload, k: nat)
    requires OnlyFails(p, b) && b in p.jobs && k <= p.jobs[b].retries
    ensures Attempts(p, b, payload, k).Lost?
    decreases p.jobs[b].retries - k
  {
    assert p.invoke(b, payload, k).Error?;
    if k < p.jobs[b].retries {
      FailsAlways(p, b, payload, k + 1);
    }
  }

  lemma OthersAnswer(p: Plan, b: Name, outcome: map<Name, Outcome>, n: Name)
    requires OnlyFails(p, b) && SolvedAt(p, outcome, n)
    ensures n != b ==> !outcome[n].Lost?
    ensures n == b ==> !outcome[n].Done?
  {
    if AllDone(p.jobs[n], outcome) {
      var payload := Inputs(p.jobs[n], outcome);
      assert p.invoke(n, payload, 0).Error? <==> n == b;
      if n == b {
        FailsAlways(p, b, payload, 0);
      }
    }
  }

  /** No launched job other than `b` can have given up. */
  lemma NoOtherFailure(p: Plan, m: Meaning, s: State, b: Name)
    requires OnlyFails(p, b) && Inv(p, m, s) && b !in s.workers
    requires forall n :: n in p.jobs ==> SolvedAt(p, m.outcome, n)
    ensures forall n :: n in s.workers ==> !s.workers[n].phase.HasError()
  {
    forall n | n in s.workers
      ensures !s.workers[n].phase.HasError()
    {
      assert History(p, m.outcome, n, s.workers[n].phase, s.workers[n].replies);
      OthersAnswer(p, b, m.outcome, n);
    }
  }

  ghost predicate OnlyLaunches(p: Plan, s: State, b: Name) {
    forall a :: Enabled(p, s, a) ==> a == Launch(b)
  }

  lemma OtherStep(p: Plan, s: State, b: Name) returns (a: Action)
    requires !OnlyLaunches(p, s, b) && b !in s.workers
    ensures Enabled(p, s, a) && b !in Apply(p, s, a).workers
  {
    a :| Enabled(p, s, a) && a != Launch(b);
  }

  /** With nothing to do but launch `b`, everything else of its wave and below has finished. */
  lemma OnlyBLeft(p: Plan, m: Meaning, s: State, b: Name)
    requires Descending(p, m.level) && Inv(p, m, s) && b in p.jobs && b !in s.workers
    requires forall n :: n in s.workers ==> !s.workers[n].phase.HasError()
    requires OnlyLaunches(p, s, b)
    ensures m.level[b] == s.wave
    ensures forall n :: n in m.level && m.level[n] <= s.wave && n != b ==> n in s.workers && s.workers[n].phase.Finished?
  {
    hide Histories;
    assert b in s.remaining && s.remaining <= p.jobs.Keys;
    AllOver(p, s, b);
    StillSpawning(p, m.level, s, b);
    ReadyIsB(p, s, b);
    hide Enabled, OnlyLaunches, Records, Descending;
  }

  lemma StillSpawning(p: Plan, level: map<Name, nat>, s: State, b: Name)
    requires Layout(level, s) && Records(s) && OnlyLaunches(p, s, b) && s.remaining <= p.jobs.Keys && b in s.remaining
    requires forall n :: n in s.workers ==> s.workers[n].phase.Over() && !s.workers[n].phase.HasError()
    ensures s.control.Spawning? && s.control.ready != {}
  {
    assert !Enabled(p, s, PlanWave) && !Enabled(p, s, Barrier);
    assert !s.failed;
  }

  lemma AllOver(p: Plan, s: State, b: Name)
    requires OnlyLaunches(p, s, b) && s.remaining <= p.jobs.Keys && forall n :: n in s.workers ==> n in p.jobs
    ensures forall n :: n in s.workers ==> s.workers[n].phase.Over()
  {
    forall n | n in s.workers
      ensures s.workers[n].phase.Over()
    {
      assert !Enabled(p, s, Advance(n));
    }
  }

  lemma ReadyIsB(p: Plan, s: State, b: Name)
    requires OnlyLaunches(p, s, b) && s.remaining <= p.jobs.Keys && s.control.Spawning?
    ensures forall n :: n in s.control.ready ==> n == b
  {
    forall n | n in s.control.ready
      ensures n == b
    {
      assert Enabled(p, s, Launch(n));
    }
  }

  /** Runs everything it can without ever launching `b`. */
  lemma RunAround(p: Plan, acts: seq<Action>, b: Name) returns (whole: seq<Action>)
    requires ValidPlan(p) && Admissible(p, acts) && b !in After(p, acts).workers
    ensures Admissible(p, whole) && b !in After(p, whole).workers
    ensures OnlyLaunches(p, After(p, whole), b)
    decreases T.Work(p, After(p, acts))
  {
    RunPreserves(p, acts);
    var s := After(p, acts);
    if !OnlyLaunches(p, s, b) {
      var a := OtherStep(p, s, b);
      T.LaunchIsNew(p, MeaningOf(p), s, a);
      T.StepWorks(p, s, a);
      T.Extend(p, acts, a);
      var longer := acts + [a];
      hide Inv, Levels, Enabled, Apply, OnlyLaunches, Admissible, After;
      whole := RunAround(p, longer, b);
    } else {
      whole := acts;
    }
  }

  /** If no step is at a greater depth than `b`, the run is declared a success before `b` starts. */
  lemma DeclaredTooEarly(level: map<Name, nat>, names: set<Name>, s: State, run: Run, b: Name)
    requires Tracks(names, s, run)
    requires b in level && b !in names && b !in s.workers
    requires forall n :: n in names ==> n in level && level[n] <= level[b]
    requires level[b] == s.wave
    requires forall n :: n in level && level[n] <= s.wave && n != b ==> n in s.workers && s.workers[n].phase.Finished?
    requires forall n :: n in s.workers ==> n in level && level[n] <= s.wave
    ensures IsTerminal(run.status)
  {
    if !IsTerminal(run.status) {
      forall i | 0 <= i < |run.steps|
        ensures IsFinished(run.steps[i].status)
      {
        var n := run.steps[i].name;
        assert run.steps[i].status == Told(s, n);
        assert n in names || n in s.workers;
      }
      assert AllFinished(run.steps);
    }
  }

  /** The run has not failed as long as no job has. */
  lemma {:induction false} NotFailedBefore(p: Plan, acts: seq<Action>, run: Run)
    requires ValidPlan(p) && Admissible(p, acts) && Untouched(run)
    requires RunAt(run, After(p, acts)).status.RunFailed?
    ensures exists n :: n in After(p, acts).workers && After(p, acts).workers[n].phase.HasError()
    decreases |acts|
  {
    if acts != [] {
      var prefix, a := acts[..|acts| - 1], acts[|acts| - 1];
      var s, t, names := After(p, prefix), After(p, acts), StepNames(run);
      RunTracks(p, prefix, run);
      RunPreserves(p, prefix);
      RunPreserves(p, acts);
      StepSane(p, MeaningOf(p), s, a);
      TracksStep(p, s, a, run, names);
      T.StepGrows(p, s, a);
      if RunAt(run, s).status.RunFailed? {
        NotFailedBefore(p, prefix, run);
        hide *;
        var n :| n in s.workers && s.workers[n].phase.HasError();
        FailureGrows(s, t, n);
      } else {
        hide *;
        FailureShown(names, t, RunAt(run, s), RunAt(run, t));
      }
    }
  }

  lemma FailureGrows(s: State, t: State, n: Name)
    requires T.Grows(s, t) && n in s.workers && s.workers[n].phase.HasError()
    ensures n in t.workers && t.workers[n].phase.HasError()
  {
  }

  lemma FailureShown(names: set<Name>, t: State, before: Run, after: Run)
    requires Follows(names, t, before, after) && after.status.RunFailed? && !before.status.RunFailed?
    ensures exists n :: n in t.workers && t.workers[n].phase.HasError()
  {
    FailureMirrored(t, names, after.steps);
    var n :| Told(t, n).Failed?;
  }

  lemma SameLevels(p: Plan, q: Plan)
    requires ValidPlan(p) && q.names == p.names && q.jobs == p.jobs
    ensures ValidPlan(q) && Levels(q) == Levels(p)
  {
    assert JobGraph(q) == JobGraph(p);
  }

  /** With a job `b` and no step at a greater depth, failing `b` goes unnoticed. */
  lemma LateFailureLost(p: Plan, run: Run, b: Name) returns (acts: seq<Action>)
    requires ValidPlan(p) && Untouched(run) && OnlyFails(p, b)
    requires b in p.jobs && b !in StepNames(run)
    requires forall n :: n in StepNames(run) ==> n in Levels(p) && Levels(p)[n] <= Levels(p)[b]
    ensures Admissible(p, acts) && After(p, acts).control.Returned?
    ensures RunAt(run, After(p, acts)).status.RunSucceeded? && !T.AllSucceed(MeaningOf(p))
  {
    var m, names := MeaningOf(p), StepNames(run);
    var early := RunAround(p, [], b);
    var s := After(p, early);
    RunPreserves(p, early);
    forall n | n in p.jobs
      ensures SolvedAt(p, m.outcome, n)
    {
      EvalSolves(p, m.level, n);
    }
    NoOtherFailure(p, m, s, b);
    OnlyBLeft(p, m, s, b);
    RunTracks(p, early, run);
    OthersAnswer(p, b, m.outcome, b);
    LaunchedLevels(p, m, s);
    hide Levels, Eval, SolvedAt, Inv, Layout, Records, Histories, OnlyFails, OnlyLaunches, Tracks, Admissible;
    DeclaredTooEarly(m.level, names, s, RunAt(run, s), b);
    if RunAt(run, s).status.RunFailed? {
      NotFailedBefore(p, early, run);
    }
    acts := Complete(p, early);
    EndedStaysEnded(p, early, acts, run);
  }

  lemma LaunchedLevels(p: Plan, m: Meaning, s: State)
    requires Inv(p, m, s)
    ensures forall n :: n in s.workers ==> n in m.level && m.level[n] <= s.wave
  {
  }

  /** With a stray step, even a run in which every job succeeds is not declared a success. */
  lemma StrayStepStays(p: Plan, run: Run, x: Name) returns (acts: seq<Action>)
    requires ValidPlan(p) && Untouched(run) && x in StepNames(run) && x !in p.jobs
    ensures Admissible(p, acts) && After(p, acts).control.Returned?
    ensures !RunAt(run, After(p, acts)).status.RunSucceeded?
  {
    acts := Complete(p, []);
    StrayStepNeverSucceeds(p, acts, run, x);
  }
}
