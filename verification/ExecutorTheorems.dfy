/** What the executor guarantees on every interleaving of every valid plan. */
module ExecutorTheorems {
  import opened Wrappers
  import opened Graph
  import opened Pipelines
  import opened Executor
  import opened ExecutorInvariant

  // ----- Termination -----

  function Tries(job: Job): nat {
    if job.retries < 0 then 0 else job.retries + 1
  }

  /** Steps a goroutine may still take. */
  function PhaseWork(job: Job, phase: Phase): nat {
    match phase
    case Launched => Tries(job) + 6
    case Announced => Tries(job) + 5
    case Calling(_, k) => if k < Tries(job) then Tries(job) - k + 3 else 3
    case Answered(_) => 2
    case Recorded(_) => 1
    case GaveUp(_) => 2
    case Reported(_) => 1
    case _ => 0
  }

  function JobWork(p: Plan, s: State, n: Name): nat {
    if n !in p.jobs then 0
    else if n in s.workers then PhaseWork(p.jobs[n], s.workers[n].phase)
    else Tries(p.jobs[n]) + 9
  }

  function TotalWork(p: Plan, s: State, names: seq<Name>): nat {
    if names == [] then 0 else JobWork(p, s, names[0]) + TotalWork(p, s, names[1..])
  }

  function ControlWork(c: Control): nat {
    match c
    case Planning => 1
    case Spawning(ready) => if ready == {} then 2 else 0
    case _ => 0
  }

  /** A bound on the number of steps left, in any interleaving. */
  function Work(p: Plan, s: State): nat {
    TotalWork(p, s, p.names) + ControlWork(s.control)
  }

  lemma {:induction false} WorkUnchanged(p: Plan, s: State, t: State, names: seq<Name>)
    requires forall k :: k in names ==> JobWork(p, t, k) <= JobWork(p, s, k)
    ensures TotalWork(p, t, names) <= TotalWork(p, s, names)
  {
    if names != [] {
      WorkUnchanged(p, s, t, names[1..]);
    }
  }

  lemma {:induction false} WorkDrops(p: Plan, s: State, t: State, names: seq<Name>, n: Name, by_: nat)
    requires n in names && JobWork(p, t, n) + by_ <= JobWork(p, s, n)
    requires forall k :: k in names ==> JobWork(p, t, k) <= JobWork(p, s, k)
    ensures TotalWork(p, t, names) + by_ <= TotalWork(p, s, names)
  {
    if names[0] == n {
      WorkUnchanged(p, s, t, names[1..]);
    } else {
      WorkDrops(p, s, t, names[1..], n, by_);
    }
  }

  lemma AdvanceWork(p: Plan, s: State, n: Name)
    requires n in p.jobs && n in s.workers && !s.workers[n].phase.Over()
    ensures JobWork(p, ApplyAdvance(p, s, n), n) < JobWork(p, s, n)
  {
  }

  /** Every step uses up work. */
  lemma StepWorks(p: Plan, s: State, a: Action)
    requires (forall n :: n in p.names <==> n in p.jobs) && Enabled(p, s, a)
    requires a.Launch? ==> a.job in p.jobs && a.job !in s.workers
    ensures Work(p, Apply(p, s, a)) < Work(p, s)
  {
    var t := Apply(p, s, a);
    if a.PlanWave? || a.Barrier? {
      WorkUnchanged(p, s, t, p.names);
    } else {
      if a.Advance? {
        AdvanceWork(p, s, a.job);
      }
      hide PhaseWork, NextWorker, NextReports;
      assert forall k :: k != a.job ==> JobWork(p, t, k) == JobWork(p, s, k);
      WorkDrops(p, s, t, p.names, a.job, if a.Launch? then 3 else 1);
    }
  }

  lemma LaunchIsNew(p: Plan, m: Meaning, s: State, a: Action)
    requires Descending(p, m.level) && Inv(p, m, s) && Enabled(p, s, a)
    ensures a.Launch? ==> a.job in p.jobs && a.job !in s.workers
  {
  }

  /** Every interleaving is finite: its length is bounded by the work of the plan. */
  lemma {:induction false} Terminates(p: Plan, run: seq<Action>)
    requires ValidPlan(p) && Admissible(p, run)
    ensures |run| + Work(p, After(p, run)) <= Work(p, Init(p))
    decreases |run|
  {
    if run != [] {
      var prefix := run[..|run| - 1];
      Terminates(p, prefix);
      RunPreserves(p, prefix);
      LaunchIsNew(p, MeaningOf(p), After(p, prefix), run[|run| - 1]);
      StepWorks(p, After(p, prefix), run[|run| - 1]);
    }
  }

  /** Extends an interleaving by one step. */
  lemma Extend(p: Plan, acts: seq<Action>, a: Action)
    requires Admissible(p, acts) && Enabled(p, After(p, acts), a)
    ensures Admissible(p, acts + [a]) && After(p, acts + [a]) == Apply(p, After(p, acts), a)
  {
    var longer := acts + [a];
    assert longer[..|longer| - 1] == acts;
  }

  lemma SomeStep(p: Plan, s: State) returns (a: Action)
    requires s.remaining <= p.jobs.Keys && forall n :: n in s.workers ==> n in p.jobs
    requires s.control.Planning? || s.control.Spawning?
    ensures Enabled(p, s, a)
  {
    if s.control.Planning? {
      a := PlanWave;
    } else if n :| n in s.control.ready {
      a := Launch(n);
    } else if n :| n in s.workers && !s.workers[n].phase.Over() {
      a := Advance(n);
    } else {
      assert s.control.ready == {};
      a := Barrier;
    }
  }

  /** Nothing deadlocks: until the executor returns, some step can be taken. */
  lemma StepExists(p: Plan, m: Meaning, s: State) returns (a: Action)
    requires Descending(p, m.level) && Inv(p, m, s) && !s.control.Returned?
    ensures Enabled(p, s, a)
  {
    assert s.remaining <= p.jobs.Keys && forall n :: n in s.workers ==> n in p.jobs;
    hide Enabled, Records, Histories;
    a := SomeStep(p, s);
  }

  /**
   Whatever the interleaving so far, the executor has not got stuck, and unless it has
   returned it can go on; so every interleaving can only end by returning.
   */
  lemma NeverStuck(p: Plan, run: seq<Action>)
    requires ValidPlan(p) && Admissible(p, run)
    ensures !After(p, run).control.Stuck?
    ensures !After(p, run).control.Returned? ==> exists a :: Admissible(p, run + [a])
  {
    RunPreserves(p, run);
    if !After(p, run).control.Returned? {
      var a := StepExists(p, MeaningOf(p), After(p, run));
      Extend(p, run, a);
    }
  }

  // ----- Waves -----

  lemma LevelIsDepth(p: Plan, n: Name)
    requires ValidPlan(p) && n in p.jobs
    ensures n in Levels(p) && Levels(p)[n] == Depth(JobGraph(p), n)
  {
  }

  lemma WaveIsLevel(p: Plan, m: Meaning, s: State, n: Name)
    requires Descending(p, m.level) && Inv(p, m, s) && n in s.workers
    ensures n in p.jobs && s.workers[n].wave == m.level[n]
  {
  }

  /** A job runs in wave `k` exactly when its longest dependency chain has length `k`. */
  lemma WaveIsLongestChain(p: Plan, run: seq<Action>, n: Name)
    requires ValidPlan(p) && Admissible(p, run)
    requires n in After(p, run).workers
    ensures n in p.jobs && After(p, run).workers[n].wave == Depth(JobGraph(p), n)
  {
    RunPreserves(p, run);
    WaveIsLevel(p, MeaningOf(p), After(p, run), n);
    LevelIsDepth(p, n);
    hide Levels, Acyclic, Closed, HasChain, Eval, Inv;
  }

  lemma LastWave(p: Plan, level: map<Name, nat>, s: State)
    requires Descending(p, level) && Layout(level, s) && s.control.Returned? && !s.failed && p.jobs.Keys != {}
    ensures s.wave > 0
    ensures exists n :: n in p.jobs && n in level && level[n] == s.wave - 1
    ensures forall n :: n in p.jobs ==> n in level && level[n] < s.wave
  {
    var n :| n in p.jobs.Keys;
    assert n in level;
  }

  /** A fully successful run takes one wave more than its longest chain has dependencies. */
  lemma WaveCount(p: Plan, run: seq<Action>)
    requires ValidPlan(p) && Admissible(p, run) && p.jobs.Keys != {}
    requires After(p, run).control.Returned? && !After(p, run).failed
    ensures After(p, run).wave > 0
    ensures exists n :: n in p.jobs && Depth(JobGraph(p), n) == After(p, run).wave - 1
    ensures forall n :: n in p.jobs ==> Depth(JobGraph(p), n) < After(p, run).wave
  {
    RunPreserves(p, run);
    var s, level := After(p, run), Levels(p);
    LastWave(p, level, s);
    forall n | n in p.jobs
      ensures level[n] == Depth(JobGraph(p), n)
    {
      LevelIsDepth(p, n);
    }
    hide Levels, Acyclic, Closed, HasChain, Eval, Inv, Descending;
  }

  // ----- Whole runs -----

  lemma {:induction false} PrefixAdmissible(p: Plan, run: seq<Action>, i: nat)
    requires Admissible(p, run) && i <= |run|
    ensures Admissible(p, run[..i])
    decreases |run|
  {
    if i < |run| {
      PrefixAdmissible(p, run[..|run| - 1], i);
      assert run[..|run| - 1][..i] == run[..i];
    } else {
      assert run[..i] == run;
    }
  }

  /** Launched jobs stay launched, and a job whose calls all failed stays failed. */
  ghost predicate Grows(s: State, t: State) {
    && (forall n :: n in s.workers ==> n in t.workers)
    && (forall n :: n in s.workers && s.workers[n].phase.HasError() ==> t.workers[n].phase.HasError())
    && s.reports <= t.reports
  }

  lemma StepGrows(p: Plan, s: State, a: Action)
    requires Enabled(p, s, a)
    requires a.Launch? ==> a.job !in s.workers
    ensures Grows(s, Apply(p, s, a))
  {
  }

  lemma {:induction false} RunGrows(p: Plan, run: seq<Action>, i: nat)
    requires ValidPlan(p) && Admissible(p, run) && i <= |run|
    ensures Admissible(p, run[..i]) && Grows(After(p, run[..i]), After(p, run))
    decreases |run|
  {
    PrefixAdmissible(p, run, i);
    if i < |run| {
      var prefix := run[..|run| - 1];
      RunGrows(p, prefix, i);
      assert prefix[..i] == run[..i];
      RunPreserves(p, prefix);
      StepGrows(p, After(p, prefix), run[|run| - 1]);
    } else {
      assert run[..i] == run;
    }
  }

  /** The state just before step `i`. */
  ghost function Before(p: Plan, run: seq<Action>, i: nat): State
    requires Admissible(p, run) && i < |run|
  {
    PrefixAdmissible(p, run, i);
    After(p, run[..i])
  }

  lemma StepAt(p: Plan, run: seq<Action>, i: nat)
    requires Admissible(p, run) && i < |run|
    ensures Enabled(p, Before(p, run, i), run[i])
    ensures Admissible(p, run[..i + 1]) && After(p, run[..i + 1]) == Apply(p, Before(p, run, i), run[i])
  {
    PrefixAdmissible(p, run, i + 1);
    assert run[..i + 1][..i] == run[..i];
  }

  lemma LaterGrows(p: Plan, run: seq<Action>, i: nat, j: nat)
    requires ValidPlan(p) && Admissible(p, run) && i <= j < |run|
    ensures Grows(Before(p, run, i), Before(p, run, j))
  {
    PrefixAdmissible(p, run, j);
    RunGrows(p, run[..j], i);
    assert run[..j][..i] == run[..i];
  }

  /** No job is launched twice. */
  lemma LaunchedOnce(p: Plan, run: seq<Action>, i: nat, j: nat)
    requires ValidPlan(p) && Admissible(p, run) && i < j < |run|
    requires run[i].Launch? && run[j].Launch?
    ensures run[i].job != run[j].job
  {
    StepAt(p, run, i);
    StepAt(p, run, j);
    PrefixAdmissible(p, run, j);
    RunGrows(p, run[..j], i + 1);
    assert run[..j][..i + 1] == run[..i + 1];
    RunPreserves(p, run[..j]);
    LaunchIsNew(p, MeaningOf(p), Before(p, run, j), run[j]);
    hide Inv, Levels, Eval, Admissible, Enabled;
  }

  /** Step `i` is a function invocation by job `n`. */
  ghost predicate Invokes(p: Plan, run: seq<Action>, i: nat, n: Name)
    requires Admissible(p, run) && i < |run|
  {
    run[i] == Advance(n) && n in Before(p, run, i).workers && Before(p, run, i).workers[n].phase.Calling?
  }

  /**
   Whenever a job is invoked, all its dependencies have finished and its payload holds
   exactly those names, each with the output recorded for it.
   */
  lemma InvokedAfterDependencies(p: Plan, run: seq<Action>, i: nat, n: Name)
    requires ValidPlan(p) && Admissible(p, run) && i < |run| && Invokes(p, run, i, n)
    ensures n in p.jobs
    ensures var s := Before(p, run, i);
            && (forall d :: d in p.jobs[n].dependsOn ==>
                  d in s.workers && s.workers[d].phase.Finished? && d in s.outputs)
            && s.workers[n].phase.payload == map d | d in p.jobs[n].dependsOn && d in s.outputs :: Some(s.outputs[d])
  {
    PrefixAdmissible(p, run, i);
    RunPreserves(p, run[..i]);
    PayloadExact(p, MeaningOf(p), Before(p, run, i), n);
    hide *;
  }

  lemma PayloadExact(p: Plan, m: Meaning, s: State, n: Name)
    requires Descending(p, m.level) && Inv(p, m, s) && n in s.workers && s.workers[n].phase.Calling?
    ensures n in p.jobs
    ensures forall d :: d in p.jobs[n].dependsOn ==> d in s.workers && s.workers[d].phase.Finished? && d in s.outputs
    ensures s.workers[n].phase.payload == map d | d in p.jobs[n].dependsOn && d in s.outputs :: Some(s.outputs[d])
  {
    DependenciesFinished(p, m, s, n);
    assert History(p, m.outcome, n, s.workers[n].phase, s.workers[n].replies);
    hide Layout, Records, Histories, Descending, Attempts;
  }

  /**
   Once a job has used up its attempts, only jobs of its own wave are launched or
   invoked: no later wave starts.
   */
  lemma NoLaterWaveAfterFailure(p: Plan, run: seq<Action>, i: nat, j: nat, f: Name, n: Name)
    requires ValidPlan(p) && Admissible(p, run) && i <= j < |run|
    requires f in Before(p, run, i).workers && Before(p, run, i).workers[f].phase.HasError()
    requires run[j] == Launch(n) || Invokes(p, run, j, n)
    ensures f in p.jobs && n in p.jobs
    ensures Depth(JobGraph(p), n) == Depth(JobGraph(p), f)
  {
    LaterGrows(p, run, i, j);
    StepAt(p, run, j);
    PrefixAdmissible(p, run, j);
    RunPreserves(p, run[..j]);
    var s := Before(p, run, j);
    assert Levels(p)[f] == s.wave;
    assert Levels(p)[n] == s.wave;
  }

  // ----- The result does not depend on the interleaving -----

  /** A job is reached when every job on a lower level succeeds. */
  ghost predicate Reached(m: Meaning, n: Name) {
    && n in m.level
    && forall k :: k in m.level && m.level[k] < m.level[n] ==> k in m.outcome && m.outcome[k].Done?
  }

  ghost predicate AllSucceed(m: Meaning) {
    forall n :: n in m.outcome ==> m.outcome[n].Done?
  }

  /** At the end of a run each launched job has the outcome of the reference semantics. */
  lemma FinalOutcome(p: Plan, m: Meaning, s: State, n: Name)
    requires Inv(p, m, s) && s.control.Returned? && n in s.workers
    ensures n in m.outcome
    ensures m.outcome[n].Done? <==> n in s.outputs
    ensures n in s.outputs ==> m.outcome[n] == Done(s.outputs[n])
    ensures s.workers[n].phase.Aborted? <==> m.outcome[n].Lost?
  {
    assert History(p, m.outcome, n, s.workers[n].phase, s.workers[n].replies);
    hide Histories, History;
  }

  lemma LaunchedIffReached(p: Plan, m: Meaning, s: State, n: Name)
    requires Inv(p, m, s) && s.control.Returned?
    ensures n in s.workers <==> Reached(m, n)
  {
    if n in s.workers {
      forall k | k in m.level && m.level[k] < m.level[n]
        ensures k in m.outcome && m.outcome[k].Done?
      {
        assert k in s.workers;
        FinalOutcome(p, m, s, k);
      }
    } else if Reached(m, n) {
      assert s.failed;
      var f :| f in s.workers && s.workers[f].phase.Aborted?;
      assert f in m.level && m.level[f] < m.level[n];
      FinalOutcome(p, m, s, f);
    }
  }

  lemma ResultFromMeaning(p: Plan, m: Meaning, s: State)
    requires Inv(p, m, s) && s.control.Returned?
    requires forall n :: n in m.outcome ==> n in m.level
    ensures forall n :: n in s.workers <==> Reached(m, n)
    ensures forall n :: n in s.outputs <==> Reached(m, n) && n in m.outcome && m.outcome[n].Done?
    ensures forall n :: n in s.outputs ==> m.outcome[n] == Done(s.outputs[n])
    ensures s.failed <==> !AllSucceed(m)
  {
    forall n
      ensures n in s.workers <==> Reached(m, n)
    {
      LaunchedIffReached(p, m, s, n);
    }
    hide Reached;
    forall n | n in s.workers
      ensures n in m.outcome
      ensures m.outcome[n].Done? <==> n in s.outputs
      ensures n in s.outputs ==> m.outcome[n] == Done(s.outputs[n])
      ensures s.workers[n].phase.Aborted? <==> m.outcome[n].Lost?
    {
      FinalOutcome(p, m, s, n);
    }
    hide Histories;
    if !s.failed {
      forall n | n in m.outcome
        ensures m.outcome[n].Done?
      {
        assert n in s.workers && s.workers[n].phase.Finished?;
      }
    }
  }

  /**
   Whatever the interleaving, a finished run launched exactly the reached jobs, recorded
   exactly the outputs of the reference semantics, and failed exactly when some job does.
   */
  lemma ResultIsDetermined(p: Plan, run: seq<Action>)
    requires ValidPlan(p) && Admissible(p, run) && After(p, run).control.Returned?
    ensures var s, m := After(p, run), MeaningOf(p);
            && (forall n :: n in s.workers <==> Reached(m, n))
            && (forall n :: n in s.outputs <==> Reached(m, n) && n in m.outcome && m.outcome[n].Done?)
            && (forall n :: n in s.outputs ==> m.outcome[n] == Done(s.outputs[n]))
            && (s.failed <==> !AllSucceed(m))
  {
    RunPreserves(p, run);
    ResultFromMeaning(p, MeaningOf(p), After(p, run));
    hide *;
  }

  /** Between one and `retries + 1` calls, all but the last in vain; completed iff the last was not. */
  ghost predicate CallsInOrder(p: Plan, s: State, n: Name) {
    && n in p.jobs && n in s.workers
    && var w := s.workers[n];
       && 1 <= |w.replies| <= p.jobs[n].retries + 1
       && (forall i :: 0 <= i < |w.replies| - 1 ==> w.replies[i].Error?)
       && (n in s.completed <==> w.replies[|w.replies| - 1].Answer?)
       && (w.replies[|w.replies| - 1].Error? ==> |w.replies| == p.jobs[n].retries + 1)
  }

  lemma CallsMade(p: Plan, m: Meaning, s: State, n: Name)
    requires Inv(p, m, s) && n in s.workers && s.workers[n].phase.Over()
    ensures CallsInOrder(p, s, n)
  {
    var w := s.workers[n];
    assert History(p, m.outcome, n, w.phase, w.replies);
    hide Histories, Layout, Attempts, Inputs, AllDone;
    assert forall i :: 0 <= i < |w.replies| - 1 ==> w.replies[..|w.replies| - 1][i] == w.replies[i];
  }

  lemma LaunchedOver(p: Plan, m: Meaning, s: State, n: Name)
    requires Inv(p, m, s) && s.control.Returned? && n in s.workers
    ensures s.workers[n].phase.Over()
  {
  }

  /**
   A finished run made between one and `retries + 1` calls for each launched job, all but the
   last unsuccessful; the job is recorded as completed exactly when its last call succeeded.
   */
  lemma CallCounts(p: Plan, run: seq<Action>, n: Name)
    requires ValidPlan(p) && Admissible(p, run) && After(p, run).control.Returned?
    requires n in After(p, run).workers
    ensures CallsInOrder(p, After(p, run), n)
  {
    RunPreserves(p, run);
    hide Inv, ValidPlan, Admissible, After, CallsInOrder;
    LaunchedOver(p, MeaningOf(p), After(p, run), n);
    CallsMade(p, MeaningOf(p), After(p, run), n);
  }
}
