/**
 The executor as a program: the wave loop, the readiness scan, the retry loop and the
 barrier, with the goroutines of a wave interleaved arbitrarily.
 */
module ExecutorProgram {
  import opened Graph
  import opened Pipelines
  import opened Executor
  import T = ExecutorTheorems

  /** Scans the remaining jobs, in any order, for those whose dependencies have all completed. */
  method CollectReady(p: Plan, s: State) returns (ready: set<Name>)
    requires s.remaining <= p.jobs.Keys
    ensures ready == Ready(p, s)
  {
    ready := {};
    var todo := s.remaining;
    while todo != {}
      invariant todo <= s.remaining
      invariant forall n :: n in ready <==> n in s.remaining - todo && n in Ready(p, s)
      decreases todo
    {
      var n :| n in todo;
      var deps := p.jobs[n].dependsOn;
      var k := 0;
      while k < |deps| && deps[k] in s.completed
        invariant k <= |deps| && forall j :: 0 <= j < k ==> deps[j] in s.completed
      {
        k := k + 1;
      }
      if k == |deps| {
        ready := ready + {n};
      } else {
        assert deps[k] in deps && deps[k] !in s.completed;
      }
      todo := todo - {n};
    }
  }

  /** Where the outcome of its calls leaves the goroutine of a job. */
  function PhaseAfter(outcome: Outcome): Phase
    requires !outcome.Blocked?
  {
    match outcome
    case Done(v) => Answered(v)
    case Lost(m) => GaveUp(m)
  }

  /** `acts` goes on from `before` with steps of the goroutine of `n` alone, which change nothing but its phase. */
  ghost predicate GoesOn(p: Plan, before: seq<Action>, acts: seq<Action>, n: Name, phase: Phase)
    requires Admissible(p, before)
  {
    && before <= acts && Admissible(p, acts)
    && (forall k :: |before| <= k < |acts| ==> acts[k] == Advance(n))
    && OnlyMoved(After(p, before), After(p, acts), n, phase)
  }

  /** `t` differs from `s` at most in the goroutine of `n`, which is in the given phase. */
  ghost predicate OnlyMoved(s: State, t: State, n: Name, phase: Phase) {
    n in t.workers && t.workers[n].phase == phase && t == s.(workers := s.workers[n := t.workers[n]])
  }

  lemma CallStep(p: Plan, s: State, n: Name)
    requires n in p.jobs && p.jobs[n].name == n && s.remaining <= p.jobs.Keys
    requires n in s.workers && (s.workers[n].phase.Announced? || s.workers[n].phase.Calling?)
    ensures Enabled(p, s, Advance(n))
    ensures OnlyMoved(s, Apply(p, s, Advance(n)), n, NextWorker(p, s.outputs, p.jobs[n], s.workers[n]).phase)
  {
    assert s.reports + [] == s.reports;
  }

  /** One more step before or between calls. */
  lemma StepOn(p: Plan, before: seq<Action>, acts: seq<Action>, n: Name, phase: Phase)
    requires n in p.jobs && p.jobs[n].name == n && Admissible(p, before) && After(p, before).remaining <= p.jobs.Keys
    requires GoesOn(p, before, acts, n, phase) && (phase.Announced? || phase.Calling?)
    ensures var s := After(p, acts);
            GoesOn(p, before, acts + [Advance(n)], n, NextWorker(p, s.outputs, p.jobs[n], s.workers[n]).phase)
  {
    CallStep(p, After(p, acts), n);
    T.Extend(p, acts, Advance(n));
    hide Enabled, Apply, NextWorker, Admissible, After;
  }

  /** Before the first call the goroutine reads its payload. */
  lemma PayloadRead(p: Plan, before: seq<Action>, n: Name)
    requires n in p.jobs && p.jobs[n].name == n && Admissible(p, before) && After(p, before).remaining <= p.jobs.Keys
    requires n in After(p, before).workers && After(p, before).workers[n].phase.Announced?
    ensures var payload := ReadInputs(p.jobs[n], After(p, before).outputs);
            GoesOn(p, before, before + [Advance(n)], n, if p.jobs[n].retries < 0 then Answered("") else Calling(payload, 0))
  {
    hide ReadInputs, Admissible, After;
    assert OnlyMoved(After(p, before), After(p, before), n, Announced);
    StepOn(p, before, before, n, Announced);
  }

  /** From its `k`-th call on, the steps of the goroutine lead to the outcome of the remaining attempts. */
  lemma {:induction false} CallsAreSteps(p: Plan, before: seq<Action>, acts: seq<Action>, n: Name, payload: Payload, k: nat)
    returns (whole: seq<Action>)
    requires n in p.jobs && p.jobs[n].name == n && Admissible(p, before) && After(p, before).remaining <= p.jobs.Keys
    requires GoesOn(p, before, acts, n, Calling(payload, k)) && k <= p.jobs[n].retries
    ensures !Attempts(p, n, payload, k).Blocked? && GoesOn(p, before, whole, n, PhaseAfter(Attempts(p, n, payload, k)))
    decreases p.jobs[n].retries - k
  {
    StepOn(p, before, acts, n, Calling(payload, k));
    var next := acts + [Advance(n)];
    assert GoesOn(p, before, next, n, AfterCall(p.jobs[n].retries, payload, k, p.invoke(n, payload, k)));
    hide GoesOn, Admissible, After;
    if p.invoke(n, payload, k).Error? && k < p.jobs[n].retries {
      whole := CallsAreSteps(p, before, next, n, payload, k + 1);
    } else {
      whole := next;
    }
  }

  lemma RetriesAreSteps(p: Plan, before: seq<Action>, n: Name) returns (acts: seq<Action>)
    requires n in p.jobs && p.jobs[n].name == n && Admissible(p, before) && After(p, before).remaining <= p.jobs.Keys
    requires n in After(p, before).workers && After(p, before).workers[n].phase.Announced?
    ensures var payload := ReadInputs(p.jobs[n], After(p, before).outputs);
            var outcome := if p.jobs[n].retries < 0 then Done("") else Attempts(p, n, payload, 0);
            !outcome.Blocked? && GoesOn(p, before, acts, n, PhaseAfter(outcome))
  {
    PayloadRead(p, before, n);
    acts := before + [Advance(n)];
    hide GoesOn, Admissible, After, ReadInputs;
    if p.jobs[n].retries >= 0 {
      acts := CallsAreSteps(p, before, acts, n, ReadInputs(p.jobs[n], After(p, before).outputs), 0);
    }
  }

  /**
   The retry loop: the first answer, or the error of the last of `retries + 1` calls. Its outcome is
   where the steps of the goroutine leave it.
   */
  method InvokeWithRetries(p: Plan, n: Name, payload: Payload, ghost before: seq<Action>)
    returns (outcome: Outcome, calls: nat, ghost acts: seq<Action>)
    requires n in p.jobs && p.jobs[n].name == n
    requires Admissible(p, before) && After(p, before).remaining <= p.jobs.Keys
    requires n in After(p, before).workers && After(p, before).workers[n].phase.Announced?
    requires payload == ReadInputs(p.jobs[n], After(p, before).outputs)
    ensures p.jobs[n].retries >= 0 ==> outcome == Attempts(p, n, payload, 0) && 1 <= calls <= p.jobs[n].retries + 1
    ensures p.jobs[n].retries < 0 ==> outcome == Done("") && calls == 0
    ensures outcome.Lost? ==> calls == p.jobs[n].retries + 1
    ensures forall k :: 0 <= k < calls - 1 ==> p.invoke(n, payload, k).Error?
    ensures calls > 0 ==> (outcome.Done? <==> p.invoke(n, payload, calls - 1).Answer?)
    ensures !outcome.Blocked? && GoesOn(p, before, acts, n, PhaseAfter(outcome))
  {
    outcome, calls := Done(""), 0;
    hide GoesOn, Admissible, After, ReadInputs;
    acts := RetriesAreSteps(p, before, n);
    while calls <= p.jobs[n].retries
      invariant calls <= p.jobs[n].retries + 1 || calls == 0
      invariant forall k :: 0 <= k < calls ==> p.invoke(n, payload, k).Error?
      invariant calls == 0 ==> outcome == Done("")
      invariant 0 < calls ==> outcome.Lost?
      invariant 0 < calls <= p.jobs[n].retries ==> Attempts(p, n, payload, 0) == Attempts(p, n, payload, calls)
      invariant 0 < calls == p.jobs[n].retries + 1 ==> Attempts(p, n, payload, 0) == outcome
    {
      var reply := p.invoke(n, payload, calls);
      calls := calls + 1;
      match reply {
        case Answer(v) =>
          outcome := Done(v);
          return;
        case Error(m) =>
          outcome := Lost(m);
      }
    }
  }

  /** What the loops rely on; it needs no acyclic graph. */
  ghost predicate Sound(p: Plan, s: State) {
    && s.remaining <= p.jobs.Keys
    && (forall n :: n in s.workers ==> n in p.jobs && n !in s.remaining)
    && (s.control.Spawning? ==> s.control.ready <= s.remaining)
  }

  lemma SoundStep(p: Plan, s: State, a: Action)
    requires Sound(p, s) && Enabled(p, s, a)
    ensures Sound(p, Apply(p, s, a))
    ensures a.Launch? ==> a.job in p.jobs && a.job !in s.workers
  {
  }

  /**
   Runs a plan to its end. The result is the state after one interleaving; for a valid plan it
   has returned, having launched, recorded and reported exactly what the theorems about all
   interleavings say.
   */
  method ExecuteFunctionPipeline(p: Plan) returns (s: State, ghost acts: seq<Action>)
    requires forall n :: n in p.names <==> n in p.jobs
    ensures Admissible(p, acts) && s == After(p, acts)
    ensures s.control.Returned? || s.control.Stuck?
    ensures ValidPlan(p) ==> s.control.Returned?
    ensures ValidPlan(p) ==> forall n :: n in s.workers <==> T.Reached(MeaningOf(p), n)
    ensures ValidPlan(p) ==> (s.failed <==> !T.AllSucceed(MeaningOf(p)))
  {
    s, acts := Init(p), [];
    while s.remaining != {} && s.control.Planning?
      invariant Admissible(p, acts) && s == After(p, acts) && Sound(p, s)
      invariant s.control.Planning? || s.control.Returned? || s.control.Stuck?
      decreases T.Work(p, s)
    {
      var ready := CollectReady(p, s);
      assert Enabled(p, s, PlanWave);
      SoundStep(p, s, PlanWave);
      T.Extend(p, acts, PlanWave);
      T.StepWorks(p, s, PlanWave);
      acts := acts + [PlanWave];
      if ready == {} {
        var stuck := Report("orchestrator", Failed, "pipeline graph cannot make progress");
        s := s.(control := Stuck, reports := s.reports + [stuck]);
      } else {
        s := s.(control := Spawning(ready), failed := false);
        s, acts := RunWave(p, s, acts);
      }
    }
    if s.control.Planning? {
      T.Extend(p, acts, PlanWave);
      acts := acts + [PlanWave];
      s := s.(control := Returned);
    }
    if ValidPlan(p) {
      T.NeverStuck(p, acts);
      T.ResultIsDetermined(p, acts);
    }
  }

  /** Launches the ready jobs and lets all goroutines run, in any order, up to the barrier. */
  method RunWave(p: Plan, start: State, ghost before: seq<Action>) returns (s: State, ghost acts: seq<Action>)
    requires forall n :: n in p.names <==> n in p.jobs
    requires Admissible(p, before) && start == After(p, before) && Sound(p, start) && start.control.Spawning?
    ensures Admissible(p, acts) && s == After(p, acts) && Sound(p, s)
    ensures s.control.Planning? || s.control.Returned?
    ensures T.Work(p, s) < T.Work(p, start)
  {
    s, acts := start, before;
    var active := set n | n in s.workers && !s.workers[n].phase.Over();
    while s.control.ready != {} || active != {}
      invariant Admissible(p, acts) && s == After(p, acts) && Sound(p, s) && s.control.Spawning?
      invariant T.Work(p, s) <= T.Work(p, start)
      invariant active == set n | n in s.workers && !s.workers[n].phase.Over()
      decreases T.Work(p, s)
    {
      var a: Action;
      if {
        case s.control.ready != {} =>
          var n :| n in s.control.ready;
          a := Launch(n);
        case active != {} =>
          var n :| n in active;
          a := Advance(n);
      }
      SoundStep(p, s, a);
      T.Extend(p, acts, a);
      T.StepWorks(p, s, a);
      s, acts := Apply(p, s, a), acts + [a];
      active := set n | n in s.workers && !s.workers[n].phase.Over();
    }
    assert s.control == Spawning({}) && Enabled(p, s, Barrier) by {
      assert forall n :: n in s.workers && !s.workers[n].phase.Over() ==> n in active;
    }
    SoundStep(p, s, Barrier);
    T.Extend(p, acts, Barrier);
    T.StepWorks(p, s, Barrier);
    s, acts := if s.failed then s.(control := Returned) else s.(control := Planning, wave := s.wave + 1), acts + [Barrier];
  }
}
