/** What every interleaving of the executor keeps. */
module ExecutorInvariant {
  import opened Graph
  import opened Pipelines
  import opened Executor

  /** Waves follow dependency depth: below the wave all is finished, above it all remains. */
  ghost predicate Layout(level: map<Name, nat>, s: State) {
    && (forall n :: n in s.workers ==> n in level && n !in s.remaining && s.workers[n].wave == level[n] <= s.wave)
    && (forall n :: n in s.remaining ==> n in level && s.wave <= level[n])
    && (forall n :: n in level ==> n in s.workers || n in s.remaining)
    && (forall n :: n in s.workers && level[n] < s.wave ==> s.workers[n].phase.Finished?)
    && (s.wave > 0 ==> exists n :: n in level && level[n] == s.wave - 1)
    && match s.control
       case Planning => forall n :: n in s.workers ==> level[n] < s.wave
       case Spawning(ready) =>
         && (forall n :: n in ready <==> n in s.remaining && level[n] == s.wave)
         && (exists n :: n in level && level[n] == s.wave)
       case Returned =>
         && (forall n :: n in s.workers ==> s.workers[n].phase.Over())
         && (s.failed ==> forall n :: n in s.remaining ==> s.wave < level[n])
         && (!s.failed ==> s.remaining == {} && forall n :: n in s.workers ==> level[n] < s.wave)
       case Stuck => false
  }

  /** The shared maps hold exactly what the goroutines recorded. */
  ghost predicate Records(s: State) {
    && (forall n :: n in s.completed ==> n in s.workers && (s.workers[n].phase.Recorded? || s.workers[n].phase.Finished?))
    && (forall n :: n in s.workers && (s.workers[n].phase.Recorded? || s.workers[n].phase.Finished?) ==> n in s.completed)
    && (forall n :: n in s.completed <==> n in s.outputs)
    && (forall n :: n in s.outputs ==> n in s.workers && s.workers[n].phase.HasValue() && s.outputs[n] == s.workers[n].phase.value)
    && (s.failed <==> exists n :: n in s.workers && s.workers[n].phase.Aborted?)
  }

  ghost predicate AllErrors(replies: seq<Reply>) {
    forall i :: 0 <= i < |replies| ==> replies[i].Error?
  }

  /** The goroutine of `n` has called as often, with the payload, and with the effect it should. */
  ghost predicate History(p: Plan, outcome: map<Name, Outcome>, n: Name, phase: Phase, replies: seq<Reply>)
    requires n in p.jobs && n in outcome
  {
    && AllDone(p.jobs[n], outcome)
    && (phase.Launched? || phase.Announced? ==> replies == [])
    && (phase.Calling? ==>
          && phase.payload == Inputs(p.jobs[n], outcome)
          && phase.attempt == |replies| <= p.jobs[n].retries
          && AllErrors(replies)
          && outcome[n] == Attempts(p, n, phase.payload, phase.attempt))
    && (phase.HasValue() ==>
          && 1 <= |replies| <= p.jobs[n].retries + 1
          && replies[|replies| - 1] == Answer(phase.value)
          && AllErrors(replies[..|replies| - 1])
          && outcome[n] == Done(phase.value))
    && (phase.HasError() ==>
          && |replies| == p.jobs[n].retries + 1 >= 1
          && replies[|replies| - 1] == Error(phase.message)
          && AllErrors(replies)
          && outcome[n] == Lost(phase.message))
  }

  ghost predicate Histories(p: Plan, outcome: map<Name, Outcome>, s: State) {
    forall n :: n in s.workers ==>
      n in p.jobs && n in outcome && History(p, outcome, n, s.workers[n].phase, s.workers[n].replies)
  }

  ghost predicate Inv(p: Plan, m: Meaning, s: State) {
    Layout(m.level, s) && Records(s) && Histories(p, m.outcome, s)
  }

  // ----- Planning -----

  lemma ReadyAt(p: Plan, level: map<Name, nat>, s: State, n: Name)
    requires Descending(p, level)
    requires Layout(level, s) && Records(s) && s.control.Planning? && n in s.remaining
    requires level[n] > 0 ==> exists d :: d in p.jobs[n].dependsOn && d in level && level[d] == level[n] - 1
    ensures n in Ready(p, s) <==> level[n] == s.wave
  {
    if level[n] > s.wave {
      var d :| d in p.jobs[n].dependsOn && d in level && level[d] == level[n] - 1;
      assert d !in s.completed;
    }
  }

  /** When everything below the wave is finished, the ready jobs are those at the wave's depth. */
  lemma ReadyIsLevel(p: Plan, level: map<Name, nat>, s: State)
    requires Descending(p, level) && Gapless(p, level)
    requires Layout(level, s) && Records(s) && s.control.Planning?
    ensures forall n :: n in Ready(p, s) <==> n in s.remaining && level[n] == s.wave
  {
    assert forall n :: n in s.remaining ==> n in level && n in p.jobs;
    hide Layout, Records, Descending;
    forall n | n in s.remaining
      ensures n in Ready(p, s) <==> level[n] == s.wave
    {
      ReadyAt(p, level, s, n);
    }
  }

  /** Levels have no gaps: below a job there is a job at every smaller level. */
  lemma {:induction false} LevelInhabited(p: Plan, level: map<Name, nat>, n: Name, k: nat) returns (r: Name)
    requires (forall x :: x in level <==> x in p.jobs) && Gapless(p, level) && n in level && k <= level[n]
    ensures r in level && level[r] == k
    decreases level[n]
  {
    if k == level[n] {
      r := n;
    } else {
      var d :| d in p.jobs[n].dependsOn && d in level && level[d] == level[n] - 1;
      r := LevelInhabited(p, level, d, k);
    }
  }

  /** No accepted graph gets stuck: while jobs remain, some job is ready. */
  lemma SomeReady(p: Plan, level: map<Name, nat>, s: State)
    requires Descending(p, level) && Gapless(p, level)
    requires Layout(level, s) && Records(s) && s.control.Planning? && s.remaining != {}
    ensures Ready(p, s) != {}
  {
    ReadyIsLevel(p, level, s);
    var n :| n in s.remaining;
    var r := LevelInhabited(p, level, n, s.wave);
    assert r in Ready(p, s);
  }

  /** The plan as seen from the levels: either all is done or the next level is spawned. */
  lemma PlanLayout(p: Plan, level: map<Name, nat>, s: State)
    requires s.remaining <= p.jobs.Keys && Layout(level, s) && Records(s) && s.control.Planning?
    requires forall n :: n in Ready(p, s) <==> n in s.remaining && level[n] == s.wave
    requires s.remaining != {} ==> Ready(p, s) != {}
    ensures Layout(level, ApplyPlan(p, s)) && Records(ApplyPlan(p, s))
  {
    assert !s.failed;
    if s.remaining != {} {
      var n :| n in Ready(p, s);
      assert n in level && level[n] == s.wave;
    }
  }

  lemma PlanPreserves(p: Plan, m: Meaning, s: State)
    requires Descending(p, m.level) && Gapless(p, m.level)
    requires Inv(p, m, s) && s.control.Planning?
    ensures Inv(p, m, ApplyPlan(p, s))
  {
    ReadyIsLevel(p, m.level, s);
    if s.remaining != {} {
      SomeReady(p, m.level, s);
    }
    PlanLayout(p, m.level, s);
  }

  // ----- Launching and the barrier -----

  lemma LaunchLayout(p: Plan, level: map<Name, nat>, s: State, n: Name)
    requires Layout(level, s) && Records(s) && Enabled(p, s, Launch(n))
    ensures Layout(level, Apply(p, s, Launch(n))) && Records(Apply(p, s, Launch(n)))
  {
    var t := Apply(p, s, Launch(n));
    assert n in s.remaining && n !in s.workers && level[n] == s.wave;
    assert forall k :: k in s.workers ==> t.workers[k] == s.workers[k];
  }

  /** Everything a job of the current wave depends on has finished, with its output recorded. */
  lemma DependenciesFinished(p: Plan, m: Meaning, s: State, n: Name)
    requires Descending(p, m.level)
    requires Inv(p, m, s) && n in p.jobs && m.level[n] <= s.wave
    ensures forall d :: d in p.jobs[n].dependsOn ==>
              && d in s.workers && s.workers[d].phase.Finished?
              && d in s.outputs && d in m.outcome && m.outcome[d] == Done(s.outputs[d])
  {
    hide Attempts;
    forall d | d in p.jobs[n].dependsOn
      ensures d in s.workers && s.workers[d].phase.Finished?
      ensures d in s.outputs && d in m.outcome && m.outcome[d] == Done(s.outputs[d])
    {
      assert m.level[d] < s.wave;
      assert History(p, m.outcome, d, s.workers[d].phase, s.workers[d].replies);
    }
  }

  lemma LaunchHistories(p: Plan, outcome: map<Name, Outcome>, s: State, n: Name)
    requires n in p.jobs && n in outcome && AllDone(p.jobs[n], outcome)
    requires Histories(p, outcome, s) && Enabled(p, s, Launch(n))
    ensures Histories(p, outcome, Apply(p, s, Launch(n)))
  {
    hide Attempts, Inputs, AllDone;
    assert History(p, outcome, n, Launched, []);
  }

  lemma LaunchPreserves(p: Plan, m: Meaning, s: State, n: Name)
    requires Descending(p, m.level) && n in p.jobs && n in m.outcome
    requires Inv(p, m, s) && Enabled(p, s, Launch(n))
    ensures Inv(p, m, Apply(p, s, Launch(n)))
  {
    DependenciesFinished(p, m, s, n);
    hide Histories, Records, Descending;
    LaunchLayout(p, m.level, s, n);
    hide Layout;
    LaunchHistories(p, m.outcome, s, n);
  }

  lemma BarrierLayout(level: map<Name, nat>, s: State, t: State)
    requires Layout(level, s) && Records(s) && s.control == Spawning({})
    requires forall n :: n in s.workers ==> s.workers[n].phase.Over()
    requires t == if s.failed then s.(control := Returned) else s.(control := Planning, wave := s.wave + 1)
    ensures Layout(level, t)
  {
  }

  lemma BarrierPreserves(p: Plan, m: Meaning, s: State)
    requires Inv(p, m, s) && Enabled(p, s, Barrier)
    ensures Inv(p, m, Apply(p, s, Barrier))
  {
    BarrierLayout(m.level, s, Apply(p, s, Barrier));
    hide Layout, Records, Histories;
    SameWorkers(p, m.outcome, s, Apply(p, s, Barrier));
  }

  lemma SameWorkers(p: Plan, outcome: map<Name, Outcome>, s: State, t: State)
    requires Records(s) && Histories(p, outcome, s)
    requires t.workers == s.workers && t.completed == s.completed && t.outputs == s.outputs && t.failed == s.failed
    ensures Records(t) && Histories(p, outcome, t)
  {
    hide History;
  }

  // ----- One step of a goroutine -----

  /** A goroutine reads exactly the outputs the reference semantics gives its dependencies. */
  lemma InputsRead(p: Plan, m: Meaning, s: State, n: Name)
    requires Descending(p, m.level)
    requires Inv(p, m, s) && n in s.workers
    ensures AllDone(p.jobs[n], m.outcome)
    ensures ReadInputs(p.jobs[n], s.outputs) == Inputs(p.jobs[n], m.outcome)
  {
    DependenciesFinished(p, m, s, n);
    hide Layout, Records, Histories;
  }

  /** A call extends the reply list and follows the reference attempts. */
  lemma CallHistory(p: Plan, outcome: map<Name, Outcome>, n: Name, phase: Phase, replies: seq<Reply>)
    requires n in p.jobs && n in outcome && phase.Calling?
    requires History(p, outcome, n, phase, replies)
    ensures var reply := p.invoke(n, phase.payload, phase.attempt);
            History(p, outcome, n, AfterCall(p.jobs[n].retries, phase.payload, phase.attempt, reply), replies + [reply])
  {
    var reply := p.invoke(n, phase.payload, phase.attempt);
    var longer := replies + [reply];
    assert longer[..|longer| - 1] == replies;
  }

  /** One step of a goroutine keeps its history in line with the reference outcome. */
  lemma NextHistory(p: Plan, outcome: map<Name, Outcome>, outputs: map<Name, Value>, n: Name, w: Worker)
    requires SolvedAt(p, outcome, n) && p.jobs[n].name == n && !w.phase.Over()
    requires History(p, outcome, n, w.phase, w.replies)
    requires ReadInputs(p.jobs[n], outputs) == Inputs(p.jobs[n], outcome)
    ensures var next := NextWorker(p, outputs, p.jobs[n], w);
            History(p, outcome, n, next.phase, next.replies)
  {
    if w.phase.Calling? {
      CallHistory(p, outcome, n, w.phase, w.replies);
    }
  }

  lemma AdvanceHistory(p: Plan, m: Meaning, s: State, n: Name)
    requires Descending(p, m.level) && SolvedAt(p, m.outcome, n) && p.jobs[n].name == n
    requires Inv(p, m, s) && Enabled(p, s, Advance(n))
    ensures var t := ApplyAdvance(p, s, n);
            n in t.workers && History(p, m.outcome, n, t.workers[n].phase, t.workers[n].replies)
  {
    assert History(p, m.outcome, n, s.workers[n].phase, s.workers[n].replies);
    InputsRead(p, m, s, n);
    NextHistory(p, m.outcome, s.outputs, n, s.workers[n]);
    hide *;
  }

  lemma AdvanceRecords(p: Plan, s: State, n: Name)
    requires n in p.jobs && n in s.workers && !s.workers[n].phase.Over()
    requires Records(s)
    ensures Records(ApplyAdvance(p, s, n))
  {
    var t := ApplyAdvance(p, s, n);
    assert t.workers[n].phase.Aborted? <==> s.workers[n].phase.Reported?;
    assert forall k :: k in s.workers && k != n ==> t.workers[k] == s.workers[k];
  }

  lemma AdvanceLayout(p: Plan, level: map<Name, nat>, s: State, n: Name)
    requires Layout(level, s) && Records(s) && Enabled(p, s, Advance(n))
    ensures Layout(level, ApplyAdvance(p, s, n))
  {
    var t := ApplyAdvance(p, s, n);
    assert forall k :: k in s.workers && k != n ==> t.workers[k] == s.workers[k];
  }

  lemma AdvancePreserves(p: Plan, m: Meaning, s: State, n: Name)
    requires Descending(p, m.level) && SolvedAt(p, m.outcome, n) && p.jobs[n].name == n
    requires Inv(p, m, s) && Enabled(p, s, Advance(n))
    ensures Inv(p, m, ApplyAdvance(p, s, n))
  {
    AdvanceRecords(p, s, n);
    AdvanceLayout(p, m.level, s, n);
    AdvanceHistory(p, m, s, n);
    hide Layout, Records, SolvedAt, Descending;
    AdvanceHistories(p, m.outcome, s, n);
    hide Histories;
  }

  lemma AdvanceHistories(p: Plan, outcome: map<Name, Outcome>, s: State, n: Name)
    requires Histories(p, outcome, s) && n in p.jobs && n in s.workers
    requires n in outcome
    requires var t := ApplyAdvance(p, s, n);
             n in t.workers && History(p, outcome, n, t.workers[n].phase, t.workers[n].replies)
    ensures Histories(p, outcome, ApplyAdvance(p, s, n))
  {
    hide NextWorker, NextReports, History;
    var t := ApplyAdvance(p, s, n);
    assert forall k :: k in t.workers && k != n ==> k in s.workers && t.workers[k] == s.workers[k];
  }

  // ----- Every run -----

  lemma StepPreserves(p: Plan, s: State, a: Action)
    requires ValidPlan(p) && Inv(p, MeaningOf(p), s) && Enabled(p, s, a)
    ensures Inv(p, MeaningOf(p), Apply(p, s, a))
  {
    var m := MeaningOf(p);
    match a
    case PlanWave =>
      LevelsRanked(p);
      PlanPreserves(p, m, s);
    case Launch(n) =>
      assert n in m.level;
      LaunchPreserves(p, m, s, n);
    case Barrier => BarrierPreserves(p, m, s);
    case Advance(n) =>
      EvalSolves(p, m.level, n);
      AdvancePreserves(p, m, s, n);
  }

  /** The invariant holds after every interleaving of every valid plan. */
  lemma {:induction false} RunPreserves(p: Plan, run: seq<Action>)
    requires ValidPlan(p) && Admissible(p, run)
    ensures Inv(p, MeaningOf(p), After(p, run))
    decreases |run|
  {
    if run != [] {
      var prefix := run[..|run| - 1];
      RunPreserves(p, prefix);
      StepPreserves(p, After(p, prefix), run[|run| - 1]);
    }
  }
}
