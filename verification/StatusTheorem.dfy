/**
 For exactly which runs the final status can be trusted, and what that means for
 submissions and retries.
 */
module StatusTheorem {
  import opened Graph
  import opened Pipelines
  import opened Executor
  import T = ExecutorTheorems
  import opened Runs
  import opened RunTheorems
  import opened EndToEnd

  /** A finished execution left the run with the status its jobs earned. */
  ghost predicate StatusEarned(p: Plan, acts: seq<Action>, run: Run)
    requires ValidPlan(p) && Admissible(p, acts)
  {
    ShowsEarned(p, RunAt(run, After(p, acts)))
  }

  /** Whatever the functions reply and however the jobs interleave, the final status is earned. */
  ghost predicate AlwaysEarned(p: Plan, run: Run) {
    forall invoke: Oracle, acts: seq<Action> ::
      var q := p.(invoke := invoke);
      ValidPlan(q) && Admissible(q, acts) && After(q, acts).control.Returned? ==> StatusEarned(q, acts, run)
  }

  lemma {:induction false} AnswersSucceed(p: Plan, m: Meaning, n: Name)
    requires Descending(p, m.level) && n in p.jobs
    requires forall n, payload, k :: p.invoke(n, payload, k).Answer?
    requires forall n :: n in p.jobs ==> SolvedAt(p, m.outcome, n)
    ensures n in m.outcome && m.outcome[n].Done?
    decreases m.level[n]
  {
    forall d | d in p.jobs[n].dependsOn
      ensures d in m.outcome && m.outcome[d].Done?
    {
      AnswersSucceed(p, m, d);
    }
    assert SolvedAt(p, m.outcome, n);
    assert AllDone(p.jobs[n], m.outcome);
    assert p.invoke(n, Inputs(p.jobs[n], m.outcome), 0).Answer?;
  }

  lemma AllAnswer(p: Plan)
    requires ValidPlan(p)
    requires forall n, payload, k :: p.invoke(n, payload, k).Answer?
    ensures T.AllSucceed(MeaningOf(p))
  {
    var m := MeaningOf(p);
    forall n | n in p.jobs
      ensures SolvedAt(p, m.outcome, n)
    {
      EvalSolves(p, m.level, n);
    }
    forall n | n in m.outcome
      ensures m.outcome[n].Done?
    {
      hide Eval, SolvedAt, Levels;
      AnswersSucceed(p, m, n);
    }
  }

  /** A run that does not cover its plan ends, for some replies and some interleaving, with a status it did not earn. */
  lemma UncoveredGoesWrong(p: Plan, run: Run) returns (q: Plan, acts: seq<Action>)
    requires ValidPlan(p) && Untouched(run) && !Covers(Levels(p), StepNames(run))
    ensures q == p.(invoke := q.invoke) && ValidPlan(q)
    ensures Admissible(q, acts) && After(q, acts).control.Returned?
    ensures RunAt(run, After(q, acts)).status.RunSucceeded? <==> !T.AllSucceed(MeaningOf(q))
  {
    var level, names := Levels(p), StepNames(run);
    if x :| x in names && x !in level {
      q := p.(invoke := (n, payload, k) => Answer(""));
      SameLevels(p, q);
      assert x !in q.jobs;
      hide Levels, Covers;
      acts := StrayStepStays(q, run, x);
      AllAnswer(q);
    } else {
      var b :| b in level && b !in names && forall n :: n in names && n in level ==> level[n] <= level[b];
      q := p.(invoke := (n, payload, k) => if n == b then Error("down") else Answer(""));
      SameLevels(p, q);
      assert OnlyFails(q, b);
      hide Levels, Covers, OnlyFails;
      acts := LateFailureLost(q, run, b);
    }
  }

  /**
   The final status is always earned exactly when the run covers its plan: every step is a job,
   and for every job missing from the steps there is some step at a greater depth.
   */
  lemma EarnedIffCovered(p: Plan, run: Run)
    requires ValidPlan(p) && Untouched(run)
    ensures AlwaysEarned(p, run) <==> Covers(Levels(p), StepNames(run))
  {
    if Covers(Levels(p), StepNames(run)) {
      forall invoke: Oracle, acts: seq<Action> | ValidPlan(p.(invoke := invoke)) && Admissible(p.(invoke := invoke), acts)
          && After(p.(invoke := invoke), acts).control.Returned?
        ensures StatusEarned(p.(invoke := invoke), acts, run)
      {
        var q := p.(invoke := invoke);
        SameLevels(p, q);
        FinalStatus(q, acts, run);
      }
    } else {
      var q, acts := UncoveredGoesWrong(p, run);
      hide Levels, Covers, Untouched;
      assert q == p.(invoke := q.invoke) && !StatusEarned(q, acts, run);
    }
  }

  // ----- Submissions -----

  /** A run submitted for an accepted definition has exactly that definition's jobs as its steps. */
  lemma SubmissionCovers(r: Request, invoke: Oracle, run: Run)
    requires Accepted(r) && run.steps == StepsFromDefinition(r.jobs) && run.status == RunQueued && run.progress == 0
    ensures ValidPlan(PlanOf(r.jobs, invoke)) && Untouched(run)
    ensures Covers(Levels(PlanOf(r.jobs, invoke)), StepNames(run))
  {
    AcceptedIsValid(r, invoke);
    var p := PlanOf(r.jobs, invoke);
    assert StepNames(run) == Names(r.jobs) by {
      assert |run.steps| == |r.jobs|;
      assert forall i :: 0 <= i < |r.jobs| ==> run.steps[i].name == r.jobs[i].name;
      forall n
        ensures n in StepNames(run) <==> n in Names(r.jobs)
      {
        if n in StepNames(run) {
          var i :| 0 <= i < |run.steps| && run.steps[i].name == n;
          assert r.jobs[i].name == n;
        }
        if n in Names(r.jobs) {
          var i :| 0 <= i < |r.jobs| && r.jobs[i].name == n;
          assert run.steps[i].name == n;
        }
      }
    }
    hide ByName, Accepted, ValidPlan;
  }

  // ----- Retries -----

  lemma RetryUntouched(run: Run, newId: string)
    requires RunOk(run)
    ensures Untouched(RetryOf(run, newId)) && StepNames(RetryOf(run, newId)) == StepNames(run)
  {
    var retry := RetryOf(run, newId);
    assert forall i :: 0 <= i < |run.steps| ==> retry.steps[i].name == run.steps[i].name;
  }

  /**
   A retry copies the steps of the earlier run but executes the current definition. If the
   earlier run holds a step that is no job, such as one reported by the control plane itself,
   the retry never succeeds, whatever the functions reply and however they interleave.
   */
  lemma RetryWithStrayStep(p: Plan, acts: seq<Action>, run: Run, newId: string, x: Name)
    requires ValidPlan(p) && Admissible(p, acts) && RunOk(run)
    requires x in StepNames(run) && x !in p.jobs
    ensures !RunAt(RetryOf(run, newId), After(p, acts)).status.RunSucceeded?
  {
    RetryUntouched(run, newId);
    hide RunOk, RetryOf, StepNames;
    StrayStepNeverSucceeds(p, acts, RetryOf(run, newId), x);
  }

  /** A retry can be trusted exactly when the earlier run's steps cover the current definition. */
  lemma RetryEarnedIffCovered(p: Plan, run: Run, newId: string)
    requires ValidPlan(p) && RunOk(run)
    ensures AlwaysEarned(p, RetryOf(run, newId)) <==> Covers(Levels(p), StepNames(run))
  {
    RetryUntouched(run, newId);
    hide RunOk, RetryOf, StepNames, Levels, Covers;
    EarnedIffCovered(p, RetryOf(run, newId));
  }
}
