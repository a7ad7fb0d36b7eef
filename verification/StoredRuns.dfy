/**
 Runs in the store, from submission or retry to their end, while other operations interleave
 and the definition they execute may change.
 */
module StoredRuns {
  import opened Wrappers
  import opened Graph
  import opened Pipelines
  import opened Executor
  import T = ExecutorTheorems
  import opened Runs
  import opened RunTheorems
  import opened EndToEnd
  import opened StatusTheorem

  // ----- What a history does to one run -----

  /** Only reports change the run with that id; other runs and definitions may change in any way. */
  ghost predicate OnlyReported(ops: seq<Op>, id: string) {
    forall k :: 0 <= k < |ops| && (ops[k].OpCancel? || ops[k].OpLink?) ==> ops[k].id != id
  }

  /** The report an operation makes on the run with that id, unless the store refuses it. */
  function ReportOn(op: Op, id: string): seq<Report> {
    if op.OpReport? && op.id == id && op.step != "" && ParseStatus(op.status).Some?
    then [Report(op.step, ParseStatus(op.status).value, op.message)] else []
  }

  /** The reports on the run with that id, in the order of the history. */
  function ReportsOn(ops: seq<Op>, id: string): seq<Report>
    decreases |ops|
  {
    if ops == [] then [] else ReportOn(ops[0], id) + ReportsOn(ops[1..], id)
  }

  lemma {:induction false} DeliverConcat(run: Run, first: seq<Report>, rest: seq<Report>)
    ensures Deliver(run, first + rest) == Deliver(Deliver(run, first), rest)
    decreases |rest|
  {
    if rest == [] {
      assert first + rest == first;
    } else {
      var short := rest[..|rest| - 1];
      assert (first + rest)[..|first + rest| - 1] == first + short;
      DeliverConcat(run, first, short);
    }
  }

  /** One operation shows on a run as the report it makes on it, if any. */
  lemma OneOperation(db: Db, op: Op, i: nat) returns (j: nat)
    requires DbOk(db) && i < |db.runs| && OnlyReported([op], db.runs[i].id)
    ensures j < |Effect(db, op).runs|
    ensures Effect(db, op).runs[j] == Deliver(db.runs[i], ReportOn(op, db.runs[i].id))
  {
    var id := db.runs[i].id;
    assert [op][0] == op;
    var sent := ReportOn(op, id);
    if op.OpReport? && op.id == id {
      j := i;
      if sent != [] {
        assert StatusText(sent[0].status) == op.status;
        DeliveredByStore(db, i, sent[0]);
        hide Effect, DbOk;
        assert sent == [sent[0]] && sent[..0] == [];
      }
    } else {
      j := EffectFreezes(db, op, i);
    }
  }

  /** After any history, the store holds the run as its own reports in that history left it. */
  lemma {:induction false} StoredRun(db: Db, ops: seq<Op>, i: nat) returns (j: nat)
    requires DbOk(db) && Possible(db, ops) && i < |db.runs| && OnlyReported(ops, db.runs[i].id)
    ensures j < |AfterOps(db, ops).runs|
    ensures AfterOps(db, ops).runs[j] == Deliver(db.runs[i], ReportsOn(ops, db.runs[i].id))
    decreases |ops|
  {
    if ops == [] {
      j := i;
    } else {
      var op, rest, id := ops[0], ops[1..], db.runs[i].id;
      var k := OneOperation(db, op, i);
      var next := Effect(db, op);
      EffectOk(db, op);
      SameId(db.runs[i], ReportOn(op, id));
      hide DbOk, Effect, Allowed, Deliver;
      assert forall k :: 0 <= k < |rest| ==> rest[k] == ops[k + 1];
      j := StoredRun(next, rest, k);
      DeliverConcat(db.runs[i], ReportOn(op, id), ReportsOn(rest, id));
    }
  }

  lemma {:induction false} SameId(run: Run, reports: seq<Report>)
    ensures Deliver(run, reports).id == run.id
    decreases |reports|
  {
    if reports != [] {
      SameId(run, reports[..|reports| - 1]);
    }
  }

  /**
   In the store: whatever else happens meanwhile, a run that covers its plan and receives the
   reports of one interleaving of that plan, in order, ends with the status its jobs earned.
   */
  lemma StoredRunEndsRight(db: Db, ops: seq<Op>, i: nat, p: Plan, acts: seq<Action>) returns (j: nat)
    requires DbOk(db) && Possible(db, ops) && i < |db.runs| && OnlyReported(ops, db.runs[i].id)
    requires ValidPlan(p) && Admissible(p, acts) && After(p, acts).control.Returned?
    requires Untouched(db.runs[i]) && Covers(Levels(p), StepNames(db.runs[i]))
    requires ReportsOn(ops, db.runs[i].id) == After(p, acts).reports
    ensures j < |AfterOps(db, ops).runs| && AfterOps(db, ops).runs[j].id == db.runs[i].id
    ensures ShowsEarned(p, AfterOps(db, ops).runs[j])
  {
    j := StoredRun(db, ops, i);
    SameId(db.runs[i], ReportsOn(ops, db.runs[i].id));
    FinalStatus(p, acts, db.runs[i]);
    hide DbOk, Possible, Covers, Levels, Untouched, Deliver, Admissible, ValidPlan;
  }

  // ----- Submissions -----

  lemma DefinitionStays(db: Db, op: Op, id: string)
    requires FindDefinition(db.definitions, id) < |db.definitions|
    ensures FindDefinition(Effect(db, op).definitions, id) < |Effect(db, op).definitions|
  {
    var k := FindDefinition(db.definitions, id);
    var after := Effect(db, op).definitions;
    hide Upsert, Tally, LogOf;
    var shift := if |after| > |db.definitions| then 1 else 0;
    assert after[k + shift].id == id;
  }

  lemma {:induction false} DefinitionKept(db: Db, ops: seq<Op>, id: string)
    requires FindDefinition(db.definitions, id) < |db.definitions|
    ensures FindDefinition(AfterOps(db, ops).definitions, id) < |AfterOps(db, ops).definitions|
    decreases |ops|
  {
    if ops != [] {
      DefinitionStays(db, ops[0], id);
      DefinitionKept(Effect(db, ops[0]), ops[1..], id);
    }
  }

  function JobsOf(db: Db, definitionId: string): seq<Job> {
    var d := FindDefinition(db.definitions, definitionId);
    if d < |db.definitions| then db.definitions[d].body.jobs else []
  }

  /** The plan a dispatch executes: the definition as the store holds it at that time. */
  function DispatchedPlan(db: Db, definitionId: string, invoke: Oracle): Plan {
    PlanOf(JobsOf(db, definitionId), invoke)
  }

  /** A submission for a stored definition that the store takes. */
  ghost predicate Submitted(db: Db, op: Op) {
    && DbOk(db) && op.OpSubmit? && op.definitionId != ""
    && Allowed(db, op) && Response(db, op).Ok?
  }

  /** The new run is in front, with the steps of the definition it was submitted for. */
  lemma SubmittedRun(db: Db, op: Op)
    requires Submitted(db, op)
    ensures var next := Effect(db, op);
            && DbOk(next) && |next.runs| > 0 && next.runs[0].id == op.newId && Untouched(next.runs[0])
            && next.runs[0].steps == StepsFromDefinition(JobsOf(db, op.definitionId))
            && FindDefinition(next.definitions, op.definitionId) < |next.definitions|
  {
    EffectOk(db, op);
    var body := db.definitions[FindDefinition(db.definitions, op.definitionId)].body;
    SubmissionCovers(body, (n, payload, k) => Answer(""), Effect(db, op).runs[0]);
  }

  /** Stored definitions have passed the validator, so whatever a dispatch finds is a valid plan. */
  lemma DispatchedValid(db: Db, op: Op, between: seq<Op>, invoke: Oracle)
    requires Submitted(db, op) && Possible(Effect(db, op), between)
    ensures var later := AfterOps(Effect(db, op), between);
            && FindDefinition(later.definitions, op.definitionId) < |later.definitions|
            && ValidPlan(DispatchedPlan(later, op.definitionId, invoke))
  {
    SubmittedRun(db, op);
    var next := Effect(db, op);
    HistoryOk(next, between);
    DefinitionKept(next, between, op.definitionId);
    var later := AfterOps(next, between);
    AcceptedIsValid(later.definitions[FindDefinition(later.definitions, op.definitionId)].body, invoke);
  }

  /**
   The definition is read again when the run is dispatched, and it may have been replaced since
   the submission. What is read is a valid plan all the same, and the status of the run is always
   earned exactly when the steps it was submitted with cover that plan.
   */
  lemma SubmissionEarnedIffCovered(db: Db, op: Op, between: seq<Op>, invoke: Oracle)
    requires Submitted(db, op) && Possible(Effect(db, op), between)
    ensures Effect(db, op).runs != []
    ensures var run := Effect(db, op).runs[0];
            var p := DispatchedPlan(AfterOps(Effect(db, op), between), op.definitionId, invoke);
            ValidPlan(p) && (AlwaysEarned(p, run) <==> Covers(Levels(p), StepNames(run)))
  {
    SubmittedRun(db, op);
    DispatchedValid(db, op, between, invoke);
    var run := Effect(db, op).runs[0];
    var p := DispatchedPlan(AfterOps(Effect(db, op), between), op.definitionId, invoke);
    hide DbOk, Effect, AfterOps, Possible, Submitted, Covers, Levels, Untouched, ValidPlan, DispatchedPlan;
    EarnedIffCovered(p, run);
  }

  /** Replacing the definition by one with the same jobs does no harm. */
  lemma SameJobsCover(db: Db, op: Op, p: Plan)
    requires Submitted(db, op) && ValidPlan(p) && p == DispatchedPlan(db, op.definitionId, p.invoke)
    ensures Effect(db, op).runs != [] && Covers(Levels(p), StepNames(Effect(db, op).runs[0]))
  {
    var d := FindDefinition(db.definitions, op.definitionId);
    SubmissionCovers(db.definitions[d].body, p.invoke, Effect(db, op).runs[0]);
  }

  lemma {:induction false} PossiblePrefix(db: Db, ops: seq<Op>, at: nat)
    requires Possible(db, ops) && at <= |ops|
    ensures Possible(db, ops[..at])
    decreases |ops|
  {
    if at > 0 {
      PossiblePrefix(Effect(db, ops[0]), ops[1..], at - 1);
      assert ops[..at][1..] == ops[1..][..at - 1];
    }
  }

  /**
   End to end: submitted, dispatched after `at` further operations that left the jobs of its
   definition as they were, and executed in any interleaving while the store serves other
   operations, a run never gets stuck, and once the executor has returned and its reports have
   arrived the store shows the status the jobs earned.
   */
  lemma SubmittedRunEndsRight(db: Db, op: Op, ops: seq<Op>, at: nat, invoke: Oracle, acts: seq<Action>) returns (j: nat)
    requires Submitted(db, op) && at <= |ops| && Possible(Effect(db, op), ops) && OnlyReported(ops, op.newId)
    requires JobsOf(AfterOps(Effect(db, op), ops[..at]), op.definitionId) == JobsOf(db, op.definitionId)
    requires Admissible(DispatchedPlan(AfterOps(Effect(db, op), ops[..at]), op.definitionId, invoke), acts)
    ensures var p := DispatchedPlan(AfterOps(Effect(db, op), ops[..at]), op.definitionId, invoke);
            var end := AfterOps(Effect(db, op), ops);
            && ValidPlan(p) && !After(p, acts).control.Stuck?
            && (After(p, acts).control.Returned? && ReportsOn(ops, op.newId) == After(p, acts).reports ==>
                  j < |end.runs| && end.runs[j].id == op.newId && ShowsEarned(p, end.runs[j]))
  {
    var next := Effect(db, op);
    var p := DispatchedPlan(AfterOps(next, ops[..at]), op.definitionId, invoke);
    PossiblePrefix(next, ops, at);
    DispatchedValid(db, op, ops[..at], invoke);
    SubmittedRun(db, op);
    SameJobsCover(db, op, p);
    hide DbOk, Effect, Possible, Submitted, Covers, Levels, Untouched, ValidPlan, DispatchedPlan, Admissible, OnlyReported, ReportsOn, ShowsEarned;
    T.NeverStuck(p, acts);
    j := 0;
    if After(p, acts).control.Returned? && ReportsOn(ops, op.newId) == After(p, acts).reports {
      j := StoredRunEndsRight(next, ops, 0, p, acts);
    }
  }

  // ----- A definition that changes under a run -----

  function Independent(name: Name): Job {
    Job(name, "function", "run", "", [], Resources("", "", 0), 0)
  }

  /** A definition of jobs that do not depend on each other. */
  function Nightly(names: seq<Name>): Request {
    Request("prj-demo", "nightly", "1", "functions", seq(|names|, i requires 0 <= i < |names| => Independent(names[i])))
  }

  ghost predicate JobNames(names: seq<Name>) {
    names != [] && Distinct(names) && "" !in names
  }

  ghost function NameSet(names: seq<Name>): set<Name> {
    set n | n in names
  }

  lemma NightlyAcyclic(jobs: seq<Job>)
    requires forall i :: 0 <= i < |jobs| ==> jobs[i].dependsOn == []
    ensures Acyclic(DepsOf(jobs))
  {
    var g := DepsOf(jobs);
    forall n | n in g
      ensures g[n] == []
    {
      assert ByName(jobs)[n] in jobs;
    }
    hide DepsOf;
    assert forall path :: IsCycle(g, path) ==> path[0] in g && path[1] in g[path[0]];
  }

  lemma NightlyAccepted(names: seq<Name>)
    requires JobNames(names)
    ensures Accepted(Nightly(names))
  {
    var r := Nightly(names);
    assert !Blank("run") by { assert !IsSpace("run"[0]); }
    NightlyAcyclic(r.jobs);
    hide Acyclic, Blank;
    assert forall i :: 0 <= i < |r.jobs| ==> r.jobs[i] == Independent(names[i]) && names[i] in names;
  }

  /** Without dependencies all jobs are at depth zero. */
  lemma FlatLevels(p: Plan)
    requires ValidPlan(p) && forall n :: n in p.jobs ==> p.jobs[n].dependsOn == []
    ensures forall n :: n in Levels(p) ==> Levels(p)[n] == 0
  {
    LevelsRanked(p);
  }

  lemma NightlyLevels(names: seq<Name>, invoke: Oracle)
    requires JobNames(names)
    ensures var p := PlanOf(Nightly(names).jobs, invoke);
            ValidPlan(p) && (forall n :: n in Levels(p) ==> Levels(p)[n] == 0) && forall n :: n in Levels(p) <==> n in names
  {
    NightlyAccepted(names);
    var r := Nightly(names);
    AcceptedIsValid(r, invoke);
    var p := PlanOf(r.jobs, invoke);
    assert forall i :: 0 <= i < |names| ==> r.jobs[i].name == names[i] && r.jobs[i].dependsOn == [];
    hide Accepted, JobNames, ValidPlan, ByName, Nightly, Independent;
    FlatLevels(p);
    hide Levels;
    forall n
      ensures n in names <==> n in Names(r.jobs)
    {
      if n in names {
        var i :| 0 <= i < |names| && names[i] == n;
        assert r.jobs[i].name == n;
      }
    }
  }

  /** So the status of a fresh run is always earned exactly when its steps are the jobs. */
  lemma NightlyEarnedIff(names: seq<Name>, invoke: Oracle, run: Run)
    requires JobNames(names) && Untouched(run)
    ensures ValidPlan(PlanOf(Nightly(names).jobs, invoke))
    ensures AlwaysEarned(PlanOf(Nightly(names).jobs, invoke), run) <==> StepNames(run) == NameSet(names)
  {
    NightlyLevels(names, invoke);
    var p := PlanOf(Nightly(names).jobs, invoke);
    hide PlanOf, Nightly, Levels, ValidPlan, JobNames, Untouched, StepNames, AlwaysEarned;
    FlatCovers(Levels(p), StepNames(run), names);
    hide Covers, NameSet;
    EarnedIffCovered(p, run);
  }

  lemma FlatCovers(level: map<Name, nat>, given: set<Name>, names: seq<Name>)
    requires (forall n :: n in level ==> level[n] == 0) && forall n :: n in level <==> n in names
    ensures Covers(level, given) <==> given == NameSet(names)
  {
  }

  /** Defined with the jobs `a`, submitted, redefined with the jobs `b`, retried. */
  function Edited(a: seq<Name>, b: seq<Name>): seq<Op> {
    [OpDefine("", Nightly(a), "definition"), OpSubmit("prj-demo", "definition", "", "run-1"),
     OpDefine("definition", Nightly(b), ""), OpRetry("run-1", "run-2")]
  }

  lemma FirstOperation(db: Db, ops: seq<Op>, next: Db)
    requires ops != [] && Allowed(db, ops[0]) && next == Effect(db, ops[0])
    ensures Possible(next, ops[1..]) ==> Possible(db, ops)
    ensures AfterOps(db, ops) == AfterOps(next, ops[1..])
  {
  }

  /** The four operations one by one, from a fresh store. */
  lemma EditedEffects(a: seq<Name>, b: seq<Name>) returns (defined: Db, submitted: Db, redefined: Db, run: Run)
    requires JobNames(a) && JobNames(b)
    ensures var ops, retried := Edited(a, b), redefined.(runs := [RetryOf(run, "run-2")] + redefined.runs);
            && Allowed(SEED, ops[0]) && Effect(SEED, ops[0]) == defined
            && Allowed(defined, ops[1]) && Effect(defined, ops[1]) == submitted
            && Allowed(submitted, ops[2]) && Effect(submitted, ops[2]) == redefined
            && Allowed(redefined, ops[3]) && Effect(redefined, ops[3]) == retried
    ensures redefined.runs == [run] + SEED.runs && JobsOf(redefined, "definition") == Nightly(b).jobs
    ensures run.id == "run-1" && run.status == RunQueued && run.progress == 0
    ensures run.steps == StepsFromDefinition(Nightly(a).jobs)
  {
    NightlyAccepted(a);
    NightlyAccepted(b);
    defined := SEED.(definitions := [Definition("definition", Nightly(a))]);
    run := NewRun("run-1", "prj-demo", RunName("", "nightly"), "definition", "functions", StepsFromDefinition(Nightly(a).jobs));
    submitted := defined.(runs := [run] + SEED.runs);
    redefined := submitted.(definitions := [Definition("definition", Nightly(b))]);
    hide Accepted, StepsFromDefinition, RetryOf, RunName, JobNames, DefaultSteps;
    var ops := Edited(a, b);
    assert Effect(SEED, ops[0]) == defined && Effect(defined, ops[1]) == submitted;
    assert Effect(submitted, ops[2]) == redefined;
  }

  /** The history is possible, and leaves run and retry with the steps `a` and the definition with the jobs `b`. */
  lemma EditedHistory(a: seq<Name>, b: seq<Name>)
    requires JobNames(a) && JobNames(b)
    ensures Possible(SEED, Edited(a, b))
    ensures var end := AfterOps(SEED, Edited(a, b));
            && JobsOf(end, "definition") == Nightly(b).jobs && |end.runs| == 3
            && end.runs[1].id == "run-1" && Untouched(end.runs[1]) && StepNames(end.runs[1]) == NameSet(a)
            && end.runs[0].parentId == "run-1" && Untouched(end.runs[0]) && StepNames(end.runs[0]) == NameSet(a)
  {
    var defined, submitted, redefined, run := EditedEffects(a, b);
    NightlyAccepted(a);
    SubmissionCovers(Nightly(a), (n, payload, k) => Answer(""), run);
    NightlySteps(a, run);
    FreshStepsOk(run);
    RetryUntouched(run, "run-2");
    var ops := Edited(a, b);
    hide Effect, Allowed, Accepted, Covers, RunOk, StepsFromDefinition, Nightly, Untouched, StepNames, Edited;
    FirstOperation(SEED, ops, defined);
    FirstOperation(defined, ops[1..], submitted);
    FirstOperation(submitted, ops[1..][1..], redefined);
    FirstOperation(redefined, ops[1..][1..][1..], redefined.(runs := [RetryOf(run, "run-2")] + redefined.runs));
    assert ops[1..][1..][1..][1..] == [];
  }

  /**
   Whatever the jobs before and after the change: the status of the submitted run, if it is
   dispatched only after the change, and that of the retry are always earned exactly when
   the change kept the job names.
   */
  lemma EditedEarnedIff(a: seq<Name>, b: seq<Name>, invoke: Oracle, k: nat)
    requires JobNames(a) && JobNames(b) && k < 2
    ensures var end := AfterOps(SEED, Edited(a, b));
            && k < |end.runs| && ValidPlan(DispatchedPlan(end, "definition", invoke))
            && (AlwaysEarned(DispatchedPlan(end, "definition", invoke), end.runs[k]) <==> NameSet(a) == NameSet(b))
  {
    EditedHistory(a, b);
    var end := AfterOps(SEED, Edited(a, b));
    hide AfterOps, Edited, Possible, Nightly, Untouched, StepNames, JobNames, PlanOf;
    NightlyEarnedIff(b, invoke, end.runs[k]);
  }

  lemma NightlySteps(names: seq<Name>, run: Run)
    requires run.steps == StepsFromDefinition(Nightly(names).jobs)
    ensures StepNames(run) == NameSet(names)
  {
    assert |run.steps| == |names|;
    assert forall i :: 0 <= i < |names| ==> run.steps[i].name == names[i];
    forall n | n in names
      ensures n in StepNames(run)
    {
      var i :| 0 <= i < |names| && names[i] == n;
      assert run.steps[i].name == n;
    }
  }

  lemma TwoNames()
    ensures JobNames(["prepare"]) && JobNames(["prepare", "train"])
    ensures NameSet(["prepare"]) != NameSet(["prepare", "train"])
  {
    assert ["prepare", "train"][1] == "train" && |"prepare"| != |"train"|;
    assert "train" in NameSet(["prepare", "train"]) && "train" !in NameSet(["prepare"]);
  }

  /** A job joins the definition between submission and dispatch, or between a run and its retry. */
  lemma AddedJobSpoils(invoke: Oracle)
    ensures var end := AfterOps(SEED, Edited(["prepare"], ["prepare", "train"]));
            && Possible(SEED, Edited(["prepare"], ["prepare", "train"])) && |end.runs| == 3
            && var p := DispatchedPlan(end, "definition", invoke);
            !AlwaysEarned(p, end.runs[1]) && !AlwaysEarned(p, end.runs[0])
  {
    TwoNames();
    EditedHistory(["prepare"], ["prepare", "train"]);
    EditedEarnedIff(["prepare"], ["prepare", "train"], invoke, 0);
    EditedEarnedIff(["prepare"], ["prepare", "train"], invoke, 1);
    hide *;
  }

  /** A job leaves the definition. */
  lemma LostJobSpoils(invoke: Oracle)
    ensures var end := AfterOps(SEED, Edited(["prepare", "train"], ["prepare"]));
            && Possible(SEED, Edited(["prepare", "train"], ["prepare"])) && |end.runs| == 3
            && var p := DispatchedPlan(end, "definition", invoke);
            !AlwaysEarned(p, end.runs[1]) && !AlwaysEarned(p, end.runs[0])
  {
    TwoNames();
    EditedHistory(["prepare", "train"], ["prepare"]);
    EditedEarnedIff(["prepare", "train"], ["prepare"], invoke, 0);
    EditedEarnedIff(["prepare", "train"], ["prepare"], invoke, 1);
    hide *;
  }
}
