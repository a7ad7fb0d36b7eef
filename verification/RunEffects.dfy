/** What each operation of the run store answers and changes, field by field. */
module RunEffects {
  import opened Wrappers
  import opened Graph
  import opened Pipelines
  import opened Trimming
  import opened Runs
  import opened RunTheorems

  ghost predicate HasRun(db: Db, id: string) {
    exists i :: 0 <= i < |db.runs| && db.runs[i].id == id
  }

  /** Only the run at `i` differs, and definitions and projects do not. */
  ghost predicate OnlyRun(before: Db, after: Db, i: nat) {
    && i < |before.runs| && |after.runs| == |before.runs|
    && (forall k :: 0 <= k < |before.runs| && k != i ==> after.runs[k] == before.runs[k])
    && after.definitions == before.definitions && after.projects == before.projects
  }

  /** One run has been put in front of the others. */
  ghost predicate OneAdded(before: Db, after: Db) {
    && |after.runs| == |before.runs| + 1
    && (forall k :: 0 <= k < |before.runs| ==> after.runs[k + 1] == before.runs[k])
    && after.definitions == before.definitions && after.projects == before.projects
  }

  /** What never changes in a run once it has been created. */
  ghost predicate SameOrigin(before: Run, after: Run) {
    && after.id == before.id && after.projectId == before.projectId && after.name == before.name
    && after.parentId == before.parentId && after.definitionId == before.definitionId && after.mode == before.mode
  }

  // ----- Reports -----

  /** The five words for a step status. */
  lemma StatusWords(text: string, s: StepStatus)
    ensures ParseStatus(text) == Some(s) <==> (text, s) in {("pending", Pending), ("running", Running),
              ("succeeded", Succeeded), ("failed", Failed), ("skipped", Skipped)}
    ensures ParseStatus(text).Some? <==> text in {"pending", "running", "succeeded", "failed", "skipped"}
    ensures StatusText(s) == text <==> ParseStatus(text) == Some(s)
  {
  }

  ghost predicate LoggedAs(r: Report, log: Log) {
    && log.step == r.step && log.level == (if r.status == Failed then "error" else "info")
    && (r.message != "" ==> log.message == r.message)
    && (r.message == "" ==> exists word :: ParseStatus(word) == Some(r.status) && log.message == "step " + r.step + " " + word)
  }

  /** Step `k` has been set to the reported status; it was the first of that name, or has been added at the end. */
  ghost predicate StepSet(before: seq<Step>, after: seq<Step>, r: Report, k: nat) {
    && k < |after| && after[k].name == r.step && after[k].status == r.status
    && (forall i :: 0 <= i < k ==> i < |before| && after[i] == before[i] && before[i].name != r.step)
    && (forall i :: k < i < |after| ==> i < |before| && after[i] == before[i])
    && (if k < |before|
        then |after| == |before| && after[k].image == before[k].image && after[k].dependsOn == before[k].dependsOn
             && before[k].name == r.step
             && after[k].progress == (if r.status in {Succeeded, Skipped} then 100 else before[k].progress)
        else |after| == |before| + 1 && after[k].image == "" && after[k].dependsOn == []
             && after[k].progress == (if r.status in {Succeeded, Skipped} then 100 else 0))
  }

  /** Failed with a failed step, succeeded with none unfinished, running once anything has begun. */
  ghost predicate StatusOf(steps: seq<Step>, before: RunStatus, after: RunStatus) {
    if exists i :: 0 <= i < |steps| && steps[i].status == Failed then after == RunFailed
    else if forall i :: 0 <= i < |steps| ==> steps[i].status in {Succeeded, Skipped} then after == RunSucceeded
    else if exists i :: 0 <= i < |steps| && steps[i].status != Pending then after == RunRunning
    else after == before
  }

  lemma RecomputedIs(steps: seq<Step>, before: RunStatus)
    ensures StatusOf(steps, before, Recomputed(steps, before))
  {
    TallyMeans(steps, FINISHED);
    TallyMeans(steps, {Failed});
    TallyMeans(steps, {Running});
    hide Tally;
    assert forall i :: 0 <= i < |steps| && steps[i].status != Pending ==>
             steps[i].status in FINISHED || steps[i].status in {Failed} || steps[i].status in {Running};
  }

  /** A report is logged; a live run takes the step and recomputes its status, an ended one keeps everything else. */
  lemma ReportEffect(run: Run, r: Report) returns (k: nat)
    ensures var after := WithReport(run, r);
            && SameOrigin(run, after) && after.engineId == run.engineId
            && |after.logs| == |run.logs| + 1 && run.logs <= after.logs && LoggedAs(r, after.logs[|run.logs|])
            && (run.status in {RunSucceeded, RunFailed, RunCancelled} ==>
                  after.steps == run.steps && after.status == run.status && after.progress == run.progress)
            && (run.status in {RunQueued, RunRunning} ==>
                  StepSet(run.steps, after.steps, r, k) && StatusOf(after.steps, run.status, after.status))
  {
    k := UpsertShape(run.steps, r.step, r.status);
    RecomputedIs(Upsert(run.steps, r.step, r.status), run.status);
    StatusWords(StatusText(r.status), r.status);
    hide Upsert, Tally, Recomputed, StatusOf, StatusText, ParseStatus;
  }

  /** A report is taken exactly for a named step, one of the five words and a run that is there. */
  lemma ReportTakenIff(db: Db, id: string, step: Name, status: string, message: string)
    ensures Response(db, OpReport(id, step, status, message)).Ok?
       <==> step != "" && status in {"pending", "running", "succeeded", "failed", "skipped"} && HasRun(db, id)
    ensures Response(db, OpReport(id, step, status, message)) == Err(NotFound)
       <==> step != "" && status in {"pending", "running", "succeeded", "failed", "skipped"} && !HasRun(db, id)
    ensures Response(db, OpReport(id, step, status, message)).Ok? ==>
              exists i: nat, s :: OnlyRun(db, Effect(db, OpReport(id, step, status, message)), i)
                && ParseStatus(status) == Some(s) && db.runs[i].id == id
                && Effect(db, OpReport(id, step, status, message)).runs[i] == WithReport(db.runs[i], Report(step, s, message))
  {
    StatusWords(status, Pending);
    FindFinds(db, id);
    hide WithReport, ParseStatus;
    if Response(db, OpReport(id, step, status, message)).Ok? {
      var i, s := Find(db.runs, id), ParseStatus(status).value;
      assert OnlyRun(db, Effect(db, OpReport(id, step, status, message)), i);
    }
  }

  lemma FindFinds(db: Db, id: string)
    ensures Find(db.runs, id) < |db.runs| <==> HasRun(db, id)
  {
    hide Find;
    assert Find(db.runs, id) < |db.runs| ==> db.runs[Find(db.runs, id)].id == id;
  }

  // ----- Cancellation and engine links -----

  /** A cancellation is taken exactly for a run that has neither succeeded nor failed, and cancels it. */
  lemma CancelEffect(db: Db, id: string, actor: string) returns (i: nat)
    requires UniqueIds(db.runs)
    ensures Response(db, OpCancel(id, actor)).Ok?
       <==> exists k :: 0 <= k < |db.runs| && db.runs[k].id == id && db.runs[k].status !in {RunSucceeded, RunFailed}
    ensures Response(db, OpCancel(id, actor)) == Err(NotFound) <==> !HasRun(db, id)
    ensures var after := Effect(db, OpCancel(id, actor));
            if Response(db, OpCancel(id, actor)).Ok? then
              && OnlyRun(db, after, i) && db.runs[i].id == id && SameOrigin(db.runs[i], after.runs[i])
              && after.runs[i].status == RunCancelled
              && after.runs[i].steps == db.runs[i].steps && after.runs[i].progress == db.runs[i].progress
              && after.runs[i].engineId == db.runs[i].engineId
              && after.runs[i].logs == db.runs[i].logs + [Log("", "warning", "Run cancelled by " + actor)]
            else after == db
  {
    i := Find(db.runs, id);
    hide Find;
  }

  /** Whatever is reported, linked, retried or cancelled later, a cancelled run stays cancelled with the steps it had. */
  lemma CancelledForGood(db: Db, id: string, actor: string, ops: seq<Op>) returns (i: nat, j: nat)
    requires DbOk(db) && Response(db, OpCancel(id, actor)).Ok? && Possible(Effect(db, OpCancel(id, actor)), ops)
    ensures var end := AfterOps(Effect(db, OpCancel(id, actor)), ops);
            && i < |db.runs| && db.runs[i].id == id && j < |end.runs| && end.runs[j].id == id
            && end.runs[j].status == RunCancelled
            && end.runs[j].steps == db.runs[i].steps && end.runs[j].progress == db.runs[i].progress
            && db.runs[i].logs + [Log("", "warning", "Run cancelled by " + actor)] <= end.runs[j].logs
  {
    i := CancelEffect(db, id, actor);
    EffectOk(db, OpCancel(id, actor));
    hide Effect, DbOk, Response;
    j := EndedRunsFrozen(Effect(db, OpCancel(id, actor)), ops, i);
  }

  /** A link sets the engine of the run and nothing else. */
  lemma LinkEffect(db: Db, id: string, engine: string) returns (i: nat)
    ensures Response(db, OpLink(id, engine)).Ok? <==> HasRun(db, id)
    ensures var after := Effect(db, OpLink(id, engine));
            if HasRun(db, id) then
              && OnlyRun(db, after, i) && db.runs[i].id == id && after.runs[i].engineId == engine
              && SameOrigin(db.runs[i], after.runs[i]) && after.runs[i].status == db.runs[i].status
              && after.runs[i].progress == db.runs[i].progress && after.runs[i].steps == db.runs[i].steps
              && after.runs[i].logs == db.runs[i].logs
            else after == db
  {
    FindFinds(db, id);
    i := Find(db.runs, id);
    hide Find, HasRun;
  }

  // ----- Retries and submissions -----

  /** A retry keeps project, name, definition, mode and steps, all pending, and starts queued beside its parent. */
  lemma RetryEffect(db: Db, id: string, newId: string) returns (i: nat)
    ensures Response(db, OpRetry(id, newId)).Ok? <==> HasRun(db, id)
    ensures var after := Effect(db, OpRetry(id, newId));
            if HasRun(db, id) then
              && OneAdded(db, after) && i < |db.runs| && db.runs[i].id == id
              && var old_, new_ := db.runs[i], after.runs[0];
              && new_.id == newId && new_.parentId == id && new_.engineId == ""
              && new_.projectId == old_.projectId && new_.name == old_.name
              && new_.definitionId == old_.definitionId && new_.mode == old_.mode
              && new_.status == RunQueued && new_.progress == 0
              && new_.logs == [Log("", "info", "Retry created from " + id)]
              && |new_.steps| == |old_.steps|
              && forall k :: 0 <= k < |old_.steps| ==>
                   new_.steps[k] == Step(old_.steps[k].name, Pending, old_.steps[k].image, old_.steps[k].dependsOn, 0)
            else after == db
  {
    FindFinds(db, id);
    i := Find(db.runs, id);
    hide Find, HasRun;
  }

  /** The step of a job: its name and dependencies, pending, with its image or its function as one. */
  ghost predicate StepOfJob(job: Job, step: Step) {
    && step.name == job.name && step.dependsOn == job.dependsOn && step.status == Pending && step.progress == 0
    && step.image == if job.kind == "function" then "function://" + job.function_ else job.image
  }

  /** The name of a new run: the one given, else that of the definition, else a default, without white space around. */
  ghost predicate NamedAs(given: string, fallback: string, name: string) {
    if !Blank(given) then Trimmed(given, name)
    else if !Blank(fallback) then Trimmed(fallback, name)
    else name == "training-pipeline"
  }

  lemma RunNameIs(given: string, fallback: string)
    ensures NamedAs(given, fallback, RunName(given, fallback))
  {
    TrimBlank(given);
    TrimBlank(fallback);
    TrimIs(given);
    TrimIs(fallback);
  }

  ghost predicate NewlyQueued(run: Run, id: string, projectId: string, definitionId: string) {
    && run.id == id && run.projectId == projectId && run.definitionId == definitionId
    && run.parentId == "" && run.engineId == "" && run.status == RunQueued && run.progress == 0
    && run.logs == [Log("", "info", "Run accepted by control plane")]
  }

  /** The first definition with that id belongs to the project. */
  ghost predicate DefinedFor(db: Db, projectId: string, definitionId: string, d: nat) {
    && d < |db.definitions| && db.definitions[d].id == definitionId
    && (forall k :: 0 <= k < d ==> db.definitions[k].id != definitionId)
    && db.definitions[d].body.projectId == projectId
  }

  /** A submission for a definition carries its mode and a step per job. */
  lemma SubmitEffect(db: Db, projectId: string, definitionId: string, name: string, newId: string) returns (d: nat)
    requires definitionId != ""
    ensures var op := OpSubmit(projectId, definitionId, name, newId);
            var after := Effect(db, op);
            && (Response(db, op).Ok? <==> projectId in db.projects && exists k: nat :: DefinedFor(db, projectId, definitionId, k))
            && if Response(db, op).Ok? then
                 && DefinedFor(db, projectId, definitionId, d) && OneAdded(db, after)
                 && var body, run := db.definitions[d].body, after.runs[0];
                 && NewlyQueued(run, newId, projectId, definitionId)
                 && run.mode == body.executionMode && NamedAs(name, body.name, run.name)
                 && |run.steps| == |body.jobs| && forall k :: 0 <= k < |body.jobs| ==> StepOfJob(body.jobs[k], run.steps[k])
               else after == db
  {
    d := FindDefinition(db.definitions, definitionId);
    if d < |db.definitions| {
      RunNameIs(name, db.definitions[d].body.name);
      assert db.definitions[d].body.projectId == projectId ==> DefinedFor(db, projectId, definitionId, d);
    }
    hide FindDefinition, RunName, NamedAs;
  }

  /** Without a definition a run gets the four training steps, each after the one before, for the flow engine. */
  lemma DefaultSubmitEffect(db: Db, projectId: string, name: string, newId: string)
    ensures var op := OpSubmit(projectId, "", name, newId);
            var after := Effect(db, op);
            && (Response(db, op).Ok? <==> projectId in db.projects)
            && if projectId in db.projects then
                 && OneAdded(db, after) && NewlyQueued(after.runs[0], newId, projectId, "")
                 && after.runs[0].mode == "prefect" && NamedAs(name, "", after.runs[0].name)
                 && var steps := after.runs[0].steps;
                 && |steps| == 4 && steps[0].name == "validate-data" && steps[1].name == "train-model"
                 && steps[2].name == "evaluate" && steps[3].name == "register-model"
                 && (forall k :: 0 <= k < 4 ==> steps[k].status == Pending && steps[k].progress == 0
                                                && steps[k].image == "mlaiops/pipeline-runner:latest")
                 && steps[0].dependsOn == [] && forall k :: 1 <= k < 4 ==> steps[k].dependsOn == [steps[k - 1].name]
               else after == db
  {
    RunNameIs(name, "");
    hide RunName, NamedAs;
  }

  // ----- Definitions -----

  /** An upsert is about this definition: it has the given id, or none is given and project, name and version are the same. */
  ghost predicate UpsertTargets(d: Definition, id: string, body: Request) {
    || d.id == id
    || (id == "" && d.body.projectId == body.projectId && d.body.name == body.name && d.body.version == body.version)
  }

  lemma {:induction false} FindForUpsertIs(definitions: seq<Definition>, id: string, body: Request)
    ensures var i := FindForUpsert(definitions, id, body);
            && (i < |definitions| ==> UpsertTargets(definitions[i], id, body))
            && forall k :: 0 <= k < i ==> !UpsertTargets(definitions[k], id, body)
  {
    if definitions != [] {
      FindForUpsertIs(definitions[1..], id, body);
      assert forall k :: 1 <= k < |definitions| ==> definitions[k] == definitions[1..][k - 1];
    }
  }

  /**
   An upsert rewrites the first definition it is about, keeping its id and its project, or adds a new
   one in front. Every other definition, such as another version of the same name, stays as it is.
   */
  lemma DefineEffect(db: Db, id: string, body: Request, newId: string) returns (i: nat)
    ensures var op := OpDefine(id, body, newId);
            var after := Effect(db, op);
            && (Response(db, op).Ok? <==> body.projectId in db.projects)
            && after.runs == db.runs && after.projects == db.projects
            && (body.projectId !in db.projects ==> after == db)
            && (body.projectId in db.projects ==>
                  if i < |db.definitions| then
                    && UpsertTargets(db.definitions[i], id, body)
                    && |after.definitions| == |db.definitions|
                    && (forall k :: 0 <= k < |db.definitions| && k != i ==> after.definitions[k] == db.definitions[k])
                    && (forall k :: 0 <= k < i ==> !UpsertTargets(db.definitions[k], id, body))
                    && var d := after.definitions[i];
                    && d.id == db.definitions[i].id && d.body.projectId == db.definitions[i].body.projectId
                    && d.body.name == body.name && d.body.version == body.version
                    && d.body.executionMode == body.executionMode && d.body.jobs == body.jobs
                  else
                    && (forall k :: 0 <= k < |db.definitions| ==> !UpsertTargets(db.definitions[k], id, body))
                    && after.definitions == [Definition(newId, body)] + db.definitions)
  {
    i := FindForUpsert(db.definitions, id, body);
    FindForUpsertIs(db.definitions, id, body);
    hide FindForUpsert;
  }
}
