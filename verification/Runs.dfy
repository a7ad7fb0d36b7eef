/**
 Pipeline runs and the operations of the run store on plain values: submit, report,
 cancel, engine link, retry, and the definition upsert that submissions draw on.
 */
module Runs {
  import opened Wrappers
  import opened Graph
  import opened Pipelines

  datatype RunStatus = RunQueued | RunRunning | RunSucceeded | RunFailed | RunCancelled

  datatype Step = Step(name: Name, status: StepStatus, image: string, dependsOn: seq<Name>, progress: int)

  datatype Log = Log(step: string, level: string, message: string)

  datatype Run = Run(id: string, projectId: string, name: string, status: RunStatus, progress: int,
                     parentId: string, engineId: string, definitionId: string, mode: string,
                     steps: seq<Step>, logs: seq<Log>)

  datatype Definition = Definition(id: string, body: Request)

  datatype Db = Db(projects: set<string>, definitions: seq<Definition>, runs: seq<Run>)

  datatype StoreError = NotFound | Invalid | Rejected(reason: ValidationError)

  // ----- Step transitions -----

  predicate IsFinished(s: StepStatus) { s.Succeeded? || s.Skipped? }

  predicate IsTerminal(s: RunStatus) { s.RunSucceeded? || s.RunFailed? || s.RunCancelled? }

  function WithStatus(step: Step, status: StepStatus): Step {
    step.(status := status, progress := if IsFinished(status) then 100 else step.progress)
  }

  function NewStep(name: Name, status: StepStatus): Step {
    WithStatus(Step(name, status, "", [], 0), status)
  }

  /** Sets the status of the first step of that name, or appends a new step. */
  function Upsert(steps: seq<Step>, name: Name, status: StepStatus): seq<Step> {
    if steps == [] then [NewStep(name, status)]
    else if steps[0].name == name then [WithStatus(steps[0], status)] + steps[1..]
    else [steps[0]] + Upsert(steps[1..], name, status)
  }

  /** The number of steps whose status is one of `which`. */
  function Tally(steps: seq<Step>, which: set<StepStatus>): nat {
    if steps == [] then 0
    else Tally(steps[..|steps| - 1], which) + (if steps[|steps| - 1].status in which then 1 else 0)
  }

  const FINISHED: set<StepStatus> := {Succeeded, Skipped}

  /** The run status that the step statuses call for; a run with only pending steps keeps its own. */
  function Recomputed(steps: seq<Step>, current: RunStatus): RunStatus {
    if Tally(steps, {Failed}) > 0 then RunFailed
    else if Tally(steps, FINISHED) == |steps| then RunSucceeded
    else if Tally(steps, {Running}) > 0 || Tally(steps, FINISHED) > 0 then RunRunning
    else current
  }

  /** Whole per cent, rounded down. */
  function Percent(done: nat, total: nat): int
    requires total > 0
  {
    done * 100 / total
  }

  function Transition(run: Run, name: Name, status: StepStatus): Run {
    var steps := Upsert(run.steps, name, status);
    var progress := if |steps| > 0 then Percent(Tally(steps, FINISHED), |steps|) else run.progress;
    var all := Tally(steps, {Failed}) == 0 && Tally(steps, FINISHED) == |steps|;
    run.(steps := steps, status := Recomputed(steps, run.status), progress := if all then 100 else progress)
  }

  function StatusText(s: StepStatus): string {
    match s
    case Pending => "pending"
    case Running => "running"
    case Succeeded => "succeeded"
    case Failed => "failed"
    case Skipped => "skipped"
  }

  function ParseStatus(text: string): Option<StepStatus> {
    if text == "pending" then Some(Pending)
    else if text == "running" then Some(Running)
    else if text == "succeeded" then Some(Succeeded)
    else if text == "failed" then Some(Failed)
    else if text == "skipped" then Some(Skipped)
    else None
  }

  function LogOf(r: Report): Log {
    Log(r.step, if r.status.Failed? then "error" else "info",
        if r.message != "" then r.message else "step " + r.step + " " + StatusText(r.status))
  }

  /** A report is always logged; a run that has ended ignores it otherwise. */
  function WithReport(run: Run, r: Report): Run {
    var logged := run.(logs := run.logs + [LogOf(r)]);
    if IsTerminal(run.status) then logged else Transition(logged, r.step, r.status)
  }

  // ----- Operations -----

  /** The position of the first run with that id, or the number of runs. */
  function Find(runs: seq<Run>, id: string): (i: nat)
    ensures i <= |runs| && (i < |runs| ==> runs[i].id == id)
    ensures forall j :: 0 <= j < i ==> runs[j].id != id
  {
    if runs == [] || runs[0].id == id then 0 else 1 + Find(runs[1..], id)
  }

  function FindDefinition(definitions: seq<Definition>, id: string): (i: nat)
    ensures i <= |definitions| && (i < |definitions| ==> definitions[i].id == id)
    ensures forall j :: 0 <= j < |definitions| && definitions[j].id == id ==> i <= j
  {
    if definitions == [] || definitions[0].id == id then 0 else 1 + FindDefinition(definitions[1..], id)
  }

  function ReportStep(db: Db, id: string, step: Name, status: string, message: string): Result<Db, StoreError> {
    if step == "" || ParseStatus(status).None? then Err(Invalid)
    else
      var i := Find(db.runs, id);
      if i == |db.runs| then Err(NotFound)
      else Ok(db.(runs := db.runs[i := WithReport(db.runs[i], Report(step, ParseStatus(status).value, message))]))
  }

  function Cancelled(run: Run, actor: string): Run {
    run.(status := RunCancelled, logs := run.logs + [Log("", "warning", "Run cancelled by " + actor)])
  }

  function Cancel(db: Db, id: string, actor: string): Result<Db, StoreError> {
    var i := Find(db.runs, id);
    if i == |db.runs| then Err(NotFound)
    else if db.runs[i].status.RunSucceeded? || db.runs[i].status.RunFailed? then Err(Invalid)
    else Ok(db.(runs := db.runs[i := Cancelled(db.runs[i], actor)]))
  }

  function Link(db: Db, id: string, engine: string): Result<Db, StoreError> {
    var i := Find(db.runs, id);
    if i == |db.runs| then Err(NotFound)
    else Ok(db.(runs := db.runs[i := db.runs[i].(engineId := engine)]))
  }

  function ResetSteps(steps: seq<Step>): seq<Step> {
    seq(|steps|, i requires 0 <= i < |steps| => steps[i].(status := Pending, progress := 0))
  }

  function RetryOf(run: Run, newId: string): Run {
    run.(id := newId, parentId := run.id, status := RunQueued, progress := 0, engineId := "",
         steps := ResetSteps(run.steps), logs := [Log("", "info", "Retry created from " + run.id)])
  }

  function Retry(db: Db, id: string, newId: string): Result<Db, StoreError> {
    var i := Find(db.runs, id);
    if i == |db.runs| then Err(NotFound)
    else Ok(db.(runs := [RetryOf(db.runs[i], newId)] + db.runs))
  }

  const RUNNER := "mlaiops/pipeline-runner:latest"

  function DefaultSteps(status: StepStatus, progress: int): seq<Step> {
    [Step("validate-data", status, RUNNER, [], progress),
     Step("train-model", status, RUNNER, ["validate-data"], progress),
     Step("evaluate", status, RUNNER, ["train-model"], progress),
     Step("register-model", status, RUNNER, ["evaluate"], progress)]
  }

  function StepsFromDefinition(jobs: seq<Job>): seq<Step> {
    seq(|jobs|, i requires 0 <= i < |jobs| =>
          Step(jobs[i].name, Pending,
               if jobs[i].kind == "function" then "function://" + jobs[i].function_ else jobs[i].image,
               jobs[i].dependsOn, 0))
  }

  function NewRun(id: string, projectId: string, name: string, definitionId: string, mode: string, steps: seq<Step>): Run {
    Run(id, projectId, name, RunQueued, 0, "", "", definitionId, mode, steps,
        [Log("", "info", "Run accepted by control plane")])
  }

  function RunName(given: string, fallback: string): string {
    if Trim(given) != "" then Trim(given) else if Trim(fallback) != "" then Trim(fallback) else "training-pipeline"
  }

  /** The run a submission creates: the stored definition's steps, or the default training steps. */
  function Submission(db: Db, projectId: string, definitionId: string, name: string, newId: string): Result<Run, StoreError> {
    if projectId !in db.projects then Err(NotFound)
    else if definitionId == "" then
      Ok(NewRun(newId, projectId, RunName(name, ""), "", "prefect", DefaultSteps(Pending, 0)))
    else
      var i := FindDefinition(db.definitions, definitionId);
      if i == |db.definitions| || db.definitions[i].body.projectId != projectId then Err(NotFound)
      else
        var body := db.definitions[i].body;
        Ok(NewRun(newId, projectId, RunName(name, body.name), definitionId, body.executionMode,
                  StepsFromDefinition(body.jobs)))
  }

  function Submit(db: Db, projectId: string, definitionId: string, name: string, newId: string): Result<Db, StoreError> {
    match Submission(db, projectId, definitionId, name, newId)
    case Ok(run) => Ok(db.(runs := [run] + db.runs))
    case Err(e) => Err(e)
  }

  /** The stored definition an upsert updates, or the number of definitions. */
  function FindForUpsert(definitions: seq<Definition>, id: string, body: Request): (i: nat)
    ensures i <= |definitions|
  {
    if definitions == [] then 0
    else
      var d := definitions[0];
      if d.id == id || (id == "" && d.body.projectId == body.projectId && d.body.name == body.name && d.body.version == body.version)
      then 0 else 1 + FindForUpsert(definitions[1..], id, body)
  }

  /** Stores a request that the validator accepted; updating keeps the project and the id. */
  function StoreDefinition(db: Db, id: string, body: Request, newId: string): Result<Db, StoreError> {
    if body.projectId !in db.projects then Err(NotFound)
    else
      var i := FindForUpsert(db.definitions, id, body);
      if i < |db.definitions| then
        var old_ := db.definitions[i];
        Ok(db.(definitions := db.definitions[i := old_.(body := body.(projectId := old_.body.projectId))]))
      else Ok(db.(definitions := [Definition(newId, body)] + db.definitions))
  }

  /** A fresh store: the demo project with one finished run. */
  const SEED := Db({"prj-demo"}, [],
                   [Run("run-demo", "prj-demo", "training-pipeline", RunSucceeded, 100, "", "", "", "",
                        DefaultSteps(Succeeded, 100), [])])

  datatype Op =
    | OpSubmit(projectId: string, definitionId: string, name: string, newId: string)
    | OpReport(id: string, step: Name, status: string, message: string)
    | OpCancel(id: string, actor: string)
    | OpLink(id: string, engine: string)
    | OpRetry(id: string, newId: string)
    | OpDefine(id: string, body: Request, newId: string)

  function Response(db: Db, op: Op): Result<Db, StoreError> {
    match op
    case OpSubmit(p, d, n, i) => Submit(db, p, d, n, i)
    case OpReport(i, s, t, m) => ReportStep(db, i, s, t, m)
    case OpCancel(i, a) => Cancel(db, i, a)
    case OpLink(i, e) => Link(db, i, e)
    case OpRetry(i, n) => Retry(db, i, n)
    case OpDefine(i, b, n) => StoreDefinition(db, i, b, n)
  }

  /** An operation that is refused changes nothing. */
  function Effect(db: Db, op: Op): Db {
    match Response(db, op) case Ok(next) => next case Err(_) => db
  }

  /** New ids are unused and stored definitions have passed the validator. */
  ghost predicate Allowed(db: Db, op: Op) {
    match op
    case OpSubmit(_, _, _, newId) => forall i :: 0 <= i < |db.runs| ==> db.runs[i].id != newId
    case OpRetry(_, newId) => forall i :: 0 <= i < |db.runs| ==> db.runs[i].id != newId
    case OpDefine(_, body, _) => Accepted(body)
    case _ => true
  }

  ghost predicate Possible(db: Db, ops: seq<Op>)
    decreases |ops|
  {
    ops == [] || (Allowed(db, ops[0]) && Possible(Effect(db, ops[0]), ops[1..]))
  }

  function AfterOps(db: Db, ops: seq<Op>): Db
    decreases |ops|
  {
    if ops == [] then db else AfterOps(Effect(db, ops[0]), ops[1..])
  }
}
