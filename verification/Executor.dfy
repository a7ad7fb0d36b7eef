/**
 The functions executor as a state machine. The scheduler plans a wave, launches its
 jobs one by one and waits at a barrier; every launched job is a goroutine that may be
 interleaved with the scheduler and with the other jobs at each access to shared state.

 A function call is an oracle: its reply may depend on the job, the payload and the
 attempt. Since no job calls twice with the same attempt number, quantifying over all
 oracles covers every sequence of replies.
 */
module Executor {
  import opened Wrappers
  import opened Graph
  import opened Pipelines

  type Value = string

  /** The `dependencies` part of an invocation payload. */
  type Payload = map<Name, Option<Value>>

  datatype Reply = Answer(value: Value) | Error(message: string)

  type Oracle = (Name, Payload, nat) -> Reply

  /** A definition handed to the executor: job names in definition order, jobs, functions. */
  datatype Plan = Plan(names: seq<Name>, jobs: map<Name, Job>, invoke: Oracle)

  function PlanOf(jobs: seq<Job>, invoke: Oracle): Plan {
    Plan(seq(|jobs|, i requires 0 <= i < |jobs| => jobs[i].name), ByName(jobs), invoke)
  }

  function JobGraph(p: Plan): Deps {
    DepsIn(p.jobs)
  }

  ghost predicate ValidPlan(p: Plan) {
    && (forall n :: n in p.names <==> n in p.jobs)
    && (forall n :: n in p.jobs ==> p.jobs[n].name == n && p.jobs[n].retries >= 0)
    && Closed(JobGraph(p))
    && Acyclic(JobGraph(p))
  }

  /** The length of the longest dependency chain below job `n`. */
  ghost function Level(p: Plan, n: Name): nat
    requires ValidPlan(p) && n in p.jobs
  {
    Depth(JobGraph(p), n)
  }

  lemma DependenciesBelow(p: Plan, n: Name)
    requires ValidPlan(p) && n in p.jobs
    ensures forall d :: d in p.jobs[n].dependsOn ==> d in p.jobs && Level(p, d) < Level(p, n)
  {
    forall d | d in p.jobs[n].dependsOn
      ensures d in p.jobs && Level(p, d) < Level(p, n)
    {
      assert d in JobGraph(p)[n];
      DependencyShallower(JobGraph(p), n, d);
    }
  }

  /** Every definition the validator accepts is a valid plan, whatever its functions do. */
  lemma AcceptedIsValid(r: Request, invoke: Oracle)
    requires Accepted(r)
    ensures ValidPlan(PlanOf(r.jobs, invoke))
  {
    DepsOfClosed(r.jobs);
    var p := PlanOf(r.jobs, invoke);
    forall n | n in p.jobs
      ensures n in p.names && p.jobs[n].retries >= 0
    {
      var i :| 0 <= i < |r.jobs| && r.jobs[i] == p.jobs[n];
      assert JobOk(r.executionMode, r.jobs[i]);
      assert p.names[i] == n;
    }
    hide Acyclic, Closed, ByName;
    forall i | 0 <= i < |p.names|
      ensures p.names[i] in p.jobs
    {
      assert p.names[i] in Names(r.jobs);
    }
  }

  // ----- State -----

  /** Where the goroutine of a launched job stands. */
  datatype Phase =
    | Launched
    | Announced
    | Calling(payload: Payload, attempt: nat)
    | Answered(value: Value)
    | Recorded(value: Value)
    | Finished(value: Value)
    | GaveUp(message: string)
    | Reported(message: string)
    | Aborted(message: string)
  {
    predicate Over() { Finished? || Aborted? }
    predicate HasValue() { Answered? || Recorded? || Finished? }
    predicate HasError() { GaveUp? || Reported? || Aborted? }
  }

  /** A launched job: its goroutine, the wave it was launched in and the replies it got. */
  datatype Worker = Worker(phase: Phase, wave: nat, replies: seq<Reply>)

  datatype Control = Planning | Spawning(ready: set<Name>) | Returned | Stuck

  datatype State = State(
    control: Control,
    wave: nat,
    remaining: set<Name>,
    completed: set<Name>,
    outputs: map<Name, Value>,
    failed: bool,
    workers: map<Name, Worker>,
    reports: seq<Report>)

  function Init(p: Plan): State {
    State(Planning, 0, p.jobs.Keys, {}, map[], false, map[], [])
  }

  // ----- Steps -----

  datatype Action = PlanWave | Launch(job: Name) | Barrier | Advance(job: Name)

  /** The jobs still to run whose dependencies have all completed. */
  function Ready(p: Plan, s: State): set<Name>
    requires s.remaining <= p.jobs.Keys
  {
    set n | n in s.remaining && forall d :: d in p.jobs[n].dependsOn ==> d in s.completed
  }

  predicate Enabled(p: Plan, s: State, a: Action) {
    && s.remaining <= p.jobs.Keys
    && match a
       case PlanWave => s.control.Planning?
       case Launch(n) => s.control.Spawning? && n in s.control.ready
       case Barrier => s.control == Spawning({}) && forall n :: n in s.workers ==> s.workers[n].phase.Over()
       case Advance(n) => n in p.jobs && n in s.workers && !s.workers[n].phase.Over()
  }

  function Apply(p: Plan, s: State, a: Action): State
    requires Enabled(p, s, a)
  {
    match a
    case PlanWave => ApplyPlan(p, s)
    case Launch(n) =>
      s.(control := Spawning(s.control.ready - {n}),
         remaining := s.remaining - {n},
         workers := s.workers[n := Worker(Launched, s.wave, [])])
    case Barrier =>
      if s.failed then s.(control := Returned) else s.(control := Planning, wave := s.wave + 1)
    case Advance(n) => ApplyAdvance(p, s, n)
  }

  function ApplyPlan(p: Plan, s: State): State
    requires s.remaining <= p.jobs.Keys
  {
    if s.remaining == {} then s.(control := Returned)
    else if Ready(p, s) == {} then
      s.(control := Stuck,
         reports := s.reports + [Report("orchestrator", Failed, "pipeline graph cannot make progress")])
    else s.(control := Spawning(Ready(p, s)), failed := false)
  }

  function ReadInputs(job: Job, outputs: map<Name, Value>): Payload {
    map d | d in job.dependsOn :: if d in outputs then Some(outputs[d]) else None
  }

  /** The goroutine of a job after its next access to shared state. */
  function NextWorker(p: Plan, outputs: map<Name, Value>, job: Job, w: Worker): Worker {
    match w.phase
    case Launched => w.(phase := Announced)
    case Announced =>
      // a negative retry count would skip the call and keep an empty reply
      w.(phase := if job.retries < 0 then Answered("") else Calling(ReadInputs(job, outputs), 0))
    case Calling(payload, k) =>
      var reply := p.invoke(job.name, payload, k);
      w.(phase := AfterCall(job.retries, payload, k, reply), replies := w.replies + [reply])
    case Answered(v) => w.(phase := Recorded(v))
    case Recorded(v) => w.(phase := Finished(v))
    case GaveUp(m) => w.(phase := Reported(m))
    case Reported(m) => w.(phase := Aborted(m))
    case _ => w
  }

  function AfterCall(retries: int, payload: Payload, k: nat, reply: Reply): Phase {
    match reply
    case Answer(v) => Answered(v)
    case Error(m) => if k < retries then Calling(payload, k + 1) else GaveUp(m)
  }

  /** The report, if any, that the goroutine sends with its next step. */
  function NextReports(job: Job, phase: Phase): seq<Report> {
    match phase
    case Launched => [Report(job.name, Running, "invoking function " + job.function_)]
    case Recorded(v) => [Report(job.name, Succeeded, "function " + job.function_ + " completed")]
    case GaveUp(m) => [Report(job.name, Failed, m)]
    case _ => []
  }

  /** The next access to shared state made by the goroutine of job `n`. */
  function ApplyAdvance(p: Plan, s: State, n: Name): State
    requires n in p.jobs && n in s.workers
  {
    var phase := s.workers[n].phase;
    s.(workers := s.workers[n := NextWorker(p, s.outputs, p.jobs[n], s.workers[n])],
       outputs := if phase.Answered? then s.outputs[n := phase.value] else s.outputs,
       completed := if phase.Answered? then s.completed + {n} else s.completed,
       failed := s.failed || phase.Reported?,
       reports := s.reports + NextReports(p.jobs[n], phase))
  }

  // ----- Runs: one interleaving is one sequence of actions -----

  ghost predicate Admissible(p: Plan, run: seq<Action>)
    decreases |run|, 0
  {
    run == [] || (Admissible(p, run[..|run| - 1]) && Enabled(p, After(p, run[..|run| - 1]), run[|run| - 1]))
  }

  ghost function After(p: Plan, run: seq<Action>): State
    requires Admissible(p, run)
    decreases |run|, 1
  {
    if run == [] then Init(p) else Apply(p, After(p, run[..|run| - 1]), run[|run| - 1])
  }

  // ----- Reference semantics: one job at a time, no waves, no interleaving -----

  datatype Outcome = Done(value: Value) | Lost(message: string) | Blocked

  /** Call until the first answer, at most `retries + 1` times. */
  function Attempts(p: Plan, n: Name, payload: Payload, k: nat): Outcome
    requires n in p.jobs && k <= p.jobs[n].retries
    decreases p.jobs[n].retries - k
  {
    match p.invoke(n, payload, k)
    case Answer(v) => Done(v)
    case Error(m) => if k < p.jobs[n].retries then Attempts(p, n, payload, k + 1) else Lost(m)
  }

  /** Dependencies lie on strictly lower levels. */
  ghost predicate Descending(p: Plan, level: map<Name, nat>) {
    && (forall n :: n in level <==> n in p.jobs)
    && forall n, d :: n in p.jobs && d in p.jobs[n].dependsOn ==> d in p.jobs && d in level && level[d] < level[n]
  }

  /** Every job above level zero has a dependency on the level just below. */
  ghost predicate Gapless(p: Plan, level: map<Name, nat>) {
    forall n :: n in p.jobs && n in level && level[n] > 0 ==>
      exists d :: d in p.jobs[n].dependsOn && d in level && level[d] == level[n] - 1
  }

  ghost predicate RetriesOk(p: Plan) {
    forall n :: n in p.jobs ==> p.jobs[n].retries >= 0
  }

  function ValueOf(o: Outcome): Option<Value> {
    if o.Done? then Some(o.value) else None
  }

  /** What job `n` yields when its dependencies are evaluated first. */
  ghost function Eval(p: Plan, level: map<Name, nat>, n: Name): Outcome
    requires Descending(p, level) && RetriesOk(p) && n in p.jobs
    decreases level[n], 1
  {
    if forall d :: d in p.jobs[n].dependsOn ==> Eval(p, level, d).Done?
    then Attempts(p, n, EvalInputs(p, level, n), 0) else Blocked
  }

  ghost function EvalInputs(p: Plan, level: map<Name, nat>, n: Name): (r: Payload)
    requires Descending(p, level) && RetriesOk(p) && n in p.jobs
    ensures r.Keys == set d | d in p.jobs[n].dependsOn
    ensures forall d :: d in p.jobs[n].dependsOn ==> r[d] == ValueOf(Eval(p, level, d))
    decreases level[n], 0
  {
    map d | d in p.jobs[n].dependsOn :: ValueOf(Eval(p, level, d))
  }

  // ----- Depth and outcome of every job as plain maps -----

  datatype Meaning = Meaning(level: map<Name, nat>, outcome: map<Name, Outcome>)

  ghost function Levels(p: Plan): (level: map<Name, nat>)
    requires ValidPlan(p)
    ensures Descending(p, level)
  {
    LevelsRanked(p);
    map n | n in p.jobs :: Level(p, n)
  }

  ghost function MeaningOf(p: Plan): Meaning
    requires ValidPlan(p)
  {
    Meaning(Levels(p), Outcomes(p, Levels(p)))
  }

  ghost function Outcomes(p: Plan, level: map<Name, nat>): map<Name, Outcome>
    requires Descending(p, level) && RetriesOk(p)
  {
    map n | n in p.jobs :: Eval(p, level, n)
  }

  predicate AllDone(job: Job, outcome: map<Name, Outcome>) {
    forall d :: d in job.dependsOn ==> d in outcome && outcome[d].Done?
  }

  /** The dependency outputs handed to a job under the given outcomes. */
  function Inputs(job: Job, outcome: map<Name, Outcome>): Payload
    requires AllDone(job, outcome)
  {
    map d | d in job.dependsOn :: Some(outcome[d].value)
  }

  /** The outcome of `n` follows from the outcomes of its dependencies. */
  ghost predicate SolvedAt(p: Plan, outcome: map<Name, Outcome>, n: Name) {
    && n in p.jobs && n in outcome && p.jobs[n].retries >= 0
    && outcome[n] == if AllDone(p.jobs[n], outcome) then Attempts(p, n, Inputs(p.jobs[n], outcome), 0) else Blocked
  }

  /** Longest-chain depth descends along dependencies, one level at a time. */
  lemma LevelsRanked(p: Plan)
    requires ValidPlan(p)
    ensures var level := map n | n in p.jobs :: Level(p, n);
            Descending(p, level) && Gapless(p, level)
  {
    var level := map n | n in p.jobs :: Level(p, n);
    forall n | n in p.jobs
      ensures forall d :: d in p.jobs[n].dependsOn ==> d in p.jobs && level[d] < level[n]
      ensures level[n] > 0 ==> exists d :: d in p.jobs[n].dependsOn && d in level && level[d] == level[n] - 1
    {
      DependenciesBelow(p, n);
      if level[n] > 0 {
        var d := DependencyBelow(JobGraph(p), n);
        assert d in p.jobs[n].dependsOn;
      }
    }
  }

  /** The reference semantics solves the outcome equations. */
  lemma EvalSolves(p: Plan, level: map<Name, nat>, n: Name)
    requires Descending(p, level) && RetriesOk(p) && n in p.jobs
    ensures SolvedAt(p, Outcomes(p, level), n)
  {
    var job, outcome := p.jobs[n], Outcomes(p, level);
    hide Attempts;
    assert forall d :: d in job.dependsOn ==> d in p.jobs && outcome[d] == Eval(p, level, d);
    if AllDone(job, outcome) {
      assert EvalInputs(p, level, n) == Inputs(job, outcome);
    }
  }
}
