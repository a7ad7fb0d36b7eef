/**
 Pipeline definitions as the control plane receives and stores them, with the
 declarative reading of what makes one acceptable.
 */
module Pipelines {
  import opened Graph

  datatype Resources = Resources(cpu: string, memory: string, gpu: int)

  datatype Job = Job(name: Name, kind: string, function_: string, image: string,
                     dependsOn: seq<Name>, resources: Resources, retries: int)

  datatype Request = Request(projectId: string, name: string, version: string,
                             executionMode: string, jobs: seq<Job>)

  datatype StepStatus = Pending | Running | Succeeded | Failed | Skipped

  /** A step report sent to the run store. */
  datatype Report = Report(step: Name, status: StepStatus, message: string)

  datatype ValidationError =
    | MissingFields | BadMode | BadName | BadKind | NoFunction | NoImage | NotAFunction
    | BadCpu | BadMemory | Negative | BadDependency | Cycle

  /** The Unicode white-space characters. */
  predicate IsSpace(c: char) {
    || '\t' <= c <= '\r' || c == ' ' || c == '\U{85}' || c == '\U{A0}' || c == '\U{1680}'
    || '\U{2000}' <= c <= '\U{200A}' || c == '\U{2028}' || c == '\U{2029}'
    || c == '\U{202F}' || c == '\U{205F}' || c == '\U{3000}'
  }

  function TrimLeft(s: string): string {
    if s != "" && IsSpace(s[0]) then TrimLeft(s[1..]) else s
  }

  function TrimRight(s: string): string {
    if s != "" && IsSpace(s[|s| - 1]) then TrimRight(s[..|s| - 1]) else s
  }

  function Trim(s: string): string {
    TrimRight(TrimLeft(s))
  }

  /** Nothing but white space. */
  predicate Blank(s: string) {
    forall i :: 0 <= i < |s| ==> IsSpace(s[i])
  }

  predicate IsCount(s: string) {
    s != "" && '1' <= s[0] <= '9' && forall i :: 0 <= i < |s| ==> '0' <= s[i] <= '9'
  }

  /** A positive decimal count with an optional `m`, `Mi` or `Gi` unit. */
  predicate IsQuantity(s: string) {
    || IsCount(s)
    || (|s| > 1 && s[|s| - 1..] == "m" && IsCount(s[..|s| - 1]))
    || (|s| > 2 && s[|s| - 2..] in {"Mi", "Gi"} && IsCount(s[..|s| - 2]))
  }

  function Normalize(req: Request): Request {
    req.(name := Trim(req.name),
         version := Trim(req.version),
         executionMode := if req.executionMode == "" then "prefect" else req.executionMode,
         jobs := NormalizeJobs(req.jobs))
  }

  function NormalizeJobs(jobs: seq<Job>): (r: seq<Job>)
    ensures |r| == |jobs|
  {
    seq(|jobs|, i requires 0 <= i < |jobs| => NormalizeJob(jobs[i]))
  }

  function NormalizeJob(job: Job): Job {
    job.(name := Trim(job.name), kind := Trim(job.kind))
  }

  ghost function Names(jobs: seq<Job>): set<Name> {
    set i | 0 <= i < |jobs| :: jobs[i].name
  }

  ghost predicate UniqueNames(jobs: seq<Job>) {
    && (forall i :: 0 <= i < |jobs| ==> jobs[i].name != "")
    && (forall i, j :: 0 <= i < j < |jobs| ==> jobs[i].name != jobs[j].name)
  }

  predicate JobOk(mode: string, job: Job) {
    && job.kind in {"function", "container"}
    && (job.kind == "function" ==> !Blank(job.function_))
    && (job.kind == "container" ==> !Blank(job.image))
    && (mode == "functions" ==> job.kind == "function")
    && (job.resources.cpu != "" ==> IsQuantity(job.resources.cpu))
    && (job.resources.memory != "" ==> IsQuantity(job.resources.memory))
    && job.retries >= 0 && job.resources.gpu >= 0
  }

  ghost predicate JobsOk(mode: string, jobs: seq<Job>) {
    forall i :: 0 <= i < |jobs| ==> JobOk(mode, jobs[i])
  }

  predicate DependsOnOthers(job: Job, known: set<Name>) {
    forall d :: d in job.dependsOn ==> d != job.name && d in known
  }

  ghost predicate DependenciesKnown(jobs: seq<Job>) {
    forall i :: 0 <= i < |jobs| ==> DependsOnOthers(jobs[i], Names(jobs))
  }

  predicate HeaderOk(r: Request) {
    r.projectId != "" && r.name != "" && r.version != "" && r.jobs != []
  }

  /** Everything the validator demands before it looks for cycles. */
  ghost predicate WellFormed(r: Request) {
    && HeaderOk(r)
    && r.executionMode in {"prefect", "functions"}
    && UniqueNames(r.jobs)
    && JobsOk(r.executionMode, r.jobs)
    && DependenciesKnown(r.jobs)
  }

  ghost predicate Accepted(r: Request) {
    WellFormed(r) && Acyclic(DepsOf(r.jobs))
  }

  /** The condition that a job-level error stands for. */
  predicate JobFault(mode: string, j: Job, e: ValidationError) {
    match e
    case BadKind => j.kind !in {"function", "container"}
    case NoFunction => j.kind == "function" && Blank(j.function_)
    case NoImage => j.kind == "container" && Blank(j.image)
    case NotAFunction => mode == "functions" && j.kind == "container"
    case BadCpu => j.resources.cpu != "" && !IsQuantity(j.resources.cpu)
    case BadMemory => j.resources.memory != "" && !IsQuantity(j.resources.memory)
    case Negative => j.retries < 0 || j.resources.gpu < 0
    case _ => false
  }

  ghost predicate AnyJobFault(mode: string, jobs: seq<Job>, e: ValidationError) {
    exists i :: 0 <= i < |jobs| && JobFault(mode, jobs[i], e)
  }

  /** The condition that the reported error stands for really is violated. */
  ghost predicate Violates(r: Request, e: ValidationError) {
    match e
    case MissingFields => !HeaderOk(r)
    case BadMode => r.executionMode !in {"prefect", "functions"}
    case BadName => !UniqueNames(r.jobs)
    case BadDependency => !DependenciesKnown(r.jobs)
    case Cycle => WellFormed(r) && !Acyclic(DepsOf(r.jobs))
    case _ => AnyJobFault(r.executionMode, r.jobs, e)
  }

  /** Jobs under their names; a later job of the same name wins. */
  function ByName(jobs: seq<Job>): (m: map<Name, Job>)
    ensures m.Keys == Names(jobs)
    ensures forall n :: n in m ==> m[n].name == n && m[n] in jobs
  {
    if jobs == [] then map[]
    else
      var k := |jobs| - 1;
      assert forall i :: 0 <= i < k ==> jobs[..k][i] == jobs[i];
      assert Names(jobs) == Names(jobs[..k]) + {jobs[k].name};
      ByName(jobs[..k])[jobs[k].name := jobs[k]]
  }

  /** What each named job depends on. */
  function DepsIn(jobs: map<Name, Job>): Deps {
    map n | n in jobs :: jobs[n].dependsOn
  }

  function DepsOf(jobs: seq<Job>): Deps {
    DepsIn(ByName(jobs))
  }

  /** With unique names every job is found under its own name. */
  lemma {:induction false} ByNameFinds(jobs: seq<Job>, i: nat)
    requires UniqueNames(jobs) && i < |jobs|
    ensures jobs[i].name in ByName(jobs) && ByName(jobs)[jobs[i].name] == jobs[i]
  {
    var k := |jobs| - 1;
    if i < k {
      ByNameFinds(jobs[..k], i);
      assert jobs[..k][i] == jobs[i];
    }
  }

  /** Known dependencies are jobs, so the dependency map is closed. */
  lemma DepsOfClosed(jobs: seq<Job>)
    requires DependenciesKnown(jobs)
    ensures Closed(DepsOf(jobs))
  {
    var g := DepsOf(jobs);
    forall n, d | n in g && d in g[n]
      ensures d in g
    {
      var i :| 0 <= i < |jobs| && jobs[i] == ByName(jobs)[n];
      assert DependsOnOthers(jobs[i], Names(jobs));
    }
  }
}
