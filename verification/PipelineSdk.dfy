/**
 The Python SDK's pipeline builder: `add` accepts a step only after its dependencies, and
 `definition` compiles the steps to a control-plane request. The builder and the control
 plane's graph checks accept the same graphs.
 */
module PipelineSdk {
  import opened Wrappers
  import opened Graph
  import opened Pipelines

  datatype SdkStep =
    | PipelineStep(name: Name, image: string, dependsOn: seq<Name>, resources: Resources, retries: int)
    | FunctionStep(name: Name, function_: string, dependsOn: seq<Name>, resources: Resources, retries: int)

  datatype SdkError = DuplicateStep(name: Name) | UnknownDependencies(missing: set<Name>) | EmptyPipeline

  function StepNames(steps: seq<SdkStep>): set<Name> {
    set i | 0 <= i < |steps| :: steps[i].name
  }

  /** What `add` demands of a step, given the names added so far. */
  predicate Addable(known: set<Name>, name: Name, dependsOn: seq<Name>) {
    name !in known && forall d :: d in dependsOn ==> d in known
  }

  /** Every step could be added after the ones before it. */
  ghost predicate Built(steps: seq<SdkStep>) {
    forall i :: 0 <= i < |steps| ==> Addable(StepNames(steps[..i]), steps[i].name, steps[i].dependsOn)
  }

  function ToJob(step: SdkStep): Job {
    match step
    case PipelineStep(n, image, deps, res, retries) => Job(n, "container", "", image, deps, res, retries)
    case FunctionStep(n, f, deps, res, retries) => Job(n, "function", f, "", deps, res, retries)
  }

  function ToJobs(steps: seq<SdkStep>): (jobs: seq<Job>)
    ensures |jobs| == |steps|
  {
    seq(|steps|, i requires 0 <= i < |steps| => ToJob(steps[i]))
  }

  /** The job has the fields of the step, and the kind that goes with it. */
  ghost predicate Compiles(step: SdkStep, job: Job) {
    && job.name == step.name && job.dependsOn == step.dependsOn && job.resources == step.resources && job.retries == step.retries
    && (step.FunctionStep? ==> job.kind == "function" && job.function_ == step.function_ && job.image == "")
    && (step.PipelineStep? ==> job.kind == "container" && job.image == step.image && job.function_ == "")
  }

  class Pipeline {
    const name: string
    var steps: seq<SdkStep>

    ghost predicate Valid()
      reads this
    {
      Built(steps)
    }

    constructor (name: string)
      ensures Valid() && this.name == name && steps == []
    {
      this.name := name;
      steps := [];
    }

    method Add(step: SdkStep) returns (r: Result<(), SdkError>)
      requires Valid()
      modifies this
      ensures Valid()
      ensures r.Ok? <==> Addable(StepNames(old(steps)), step.name, step.dependsOn)
      ensures steps == if r.Ok? then old(steps) + [step] else old(steps)
      ensures match r
              case Ok(_) => true
              case Err(DuplicateStep(n)) => n == step.name && n in StepNames(steps)
              case Err(UnknownDependencies(missing)) =>
                missing != {} && missing == (set d | d in step.dependsOn) - StepNames(steps)
              case Err(EmptyPipeline) => false
    {
      var known := {};
      for i := 0 to |steps|
        invariant known == set j | 0 <= j < i :: steps[j].name
        invariant step.name !in known
      {
        if steps[i].name == step.name {
          return Err(DuplicateStep(step.name));
        }
        known := known + {steps[i].name};
      }
      var missing := (set d | d in step.dependsOn) - known;
      if missing != {} {
        return Err(UnknownDependencies(missing));
      }
      ghost var before := steps;
      steps := steps + [step];
      assert forall i :: 0 <= i <= |before| ==> steps[..i] == before[..i];
      assert before[..|before|] == before;
      return Ok(());
    }

    /** Compiles the steps in order; all-function pipelines default to functions execution. */
    method Definition(projectId: string, version: string, mode: string) returns (r: Result<Request, SdkError>)
      requires Valid()
      ensures r.Err? <==> steps == []
      ensures r.Err? ==> r.error == EmptyPipeline
      ensures r.Ok? ==>
                && r.value.jobs == ToJobs(steps)
                && (forall i :: 0 <= i < |steps| ==> Compiles(steps[i], r.value.jobs[i]))
                && r.value == Request(projectId, name, version, r.value.executionMode, r.value.jobs)
                && (mode != "" ==> r.value.executionMode == mode)
                && (mode == "" ==> (r.value.executionMode == "functions" <==> forall j :: j in r.value.jobs ==> j.kind == "function")
                                   && r.value.executionMode in {"functions", "prefect"})
    {
      if |steps| == 0 {
        return Err(EmptyPipeline);
      }
      var jobs: seq<Job> := [];
      var allFunctions := true;
      for i := 0 to |steps|
        invariant jobs == ToJobs(steps)[..i]
        invariant allFunctions <==> forall j :: 0 <= j < i ==> ToJobs(steps)[j].kind == "function"
      {
        jobs := jobs + [ToJob(steps[i])];
        assert ToJobs(steps)[i].kind == "function" <==> steps[i].FunctionStep? by {
          assert ToJobs(steps)[i] == ToJob(steps[i]);
          assert "container"[0] != "function"[0];
        }
        allFunctions := allFunctions && steps[i].FunctionStep?;
      }
      assert jobs == ToJobs(steps);
      var inferred := if allFunctions then "functions" else "prefect";
      return Ok(Request(projectId, name, version, if mode != "" then mode else inferred, jobs));
    }
  }

  // ----- Built pipelines pass the graph checks -----

  /** No surrounding white space and not empty: what the control plane leaves as it is. */
  ghost predicate CleanNames(steps: seq<SdkStep>) {
    forall i :: 0 <= i < |steps| ==> steps[i].name != "" && Trim(steps[i].name) == steps[i].name
  }

  lemma BuiltOrder(steps: seq<SdkStep>, i: nat, d: Name) returns (j: nat)
    requires Built(steps) && i < |steps| && d in steps[i].dependsOn
    ensures j < i && steps[j].name == d
  {
    assert d in StepNames(steps[..i]);
    j :| 0 <= j < |steps[..i]| && steps[..i][j].name == d;
  }

  lemma BuiltDistinct(steps: seq<SdkStep>, i: nat, j: nat)
    requires Built(steps) && i < j < |steps|
    ensures steps[i].name != steps[j].name
  {
    assert steps[..j][i] == steps[i];
    assert steps[i].name in StepNames(steps[..j]);
  }

  /** The order of addition is a topological order of the compiled jobs. */
  lemma BuiltTopological(steps: seq<SdkStep>, jobs: seq<Job>, order: seq<Name>)
    requires Built(steps) && |jobs| == |steps| == |order| && UniqueNames(jobs)
    requires forall i :: 0 <= i < |steps| ==>
               jobs[i].name == steps[i].name == order[i] && jobs[i].dependsOn == steps[i].dependsOn
    ensures Topological(DepsOf(jobs), order)
    ensures forall n :: n in DepsOf(jobs) ==> n in order
  {
    var g := DepsOf(jobs);
    forall i | 0 <= i < |order|
      ensures order[i] in g && forall d :: d in g[order[i]] ==> d in order[..i]
    {
      ByNameFinds(jobs, i);
      EarlierInOrder(steps, order, i);
    }
    forall n | n in g
      ensures n in order
    {
      var i :| 0 <= i < |jobs| && jobs[i].name == n;
      assert order[i] == n;
    }
  }

  lemma EarlierInOrder(steps: seq<SdkStep>, order: seq<Name>, i: nat)
    requires Built(steps) && |order| == |steps| && i < |steps|
    requires forall j :: 0 <= j < |steps| ==> order[j] == steps[j].name
    ensures forall d :: d in steps[i].dependsOn ==> d in order[..i]
  {
    forall d | d in steps[i].dependsOn
      ensures d in order[..i]
    {
      var j := BuiltOrder(steps, i, d);
      assert order[..i][j] == d;
    }
  }

  lemma BuiltGraphOk(steps: seq<SdkStep>, jobs: seq<Job>)
    requires Built(steps) && CleanNames(steps) && |jobs| == |steps|
    requires forall i :: 0 <= i < |steps| ==> jobs[i].name == steps[i].name && jobs[i].dependsOn == steps[i].dependsOn
    ensures UniqueNames(jobs) && DependenciesKnown(jobs) && Acyclic(DepsOf(jobs))
  {
    forall i, j | 0 <= i < j < |jobs|
      ensures jobs[i].name != jobs[j].name
    {
      BuiltDistinct(steps, i, j);
    }
    assert UniqueNames(jobs);
    forall i | 0 <= i < |jobs|
      ensures DependsOnOthers(jobs[i], Names(jobs))
    {
      forall d | d in jobs[i].dependsOn
        ensures d != jobs[i].name && d in Names(jobs)
      {
        var j := BuiltOrder(steps, i, d);
        assert jobs[j].name == d;
      }
    }
    var order := seq(|jobs|, i requires 0 <= i < |jobs| => jobs[i].name);
    BuiltTopological(steps, jobs, order);
    TopologicalIsAcyclic(DepsOf(jobs), order);
  }

  /**
   A pipeline built through `add` is accepted by the control plane exactly when its header and
   its single jobs are in order: its graph never gets it rejected.
   */
  lemma BuiltAcceptedIffFieldsOk(steps: seq<SdkStep>, req: Request)
    requires Built(steps) && CleanNames(steps) && req.jobs == ToJobs(steps)
    ensures var norm := Normalize(req);
            Accepted(norm) <==> HeaderOk(norm) && norm.executionMode in {"prefect", "functions"} && JobsOk(norm.executionMode, norm.jobs)
  {
    var norm := Normalize(req);
    assert forall i :: 0 <= i < |steps| ==> norm.jobs[i] == NormalizeJob(ToJob(steps[i]));
    BuiltGraphOk(steps, norm.jobs);
  }

  // ----- Accepted job lists can be built -----

  /** While jobs remain unlisted, one of them has all its dependencies listed. */
  lemma {:induction false} NextInOrder(g: Deps, order: seq<Name>, n: Name) returns (next: Name)
    requires Acyclic(g) && Closed(g) && n in g && n !in order
    ensures next in g && next !in order && forall d :: d in g[next] ==> d in order
    decreases Depth(g, n)
  {
    if d :| d in g[n] && d !in order {
      DependencyShallower(g, n, d);
      next := NextInOrder(g, order, d);
    } else {
      next := n;
    }
  }

  /** Every acyclic closed graph has a topological order of all its jobs. */
  lemma {:induction false} OrderExists(g: Deps, partial: seq<Name>) returns (order: seq<Name>)
    requires Acyclic(g) && Closed(g) && Topological(g, partial)
    ensures Topological(g, order) && forall n :: n in g ==> n in order
    decreases g.Keys - set n | n in partial
  {
    if n :| n in g && n !in partial {
      var next := NextInOrder(g, partial, n);
      TopologicalExtend(g, partial, next);
      var longer := partial + [next];
      assert next in g.Keys - set n | n in partial;
      assert (set n | n in longer) == (set n | n in partial) + {next};
      order := OrderExists(g, longer);
    } else {
      order := partial;
    }
  }

  /** Two duplicate-free sequences over the same elements are permutations of each other. */
  lemma {:induction false} SameElements<T>(a: seq<T>, b: seq<T>)
    requires forall i, j :: 0 <= i < j < |a| ==> a[i] != a[j]
    requires forall i, j :: 0 <= i < j < |b| ==> b[i] != b[j]
    requires forall x :: x in a <==> x in b
    ensures multiset(a) == multiset(b)
  {
    forall x
      ensures multiset(a)[x] == multiset(b)[x]
    {
      CountsOnce(a, x);
      CountsOnce(b, x);
    }
  }

  lemma {:induction false} CountsOnce<T>(s: seq<T>, x: T)
    requires forall i, j :: 0 <= i < j < |s| ==> s[i] != s[j]
    ensures multiset(s)[x] == if x in s then 1 else 0
  {
    if s != [] {
      var k := |s| - 1;
      assert s == s[..k] + [s[k]];
      CountsOnce(s[..k], x);
    }
  }

  ghost predicate BuildableOrder(jobs: seq<Job>) {
    forall i :: 0 <= i < |jobs| ==> Addable(Names(jobs[..i]), jobs[i].name, jobs[i].dependsOn)
  }

  /** Listing the jobs in a topological order makes each addable after the ones before. */
  lemma OrderIsBuildable(g: Deps, order: seq<Name>, jobs: seq<Job>)
    requires Topological(g, order) && |jobs| == |order|
    requires forall i :: 0 <= i < |jobs| ==> jobs[i].name == order[i] && g[order[i]] == jobs[i].dependsOn
    ensures BuildableOrder(jobs)
  {
    forall i | 0 <= i < |jobs|
      ensures Addable(Names(jobs[..i]), jobs[i].name, jobs[i].dependsOn)
    {
      forall d | d in jobs[i].dependsOn
        ensures d in Names(jobs[..i])
      {
        assert d in order[..i];
        var j :| 0 <= j < i && order[..i][j] == d;
        assert jobs[..i][j].name == d;
      }
    }
  }

  /** The jobs in a topological order of their names. */
  lemma ListedBy(given: seq<Job>, order: seq<Name>) returns (jobs: seq<Job>)
    requires UniqueNames(given) && Topological(DepsOf(given), order) && forall n :: n in DepsOf(given) ==> n in order
    ensures multiset(jobs) == multiset(given) && BuildableOrder(jobs)
  {
    var g, byName := DepsOf(given), ByName(given);
    jobs := seq(|order|, i requires 0 <= i < |order| => byName[order[i]]);
    OrderIsBuildable(g, order, jobs);
    forall x
      ensures x in jobs <==> x in given
    {
      if x in given {
        var i :| 0 <= i < |given| && given[i] == x;
        ByNameFinds(given, i);
        assert x.name in g;
        var k :| 0 <= k < |order| && order[k] == x.name;
        assert jobs[k] == x;
      }
    }
    SameElements(jobs, given);
  }

  /** The builder step for a job. */
  function FromJob(job: Job): SdkStep {
    if job.kind == "function" then FunctionStep(job.name, job.function_, job.dependsOn, job.resources, job.retries)
    else PipelineStep(job.name, job.image, job.dependsOn, job.resources, job.retries)
  }

  function FromJobs(jobs: seq<Job>): (steps: seq<SdkStep>)
    ensures |steps| == |jobs|
  {
    seq(|jobs|, i requires 0 <= i < |jobs| => FromJob(jobs[i]))
  }

  /** The job without the field that its kind does not use. */
  function Plain(job: Job): Job {
    if job.kind == "function" then job.(image := "") else job.(function_ := "")
  }

  /** Jobs in a buildable order are added one by one, and compile to what they were. */
  lemma BuildableIsBuilt(mode: string, jobs: seq<Job>)
    requires BuildableOrder(jobs) && forall i :: 0 <= i < |jobs| ==> JobOk(mode, jobs[i])
    ensures Built(FromJobs(jobs))
    ensures forall i :: 0 <= i < |jobs| ==> ToJobs(FromJobs(jobs))[i] == Plain(jobs[i])
  {
    var steps := FromJobs(jobs);
    hide JobOk;
    forall i | 0 <= i < |steps|
      ensures Addable(StepNames(steps[..i]), steps[i].name, steps[i].dependsOn)
    {
      assert forall j :: 0 <= j < i ==> steps[..i][j].name == jobs[..i][j].name;
      assert StepNames(steps[..i]) == Names(jobs[..i]);
    }
    forall i | 0 <= i < |jobs|
      ensures ToJob(FromJob(jobs[i])) == Plain(jobs[i])
    {
      KindIsKnown(mode, jobs[i]);
    }
  }

  lemma KindIsKnown(mode: string, job: Job)
    requires JobOk(mode, job)
    ensures job.kind in {"function", "container"}
  {
  }

  /**
   Every job list the control plane accepts can be reordered so that `add` takes it step by step,
   and the pipeline built that way compiles to those jobs.
   */
  lemma AcceptedIsBuildable(r: Request) returns (jobs: seq<Job>, steps: seq<SdkStep>)
    requires Accepted(r)
    ensures multiset(jobs) == multiset(r.jobs)
    ensures Built(steps) && |steps| == |jobs|
    ensures forall i :: 0 <= i < |jobs| ==> ToJobs(steps)[i] == Plain(jobs[i])
  {
    DepsOfClosed(r.jobs);
    var order := OrderExists(DepsOf(r.jobs), []);
    jobs := ListedBy(r.jobs, order);
    steps := FromJobs(jobs);
    assert forall i :: 0 <= i < |jobs| ==> jobs[i] in multiset(r.jobs);
    hide Acyclic, BuildableOrder, DependenciesKnown, UniqueNames, FromJobs, ToJobs, JobOk;
    BuildableIsBuilt(r.executionMode, jobs);
  }
}
