/**
 The definition validator: field checks on every job, dependency checks, and a
 three-colour depth-first search for cycles.
 */
module Validator {
  import opened Wrappers
  import opened Graph
  import opened Pipelines
  import opened Trimming

  /** The depth-first search: the two colour maps its recursive closure updates. */
  class CycleSearch {
    const g: Deps
    var visiting: set<Name>
    var visited: set<Name>
    /** Finished jobs in the order they finished. */
    ghost var order: seq<Name>

    ghost predicate Valid()
      reads this
    {
      && Closed(g)
      && visiting <= g.Keys
      && visiting !! visited
      && Topological(g, order)
      && (forall n :: n in order <==> n in visited)
    }

    constructor (g: Deps)
      requires Closed(g)
      ensures Valid() && this.g == g && visiting == {} && visited == {} && order == []
    {
      this.g := g;
      visiting, visited, order := {}, {}, [];
    }

    /**
     Colours everything reachable from `name`. `stack` is the chain of open calls:
     meeting an open job again closes a cycle, and finishing keeps `order` topological.
     */
    method Visit(name: Name, ghost stack: seq<Name>) returns (ok: bool)
      requires Valid() && name in g
      requires IsPath(g, stack + [name])
      requires forall n :: n in stack <==> n in visiting
      modifies this
      ensures !ok ==> !Acyclic(g)
      ensures ok ==> Valid() && visiting == old(visiting) && old(visited) <= visited && name in visited
      decreases g.Keys - visiting
    {
      if name in visiting {
        ghost var i :| 0 <= i < |stack| && stack[i] == name;
        ghost var whole := stack + [name];
        ghost var cycle := whole[i..];
        assert IsPath(g, cycle) by {
          assert forall m :: 0 <= m < |cycle| ==> cycle[m] == whole[i + m];
          forall m | 0 <= m < |cycle| - 1
            ensures cycle[m] in g && cycle[m + 1] in g[cycle[m]]
          {
            assert cycle[m] == whole[i + m] && cycle[m + 1] == whole[i + m + 1];
          }
        }
        assert IsCycle(g, cycle);
        return false;
      }
      if name in visited {
        return true;
      }
      visiting := visiting + {name};
      ghost var open := stack + [name];
      for i := 0 to |g[name]|
        invariant Valid() && visiting == old(visiting) + {name} && old(visited) <= visited
        invariant forall j :: 0 <= j < i ==> g[name][j] in visited
      {
        var parent := g[name][i];
        assert IsPath(g, open + [parent]);
        var r := Visit(parent, open);
        if !r {
          return false;
        }
      }
      TopologicalExtend(g, order, name);
      order := order + [name];
      visiting, visited := visiting - {name}, visited + {name};
      return true;
    }
  }

  /** The verdict of the search, whatever order the map of jobs is walked in. */
  method FindsNoCycle(g: Deps) returns (ok: bool)
    requires Closed(g)
    ensures ok <==> Acyclic(g)
  {
    var search := new CycleSearch(g);
    var todo := g.Keys;
    while todo != {}
      invariant search.Valid() && search.g == g && search.visiting == {} && todo <= g.Keys
      invariant g.Keys - todo <= search.visited
      decreases todo
    {
      var name :| name in todo;
      assert IsPath(g, [] + [name]);
      var r := search.Visit(name, []);
      if !r {
        return false;
      }
      todo := todo - {name};
    }
    TopologicalIsAcyclic(g, search.order);
    return true;
  }

  /** The checks on one trimmed job, in the order they are made. */
  method CheckJob(mode: string, job: Job) returns (r: Result<(), ValidationError>)
    requires mode in {"prefect", "functions"}
    ensures r.Ok? <==> JobOk(mode, job)
    ensures r.Err? ==> JobFault(mode, job, r.error)
  {
    TrimBlank(job.function_);
    TrimBlank(job.image);
    hide Trim, Blank, IsQuantity, IsSpace;
    if job.kind != "function" && job.kind != "container" {
      return Err(BadKind);
    }
    if job.kind == "function" && Trim(job.function_) == "" {
      return Err(NoFunction);
    }
    if job.kind == "container" && Trim(job.image) == "" {
      return Err(NoImage);
    }
    if mode == "functions" && job.kind != "function" {
      return Err(NotAFunction);
    }
    if job.resources.cpu != "" && !IsQuantity(job.resources.cpu) {
      return Err(BadCpu);
    }
    if job.resources.memory != "" && !IsQuantity(job.resources.memory) {
      return Err(BadMemory);
    }
    if job.retries < 0 || job.resources.gpu < 0 {
      return Err(Negative);
    }
    return Ok(());
  }

  /** Trims each job in place and checks it; names must be non-empty and new. */
  method CheckJobs(mode: string, given: seq<Job>) returns (r: Result<seq<Job>, ValidationError>)
    requires mode in {"prefect", "functions"}
    ensures r.Ok? ==> r.value == NormalizeJobs(given)
    ensures r.Ok? ==> forall i :: 0 <= i < |given| ==> CleanedJob(given[i], r.value[i])
    ensures r.Ok? <==> UniqueNames(NormalizeJobs(given)) && JobsOk(mode, NormalizeJobs(given))
    ensures r.Err? ==> if r.error == BadName then !UniqueNames(NormalizeJobs(given))
                       else AnyJobFault(mode, NormalizeJobs(given), r.error)
  {
    ghost var norm := NormalizeJobs(given);
    var jobs := given;
    var known := {};
    for i := 0 to |given|
      invariant |jobs| == |given|
      invariant forall j :: 0 <= j < i ==> jobs[j] == norm[j]
      invariant forall j :: i <= j < |jobs| ==> jobs[j] == given[j]
      invariant forall j :: 0 <= j < i ==> norm[j].name in known && norm[j].name != "" && JobOk(mode, norm[j])
      invariant forall n :: n in known ==> exists j :: 0 <= j < i && norm[j].name == n
      invariant forall j, k :: 0 <= j < k < i ==> norm[j].name != norm[k].name
    {
      var job := NormalizeJob(jobs[i]);
      assert job == norm[i];
      jobs := jobs[i := job];
      if job.name == "" || job.name in known {
        return Err(BadName);
      }
      known := known + {job.name};
      var checked := CheckJob(mode, job);
      if checked.Err? {
        assert JobFault(mode, norm[i], checked.error);
        return Err(checked.error);
      }
    }
    assert jobs == norm;
    forall i | 0 <= i < |given|
      ensures CleanedJob(given[i], jobs[i])
    {
      CleanedJobIff(given[i], jobs[i]);
    }
    return Ok(jobs);
  }

  method CheckDependencies(jobs: seq<Job>) returns (ok: bool)
    ensures ok <==> DependenciesKnown(jobs)
  {
    var known := set i | 0 <= i < |jobs| :: jobs[i].name;
    assert known == Names(jobs);
    for i := 0 to |jobs|
      invariant forall j :: 0 <= j < i ==> DependsOnOthers(jobs[j], known)
    {
      var job := jobs[i];
      for k := 0 to |job.dependsOn|
        invariant forall m :: 0 <= m < k ==> job.dependsOn[m] != job.name && job.dependsOn[m] in known
      {
        var dependency := job.dependsOn[k];
        if dependency == job.name || dependency !in known {
          assert dependency in job.dependsOn && !DependsOnOthers(jobs[i], known);
          return false;
        }
      }
    }
    return true;
  }

  /**
   Accepts exactly the requests that are acceptable once cleaned, returns them cleaned, and every
   rejection names a real violation.
   */
  method ValidatePipelineDefinition(req: Request) returns (r: Result<Request, ValidationError>)
    ensures r.Ok? <==> exists c :: Cleaned(req, c) && Accepted(c)
    ensures r.Ok? ==> Cleaned(req, r.value) && Accepted(r.value) && r.value == Normalize(req)
    ensures r.Ok? ==> forall i, j :: 0 <= i < j < |req.jobs| ==> !Alike(req.jobs[i].name, req.jobs[j].name)
    ensures r.Err? ==> !Accepted(Normalize(req)) && forall c :: Cleaned(req, c) ==> Violates(c, r.error)
  {
    r := Validated(req);
    forall c
      ensures Cleaned(req, c) <==> c == Normalize(req)
    {
      CleanedIff(req, c);
    }
    hide Cleaned, Normalize;
    if r.Ok? {
      forall i, j | 0 <= i < j < |req.jobs|
        ensures !Alike(req.jobs[i].name, req.jobs[j].name)
      {
        if Alike(req.jobs[i].name, req.jobs[j].name) {
          AlikeNamesRejected(req, r.value, i, j);
        }
      }
    }
  }

  /** The checks in the order they are made, on the request as it is being cleaned. */
  method Validated(req: Request) returns (r: Result<Request, ValidationError>)
    ensures r.Ok? <==> Accepted(Normalize(req))
    ensures r.Ok? ==> r.value == Normalize(req)
    ensures r.Err? ==> Violates(Normalize(req), r.error)
  {
    var out := req.(name := Trim(req.name), version := Trim(req.version));
    if out.projectId == "" || out.name == "" || out.version == "" || |out.jobs| == 0 {
      return Err(MissingFields);
    }
    if out.executionMode == "" {
      out := out.(executionMode := "prefect");
    }
    if out.executionMode != "prefect" && out.executionMode != "functions" {
      return Err(BadMode);
    }
    var checked := CheckJobs(out.executionMode, out.jobs);
    if checked.Err? {
      return Err(checked.error);
    }
    out := out.(jobs := checked.value);
    assert out == Normalize(req);
    var known := CheckDependencies(out.jobs);
    if !known {
      return Err(BadDependency);
    }
    DepsOfClosed(out.jobs);
    var acyclic := FindsNoCycle(DepsOf(out.jobs));
    if !acyclic {
      return Err(Cycle);
    }
    return Ok(out);
  }
}
