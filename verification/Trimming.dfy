/** What trimming a definition means: which part of each text stays, and what else is left alone. */
module Trimming {
  import opened Graph
  import opened Pipelines

  /** Everything outside `s[i..j]` is white space, and `s[i..j]` neither starts nor ends with any. */
  ghost predicate Strips(s: string, i: nat, j: nat) {
    && i <= j <= |s|
    && (forall k :: 0 <= k < i ==> IsSpace(s[k]))
    && (forall k :: j <= k < |s| ==> IsSpace(s[k]))
    && (i < j ==> !IsSpace(s[i]) && !IsSpace(s[j - 1]))
  }

  /** `r` is `s` without the white space around it. */
  ghost predicate Trimmed(s: string, r: string) {
    exists i: nat, j: nat :: Strips(s, i, j) && r == s[i..j]
  }

  lemma {:induction false} TrimLeftIs(s: string) returns (i: nat)
    ensures i <= |s| && TrimLeft(s) == s[i..]
    ensures (forall k :: 0 <= k < i ==> IsSpace(s[k])) && (i < |s| ==> !IsSpace(s[i]))
  {
    i := 0;
    if s != "" && IsSpace(s[0]) {
      var rest := TrimLeftIs(s[1..]);
      i := rest + 1;
      assert forall k :: 1 <= k < |s| ==> s[k] == s[1..][k - 1];
    }
  }

  lemma {:induction false} TrimRightIs(s: string) returns (j: nat)
    ensures j <= |s| && TrimRight(s) == s[..j]
    ensures (forall k :: j <= k < |s| ==> IsSpace(s[k])) && (j > 0 ==> !IsSpace(s[j - 1]))
  {
    j := |s|;
    if s != "" && IsSpace(s[|s| - 1]) {
      j := TrimRightIs(s[..|s| - 1]);
    }
  }

  lemma TrimIs(s: string)
    ensures Trimmed(s, Trim(s))
  {
    var i := TrimLeftIs(s);
    var rest := s[i..];
    var n := TrimRightIs(rest);
    var j := i + n;
    assert rest[..n] == s[i..j];
    hide TrimLeft, TrimRight, IsSpace;
    assert forall k :: j <= k < |s| ==> s[k] == rest[k - i];
    assert Strips(s, i, j);
  }

  lemma StripsOnce(s: string, i: nat, j: nat, k: nat, l: nat)
    requires Strips(s, i, j) && Strips(s, k, l)
    ensures s[i..j] == s[k..l]
  {
  }

  /** There is only one way to trim a text, and it is what trimming does. */
  lemma TrimmedIff(s: string, r: string)
    ensures Trimmed(s, r) <==> r == Trim(s)
  {
    TrimIs(s);
    if Trimmed(s, r) {
      var i: nat, j: nat :| Strips(s, i, j) && r == s[i..j];
      var k: nat, l: nat :| Strips(s, k, l) && Trim(s) == s[k..l];
      StripsOnce(s, i, j, k, l);
    }
  }

  lemma TrimBlank(s: string)
    ensures Trim(s) == "" <==> Blank(s)
  {
    TrimIs(s);
    var i: nat, j: nat :| Strips(s, i, j) && Trim(s) == s[i..j];
    hide Trim;
  }

  // ----- Definitions -----

  ghost predicate CleanedJob(given: Job, job: Job) {
    && Trimmed(given.name, job.name) && Trimmed(given.kind, job.kind)
    && job.function_ == given.function_ && job.image == given.image && job.dependsOn == given.dependsOn
    && job.resources == given.resources && job.retries == given.retries
  }

  /** The request with name, version, job names and job kinds trimmed and an empty mode filled in; nothing else changes. */
  ghost predicate Cleaned(given: Request, r: Request) {
    && r.projectId == given.projectId
    && Trimmed(given.name, r.name) && Trimmed(given.version, r.version)
    && r.executionMode == (if given.executionMode == "" then "prefect" else given.executionMode)
    && |r.jobs| == |given.jobs| && forall i :: 0 <= i < |r.jobs| ==> CleanedJob(given.jobs[i], r.jobs[i])
  }

  lemma CleanedJobIff(given: Job, job: Job)
    ensures CleanedJob(given, job) <==> job == NormalizeJob(given)
  {
    TrimmedIff(given.name, job.name);
    TrimmedIff(given.kind, job.kind);
    hide Trimmed, Trim;
  }

  /** Normalising is cleaning. */
  lemma CleanedIff(given: Request, r: Request)
    ensures Cleaned(given, r) <==> r == Normalize(given)
  {
    TrimmedIff(given.name, r.name);
    TrimmedIff(given.version, r.version);
    hide Trimmed, Trim;
    forall i | 0 <= i < |given.jobs| && i < |r.jobs|
      ensures CleanedJob(given.jobs[i], r.jobs[i]) <==> r.jobs[i] == NormalizeJob(given.jobs[i])
    {
      CleanedJobIff(given.jobs[i], r.jobs[i]);
    }
    hide CleanedJob, NormalizeJob;
    if Cleaned(given, r) {
      assert r.jobs == NormalizeJobs(given.jobs);
    }
  }

  /** Two texts that differ at most in the white space around them. */
  ghost predicate Alike(a: string, b: string) {
    exists core :: Trimmed(a, core) && Trimmed(b, core)
  }

  /** Two jobs whose names differ at most in surrounding white space are never both accepted. */
  lemma AlikeNamesRejected(given: Request, r: Request, i: nat, j: nat)
    requires Cleaned(given, r) && i < j < |given.jobs| && Alike(given.jobs[i].name, given.jobs[j].name)
    ensures !Accepted(r)
  {
    assert CleanedJob(given.jobs[i], r.jobs[i]) && CleanedJob(given.jobs[j], r.jobs[j]);
    var core :| Trimmed(given.jobs[i].name, core) && Trimmed(given.jobs[j].name, core);
    TrimmedIff(given.jobs[i].name, core);
    TrimmedIff(given.jobs[j].name, core);
    TrimmedIff(given.jobs[i].name, r.jobs[i].name);
    TrimmedIff(given.jobs[j].name, r.jobs[j].name);
    hide Trimmed, Trim;
    assert r.jobs[i].name == r.jobs[j].name;
  }

  /** A job is in order exactly when no job-level error applies to it. */
  lemma FaultlessIff(mode: string, job: Job)
    requires mode in {"prefect", "functions"}
    ensures JobOk(mode, job) <==> forall e :: !JobFault(mode, job, e)
  {
    if forall e :: !JobFault(mode, job, e) {
      assert !JobFault(mode, job, BadKind) && !JobFault(mode, job, NoFunction) && !JobFault(mode, job, NoImage);
      assert !JobFault(mode, job, NotAFunction) && !JobFault(mode, job, BadCpu) && !JobFault(mode, job, BadMemory);
      assert !JobFault(mode, job, Negative);
    }
  }

  /** What acceptance means, spelled out field by field. */
  lemma AcceptedMeans(r: Request)
    ensures Accepted(r) <==>
              && r.projectId != "" && r.name != "" && r.version != "" && |r.jobs| > 0
              && (r.executionMode == "prefect" || r.executionMode == "functions")
              && (forall i :: 0 <= i < |r.jobs| ==> r.jobs[i].name != "")
              && (forall i, j :: 0 <= i < j < |r.jobs| ==> r.jobs[i].name != r.jobs[j].name)
              && (forall i :: 0 <= i < |r.jobs| ==> InOrder(r.executionMode, r.jobs[i]))
              && (forall i, k :: 0 <= i < |r.jobs| && 0 <= k < |r.jobs[i].dependsOn| ==>
                    r.jobs[i].dependsOn[k] != r.jobs[i].name
                    && exists j :: 0 <= j < |r.jobs| && r.jobs[j].name == r.jobs[i].dependsOn[k])
              && Acyclic(DepsOf(r.jobs))
  {
    hide Acyclic, IsQuantity, Blank;
    forall i | 0 <= i < |r.jobs|
      ensures DependsOnOthers(r.jobs[i], Names(r.jobs)) <==>
                forall k :: 0 <= k < |r.jobs[i].dependsOn| ==>
                  r.jobs[i].dependsOn[k] != r.jobs[i].name
                  && exists j :: 0 <= j < |r.jobs| && r.jobs[j].name == r.jobs[i].dependsOn[k]
    {
      var job := r.jobs[i];
      assert forall k :: 0 <= k < |job.dependsOn| ==> job.dependsOn[k] in job.dependsOn;
    }
    hide Names;
    assert forall i :: 0 <= i < |r.jobs| ==> (InOrder(r.executionMode, r.jobs[i]) <==> JobOk(r.executionMode, r.jobs[i]));
  }

  /** A function job with a function or, outside functions mode, a container job with an image; well-formed, non-negative demands. */
  ghost predicate InOrder(mode: string, job: Job) {
    && ((job.kind == "function" && !Blank(job.function_)) || (mode != "functions" && job.kind == "container" && !Blank(job.image)))
    && (job.resources.cpu == "" || IsQuantity(job.resources.cpu)) && (job.resources.memory == "" || IsQuantity(job.resources.memory))
    && 0 <= job.retries && 0 <= job.resources.gpu
  }

  ghost predicate CountWithUnit(s: string, count: string, unit: string) {
    s == count + unit && IsCount(count) && unit in {"", "m", "Mi", "Gi"}
  }

  lemma QuantitySplits(s: string) returns (count: string, unit: string)
    requires IsQuantity(s)
    ensures CountWithUnit(s, count, unit)
  {
    hide IsCount;
    var n := if IsCount(s) then |s| else if s[|s| - 1..] == "m" && IsCount(s[..|s| - 1]) then |s| - 1 else |s| - 2;
    count, unit := s[..n], s[n..];
    assert s == count + unit;
    assert n == |s| ==> count == s;
  }

  lemma SplitIsQuantity(s: string, count: string, unit: string)
    requires CountWithUnit(s, count, unit)
    ensures IsQuantity(s)
  {
    assert count != "";
    hide IsCount;
    assert s[..|count|] == count && s[|count|..] == unit;
    assert unit == "" ==> s == count;
  }

  /** A quantity is a positive count followed by one of the units. */
  lemma QuantityIff(s: string)
    ensures IsQuantity(s) <==> exists count: string, unit: string :: CountWithUnit(s, count, unit)
  {
    if IsQuantity(s) {
      var count, unit := QuantitySplits(s);
    }
    forall count: string, unit: string | CountWithUnit(s, count, unit)
      ensures IsQuantity(s)
    {
      SplitIsQuantity(s, count, unit);
    }
  }
}
