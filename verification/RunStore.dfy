/**
 The file-backed run store. A stored run is a record that points at its own buffer of steps,
 which reports update in place; every operation is one step under the store's lock and is
 proved to have exactly the effect that the value-level operations of `Runs` give it.
 */
module RunStore {
  import opened Wrappers
  import opened Graph
  import opened Pipelines
  import opened Runs
  import opened Trimming
  import Validator

  /** A run as stored: everything but the steps by value, the steps behind a reference. */
  datatype Record = Record(head: Run, steps: array<Step>)

  ghost function View(r: Record): Run
    reads r.steps
  {
    r.head.(steps := r.steps[..])
  }

  // ----- Step transitions -----

  lemma {:induction false} UpsertInPlace(steps: seq<Step>, k: nat, name: Name, status: StepStatus)
    requires k < |steps| && steps[k].name == name && forall i :: 0 <= i < k ==> steps[i].name != name
    ensures Upsert(steps, name, status) == steps[k := WithStatus(steps[k], status)]
  {
    if k > 0 {
      UpsertInPlace(steps[1..], k - 1, name, status);
    }
  }

  lemma {:induction false} UpsertAppends(steps: seq<Step>, name: Name, status: StepStatus)
    requires forall i :: 0 <= i < |steps| ==> steps[i].name != name
    ensures Upsert(steps, name, status) == steps + [NewStep(name, status)]
  {
    if steps != [] {
      UpsertAppends(steps[1..], name, status);
    }
  }

  /** Overwrites the named step in place, or moves to a buffer that has room for a new one. */
  method UpsertStep(steps: array<Step>, name: Name, status: StepStatus) returns (r: array<Step>)
    modifies steps
    ensures r[..] == Upsert(old(steps[..]), name, status)
    ensures r == steps || (fresh(r) && steps[..] == old(steps[..]))
  {
    var i := 0;
    while i < steps.Length && steps[i].name != name
      invariant 0 <= i <= steps.Length
      invariant forall j :: 0 <= j < i ==> steps[j].name != name
    {
      i := i + 1;
    }
    if i < steps.Length {
      UpsertInPlace(steps[..], i, name, status);
      steps[i] := WithStatus(steps[i], status);
      r := steps;
    } else {
      UpsertAppends(steps[..], name, status);
      r := new Step[steps.Length + 1](k => NewStep(name, status));
      for j := 0 to steps.Length
        invariant steps[..] == old(steps[..])
        invariant r[..j] == steps[..j] && r[steps.Length] == NewStep(name, status)
      {
        r[j] := steps[j];
      }
      assert r[..] == r[..steps.Length] + [r[steps.Length]];
    }
  }

  method CountSteps(steps: array<Step>) returns (completed: nat, failed: nat, running: nat)
    ensures completed == Tally(steps[..], FINISHED)
    ensures failed == Tally(steps[..], {Failed})
    ensures running == Tally(steps[..], {Running})
  {
    completed, failed, running := 0, 0, 0;
    for i := 0 to steps.Length
      invariant completed == Tally(steps[..i], FINISHED)
      invariant failed == Tally(steps[..i], {Failed})
      invariant running == Tally(steps[..i], {Running})
    {
      assert steps[..i + 1][..i] == steps[..i];
      match steps[i].status {
        case Succeeded => completed := completed + 1;
        case Skipped => completed := completed + 1;
        case Failed => failed := failed + 1;
        case Running => running := running + 1;
        case Pending =>
      }
    }
    assert steps[..steps.Length] == steps[..];
  }

  method ApplyStepTransition(r: Record, name: Name, status: StepStatus) returns (out: Record)
    modifies r.steps
    ensures View(out) == Transition(old(View(r)), name, status)
    ensures out.steps == r.steps || fresh(out.steps)
  {
    var steps := UpsertStep(r.steps, name, status);
    var completed, failed, running := CountSteps(steps);
    var head := r.head;
    if steps.Length > 0 {
      head := head.(progress := Percent(completed, steps.Length));
    }
    if failed > 0 {
      head := head.(status := RunFailed);
    } else if completed == steps.Length {
      head := head.(status := RunSucceeded, progress := 100);
    } else if running > 0 || completed > 0 {
      head := head.(status := RunRunning);
    }
    out := Record(head, steps);
  }

  /** Logs a report and, unless the run has ended, applies it. */
  method TakeReport(r: Record, report: Report) returns (out: Record)
    modifies r.steps
    ensures View(out) == WithReport(old(View(r)), report)
    ensures out.steps == r.steps || fresh(out.steps)
  {
    out := r.(head := r.head.(logs := r.head.logs + [LogOf(report)]));
    if !IsTerminal(out.head.status) {
      out := ApplyStepTransition(out, report.step, report.status);
    }
  }

  /** A fresh buffer with every step back to pending. */
  method CopyReset(previous: array<Step>) returns (steps: array<Step>)
    ensures fresh(steps) && steps[..] == ResetSteps(previous[..])
  {
    steps := new Step[previous.Length](i requires 0 <= i < previous.Length reads previous => previous[i]);
    for i := 0 to steps.Length
      invariant forall j :: 0 <= j < i ==> steps[j] == previous[j].(status := Pending, progress := 0)
      invariant forall j :: i <= j < steps.Length ==> steps[j] == previous[j]
    {
      steps[i] := steps[i].(status := Pending, progress := 0);
    }
  }

  method RetryRecord(previous: Record, newId: string) returns (r: Record)
    ensures fresh(r.steps) && View(r) == RetryOf(View(previous), newId)
  {
    var steps := CopyReset(previous.steps);
    var head := Run(newId, previous.head.projectId, previous.head.name, RunQueued, 0, previous.head.id, "",
                    previous.head.definitionId, previous.head.mode, [],
                    [Log("", "info", "Retry created from " + previous.head.id)]);
    r := Record(head, steps);
  }

  // ----- The store -----

  class Store {
    var projects: set<string>
    var definitions: seq<Definition>
    var runs: seq<Record>

    ghost function Buffers(): set<array<Step>>
      reads this
    {
      set i | 0 <= i < |runs| :: runs[i].steps
    }

    /** No two stored runs share a step buffer. */
    ghost predicate Valid()
      reads this
    {
      forall i, j :: 0 <= i < j < |runs| ==> runs[i].steps != runs[j].steps
    }

    ghost function Contents(): (db: Db)
      reads this, Buffers()
      ensures |db.runs| == |runs| && forall i :: 0 <= i < |runs| ==> db.runs[i] == View(runs[i])
      ensures db.projects == projects && db.definitions == definitions
    {
      Db(projects, definitions, seq(|runs|, i requires 0 <= i < |runs| reads this, Buffers() => View(runs[i])))
    }

    method IndexOf(id: string) returns (i: nat)
      requires Valid()
      ensures i == Find(Contents().runs, id)
    {
      i := 0;
      while i < |runs| && runs[i].head.id != id
        invariant i <= |runs|
        invariant forall j :: 0 <= j < i ==> Contents().runs[j].id != id
      {
        i := i + 1;
      }
    }

    /** Replaces the by-value part of one stored run. */
    method PutHead(i: nat, head: Run)
      requires Valid() && i < |runs|
      modifies this
      ensures Valid() && Buffers() == old(Buffers())
      ensures runs == old(runs)[i := old(runs)[i].(head := head)]
      ensures Contents() == old(Contents()).(runs := old(Contents()).runs[i := head.(steps := old(runs)[i].steps[..])])
    {
      ghost var before := Contents();
      runs := runs[i := runs[i].(head := head)];
      assert Buffers() == old(Buffers()) by {
        assert forall k :: 0 <= k < |runs| ==> runs[k].steps == old(runs)[k].steps;
      }
      assert Contents().runs == before.runs[i := head.(steps := runs[i].steps[..])];
    }

    /** Replaces one stored run by a record in its own or a new buffer. */
    method PutRecord(i: nat, record: Record)
      requires Valid() && i < |runs|
      requires record.steps == runs[i].steps || record.steps !in Buffers()
      modifies this
      ensures Valid() && Buffers() <= old(Buffers()) + {record.steps}
      ensures runs == old(runs)[i := record]
      ensures Contents() == old(Contents()).(runs := old(Contents()).runs[i := View(record)])
    {
      ghost var before := Contents();
      runs := runs[i := record];
      assert Buffers() <= old(Buffers()) + {record.steps} by {
        assert forall k :: 0 <= k < |runs| && k != i ==> runs[k] == old(runs)[k];
      }
      assert Contents().runs == before.runs[i := View(record)];
    }

    /** Adds a run with a new buffer in front. */
    method Prepend(record: Record)
      requires Valid() && record.steps !in Buffers()
      modifies this
      ensures Valid() && Buffers() == old(Buffers()) + {record.steps}
      ensures runs == [record] + old(runs)
      ensures Contents() == old(Contents()).(runs := [View(record)] + old(Contents()).runs)
    {
      ghost var before := Contents();
      runs := [record] + runs;
      assert Buffers() == old(Buffers()) + {record.steps} by {
        assert forall k :: 0 <= k < |old(runs)| ==> runs[k + 1] == old(runs)[k];
        assert runs[0] == record;
      }
      assert Contents().runs == [View(record)] + before.runs;
    }

    method UpdateRunStep(id: string, step: Name, status: string, message: string) returns (r: Result<Record, StoreError>)
      requires Valid()
      modifies this, Buffers()
      ensures Valid() && forall b :: b in Buffers() ==> b in old(Buffers()) || fresh(b)
      ensures Contents() == Effect(old(Contents()), OpReport(id, step, status, message))
      ensures match Response(old(Contents()), OpReport(id, step, status, message))
              case Ok(_) => r.Ok? && View(r.value) == Contents().runs[Find(old(Contents()).runs, id)]
              case Err(e) => r == Err(e)
    {
      if step == "" || status == "" {
        return Err(Invalid);
      }
      var parsed := ParseStatus(status);
      if parsed.None? {
        return Err(Invalid);
      }
      var i := IndexOf(id);
      if i == |runs| {
        return Err(NotFound);
      }
      var record := ReportAt(i, Report(step, parsed.value, message));
      return Ok(record);
    }

    /** Applies a report to one stored run; the other runs keep their buffers and contents. */
    method ReportAt(i: nat, report: Report) returns (record: Record)
      requires Valid() && i < |runs|
      modifies this, runs[i].steps
      ensures Valid() && Buffers() <= old(Buffers()) + {record.steps}
      ensures record.steps in old(Buffers()) || fresh(record.steps)
      ensures runs == old(runs)[i := record]
      ensures Contents() == old(Contents()).(runs := old(Contents()).runs[i := WithReport(old(Contents()).runs[i], report)])
    {
      ghost var before := Contents();
      record := TakeReport(runs[i], report);
      hide WithReport;
      assert forall k :: 0 <= k < |runs| && k != i ==> Contents().runs[k] == before.runs[k];
      PutRecord(i, record);
      assert Contents().runs == before.runs[i := WithReport(before.runs[i], report)];
    }

    method CancelRun(id: string, actor: string) returns (r: Result<Record, StoreError>)
      requires Valid()
      modifies this
      ensures Valid() && Buffers() == old(Buffers())
      ensures Contents() == Effect(old(Contents()), OpCancel(id, actor))
      ensures match Response(old(Contents()), OpCancel(id, actor))
              case Ok(_) => r.Ok? && View(r.value) == Contents().runs[Find(old(Contents()).runs, id)]
              case Err(e) => r == Err(e)
    {
      var i := IndexOf(id);
      if i == |runs| {
        return Err(NotFound);
      }
      var head := runs[i].head;
      if head.status.RunSucceeded? || head.status.RunFailed? {
        return Err(Invalid);
      }
      var log := Log("", "warning", "Run cancelled by " + actor);
      PutHead(i, head.(status := RunCancelled, logs := head.logs + [log]));
      return Ok(runs[i]);
    }

    method SetRunEngine(id: string, engine: string) returns (r: Result<Record, StoreError>)
      requires Valid()
      modifies this
      ensures Valid() && Buffers() == old(Buffers())
      ensures Contents() == Effect(old(Contents()), OpLink(id, engine))
      ensures match Response(old(Contents()), OpLink(id, engine))
              case Ok(_) => r.Ok? && View(r.value) == Contents().runs[Find(old(Contents()).runs, id)]
              case Err(e) => r == Err(e)
    {
      var i := IndexOf(id);
      if i == |runs| {
        return Err(NotFound);
      }
      PutHead(i, runs[i].head.(engineId := engine));
      return Ok(runs[i]);
    }

    /** The retry gets a buffer of its own, so its later reports leave the earlier run alone. */
    method RetryRun(id: string, newId: string) returns (r: Result<Record, StoreError>)
      requires Valid()
      modifies this
      ensures Valid() && if r.Ok? then Buffers() == old(Buffers()) + {r.value.steps} else Buffers() == old(Buffers())
      ensures Contents() == Effect(old(Contents()), OpRetry(id, newId))
      ensures match Response(old(Contents()), OpRetry(id, newId))
              case Ok(_) => r.Ok? && fresh(r.value.steps) && View(r.value) == Contents().runs[0]
              case Err(e) => r == Err(e)
    {
      var i := IndexOf(id);
      if i == |runs| {
        return Err(NotFound);
      }
      var record := RetryRecord(runs[i], newId);
      hide RetryOf;
      Prepend(record);
      return Ok(runs[0]);
    }

    method SubmitPipeline(projectId: string, definitionId: string, name: string, newId: string)
      returns (r: Result<Record, StoreError>)
      requires Valid()
      modifies this
      ensures Valid() && if r.Ok? then Buffers() == old(Buffers()) + {r.value.steps} else Buffers() == old(Buffers())
      ensures Contents() == Effect(old(Contents()), OpSubmit(projectId, definitionId, name, newId))
      ensures match Response(old(Contents()), OpSubmit(projectId, definitionId, name, newId))
              case Ok(_) => r.Ok? && fresh(r.value.steps) && View(r.value) == Contents().runs[0]
              case Err(e) => r == Err(e)
    {
      var planned := PlanSubmission(projectId, definitionId, name, newId);
      hide Submission;
      if planned.Err? {
        return Err(planned.error);
      }
      var run := planned.value;
      var buffer := new Step[|run.steps|](i requires 0 <= i < |run.steps| => run.steps[i]);
      assert buffer[..] == run.steps;
      Prepend(Record(run.(steps := []), buffer));
      return Ok(runs[0]);
    }

    method PlanSubmission(projectId: string, definitionId: string, name: string, newId: string)
      returns (r: Result<Run, StoreError>)
      requires Valid()
      ensures r == Submission(Contents(), projectId, definitionId, name, newId)
    {
      if projectId !in projects {
        return Err(NotFound);
      }
      var steps, mode, given := DefaultSteps(Pending, 0), "prefect", name;
      if definitionId != "" {
        var i := FindDefinition(definitions, definitionId);
        if i == |definitions| || definitions[i].body.projectId != projectId {
          return Err(NotFound);
        }
        steps, mode := StepsFromDefinition(definitions[i].body.jobs), definitions[i].body.executionMode;
        if Trim(given) == "" {
          given := definitions[i].body.name;
        }
      }
      if Trim(given) == "" {
        given := "training-pipeline";
        assert Trim(given) == given;
      }
      return Ok(Run(newId, projectId, Trim(given), RunQueued, 0, "", "", definitionId, mode, steps,
                    [Log("", "info", "Run accepted by control plane")]));
    }

    /** Stores a definition only after the validator has accepted it. */
    method UpsertPipelineDefinition(id: string, req: Request, newId: string) returns (r: Result<(), StoreError>)
      requires Valid()
      modifies this
      ensures Valid() && Buffers() == old(Buffers())
      ensures if Accepted(Normalize(req))
              then && Contents() == Effect(old(Contents()), OpDefine(id, Normalize(req), newId))
                   && (r.Ok? <==> Response(old(Contents()), OpDefine(id, Normalize(req), newId)).Ok?)
              else Contents() == old(Contents()) && r.Err? && r.error.Rejected?
    {
      hide Accepted, Normalize, Cleaned, Alike, Violates;
      var checked := Validator.ValidatePipelineDefinition(req);
      if checked.Err? {
        return Err(Rejected(checked.error));
      }
      var body := checked.value;
      if body.projectId !in projects {
        return Err(NotFound);
      }
      ghost var before := Contents();
      var i := FindForUpsert(definitions, id, body);
      if i < |definitions| {
        definitions := definitions[i := definitions[i].(body := body.(projectId := definitions[i].body.projectId))];
      } else {
        definitions := [Definition(newId, body)] + definitions;
      }
      assert Contents().runs == before.runs;
      return Ok(());
    }
  }
}
