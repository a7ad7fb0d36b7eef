/** What every history of the run store keeps. */
module RunTheorems {
  import opened Graph
  import opened Pipelines
  import opened Runs

  // ----- Counting steps -----

  lemma {:induction false} TallyMeans(steps: seq<Step>, which: set<StepStatus>)
    ensures Tally(steps, which) <= |steps|
    ensures Tally(steps, which) > 0 <==> exists i :: 0 <= i < |steps| && steps[i].status in which
    ensures Tally(steps, which) == |steps| <==> forall i :: 0 <= i < |steps| ==> steps[i].status in which
  {
    if steps != [] {
      var k := |steps| - 1;
      TallyMeans(steps[..k], which);
      assert forall i :: 0 <= i < k ==> steps[..k][i] == steps[i];
    }
  }

  /** The positions of the steps whose status is one of `which`. */
  ghost function Positions(steps: seq<Step>, which: set<StepStatus>): set<int> {
    set i | 0 <= i < |steps| && steps[i].status in which
  }

  /** A tally counts those positions. */
  lemma {:induction false} TallyIsSize(steps: seq<Step>, which: set<StepStatus>)
    ensures Tally(steps, which) == |Positions(steps, which)|
  {
    if steps != [] {
      var k := |steps| - 1;
      TallyIsSize(steps[..k], which);
      assert forall i :: 0 <= i < k ==> steps[..k][i] == steps[i];
      assert Positions(steps, which) == Positions(steps[..k], which) + if steps[k].status in which then {k} else {};
    }
  }

  ghost predicate DistinctNames(steps: seq<Step>) {
    forall i, j :: 0 <= i < j < |steps| ==> steps[i].name != steps[j].name
  }

  ghost predicate Named(steps: seq<Step>, name: Name) {
    exists i :: 0 <= i < |steps| && steps[i].name == name
  }

  /** An upsert touches at most one step: the first of that name, or a new last one. */
  lemma {:induction false} UpsertShape(steps: seq<Step>, name: Name, status: StepStatus) returns (k: nat)
    ensures var r := Upsert(steps, name, status);
            && k < |r| && |steps| <= |r| <= |steps| + 1
            && (forall i :: 0 <= i < k ==> i < |steps| && r[i] == steps[i] && steps[i].name != name)
            && (if k < |steps|
                then |r| == |steps| && steps[k].name == name && r[k] == WithStatus(steps[k], status)
                else k == |steps| && |r| == |steps| + 1 && r[k] == NewStep(name, status))
            && (forall i :: k < i < |r| ==> r[i] == steps[i])
  {
    if steps == [] || steps[0].name == name {
      k := 0;
    } else {
      var j := UpsertShape(steps[1..], name, status);
      k := j + 1;
      var r, tail := Upsert(steps, name, status), Upsert(steps[1..], name, status);
      assert r == [steps[0]] + tail;
      hide Upsert;
      assert forall i :: 0 < i < |r| ==> r[i] == tail[i - 1];
      assert forall i :: 0 < i < |steps| ==> steps[i] == steps[1..][i - 1];
    }
  }

  // ----- The run invariant -----

  /** Each finished step shows full progress. */
  ghost predicate StepsOk(steps: seq<Step>) {
    && |steps| > 0
    && DistinctNames(steps)
    && forall i :: 0 <= i < |steps| && IsFinished(steps[i].status) ==> steps[i].progress == 100
  }

  ghost predicate AllFinished(steps: seq<Step>) {
    forall i :: 0 <= i < |steps| ==> IsFinished(steps[i].status)
  }

  ghost predicate SomeFailed(steps: seq<Step>) {
    exists i :: 0 <= i < |steps| && steps[i].status.Failed?
  }

  ghost predicate AllPending(steps: seq<Step>) {
    forall i :: 0 <= i < |steps| ==> steps[i].status.Pending?
  }

  /** `progress` is the share of succeeded or skipped steps in per cent, rounded down. */
  ghost predicate IsFloorOfShare(steps: seq<Step>, progress: int) {
    var done := |Positions(steps, {Succeeded, Skipped})|;
    progress * |steps| <= 100 * done < (progress + 1) * |steps|
  }

  /** Status and progress say what the steps say. */
  ghost predicate RunOk(run: Run) {
    && StepsOk(run.steps)
    && IsFloorOfShare(run.steps, run.progress) && run.progress <= 100
    && (run.progress == 100 <==> AllFinished(run.steps))
    && (run.status.RunSucceeded? <==> AllFinished(run.steps))
    && (run.status.RunFailed? <==> SomeFailed(run.steps))
    && (run.status.RunQueued? ==> AllPending(run.steps))
  }

  lemma UpsertStepsOk(steps: seq<Step>, name: Name, status: StepStatus)
    requires DistinctNames(steps)
    requires forall i :: 0 <= i < |steps| && IsFinished(steps[i].status) ==> steps[i].progress == 100
    ensures StepsOk(Upsert(steps, name, status))
  {
    var k := UpsertShape(steps, name, status);
  }

  lemma PercentRoundsDown(steps: seq<Step>)
    requires steps != []
    ensures IsFloorOfShare(steps, Percent(Tally(steps, FINISHED), |steps|))
  {
    TallyIsSize(steps, FINISHED);
    hide Tally, Positions;
    DivisionRoundsDown(Tally(steps, FINISHED) * 100, |steps|);
  }

  lemma DivisionRoundsDown(a: nat, n: nat)
    requires n > 0
    ensures a / n * n <= a < (a / n + 1) * n
  {
    var q := a / n;
    assert a == q * n + a % n;
    assert (q + 1) * n == q * n + n;
  }

  /** Rounding down reaches 100 only when everything counts. */
  lemma PercentFull(c: nat, n: nat)
    requires 0 < n && c <= n
    ensures Percent(c, n) <= 100
    ensures Percent(c, n) == 100 <==> c == n
  {
    if c < n {
      assert c * 100 < 100 * n;
    } else {
      assert c * 100 == 100 * n;
    }
  }

  /** A report accepted by a live run leaves it consistent, whatever it was before. */
  lemma TransitionOk(run: Run, name: Name, status: StepStatus)
    requires RunOk(run) && !IsTerminal(run.status)
    ensures RunOk(Transition(run, name, status))
  {
    var steps := Upsert(run.steps, name, status);
    UpsertStepsOk(run.steps, name, status);
    TallyMeans(steps, FINISHED);
    PercentFull(Tally(steps, FINISHED), |steps|);
    PercentRoundsDown(steps);
    TalliesMean(steps);
    hide Upsert, Tally, StepsOk, Percent, AllFinished, SomeFailed, AllPending, IsFloorOfShare;
  }

  /** The three counters tell what the steps are like. */
  lemma TalliesMean(steps: seq<Step>)
    ensures AllFinished(steps) <==> Tally(steps, FINISHED) == |steps|
    ensures SomeFailed(steps) <==> Tally(steps, {Failed}) > 0
    ensures Tally(steps, {Failed}) == 0 && Tally(steps, {Running}) == 0 && Tally(steps, FINISHED) == 0 ==> AllPending(steps)
    ensures steps != [] && AllFinished(steps) ==> !SomeFailed(steps)
  {
    TallyMeans(steps, FINISHED);
    TallyMeans(steps, {Failed});
    TallyMeans(steps, {Running});
    hide Tally;
    forall i | 0 <= i < |steps| && !steps[i].status.Pending?
      ensures steps[i].status in FINISHED || steps[i].status in {Failed} || steps[i].status in {Running}
    {
    }
  }

  lemma ReportedOk(run: Run, r: Report)
    requires RunOk(run)
    ensures RunOk(WithReport(run, r))
  {
    if !IsTerminal(run.status) {
      var logged := run.(logs := run.logs + [LogOf(r)]);
      TransitionOk(logged, r.step, r.status);
    }
  }

  lemma FreshStepsOk(run: Run)
    requires run.status == RunQueued && run.progress == 0
    requires |run.steps| > 0 && DistinctNames(run.steps) && AllPending(run.steps)
    ensures RunOk(run)
  {
    TallyMeans(run.steps, FINISHED);
    assert run.steps[0].status.Pending?;
    PercentFull(Tally(run.steps, FINISHED), |run.steps|);
    PercentRoundsDown(run.steps);
  }

  lemma RetryOk(run: Run, newId: string)
    requires RunOk(run)
    ensures RunOk(RetryOf(run, newId))
  {
    FreshStepsOk(RetryOf(run, newId));
  }

  lemma CancelledOk(run: Run, actor: string)
    requires RunOk(run) && !run.status.RunSucceeded? && !run.status.RunFailed?
    ensures RunOk(Cancelled(run, actor))
  {
  }

  // ----- The store invariant -----

  ghost predicate UniqueIds(runs: seq<Run>) {
    forall i, j :: 0 <= i < j < |runs| ==> runs[i].id != runs[j].id
  }

  ghost predicate DbOk(db: Db) {
    && UniqueIds(db.runs)
    && (forall i :: 0 <= i < |db.runs| ==> RunOk(db.runs[i]))
    && (forall i :: 0 <= i < |db.definitions| ==> Accepted(db.definitions[i].body))
  }

  lemma SubmitOk(db: Db, projectId: string, definitionId: string, name: string, newId: string)
    requires DbOk(db) && Allowed(db, OpSubmit(projectId, definitionId, name, newId))
    ensures var r := Submit(db, projectId, definitionId, name, newId);
            r.Ok? ==> |r.value.runs| == |db.runs| + 1 && r.value.runs[1..] == db.runs
                      && r.value.runs[0].id == newId && RunOk(r.value.runs[0]) && r.value.definitions == db.definitions
  {
    var r := Submit(db, projectId, definitionId, name, newId);
    if r.Ok? {
      if definitionId != "" {
        var i := FindDefinition(db.definitions, definitionId);
        assert Accepted(db.definitions[i].body);
      }
      FreshStepsOk(r.value.runs[0]);
    }
  }

  lemma AcceptedKeepsProject(body: Request, projectId: string)
    requires Accepted(body) && projectId != ""
    ensures Accepted(body.(projectId := projectId))
  {
  }

  lemma ReplaceOk(db: Db, i: nat, run: Run)
    requires DbOk(db) && i < |db.runs| && run.id == db.runs[i].id && RunOk(run)
    ensures DbOk(db.(runs := db.runs[i := run]))
  {
    hide RunOk, Accepted;
  }

  lemma PrependOk(db: Db, run: Run)
    requires DbOk(db) && RunOk(run)
    requires forall i :: 0 <= i < |db.runs| ==> db.runs[i].id != run.id
    ensures DbOk(db.(runs := [run] + db.runs))
  {
    hide RunOk, Accepted;
  }

  lemma DefineOk(db: Db, id: string, body: Request, newId: string)
    requires DbOk(db) && Accepted(body)
    ensures DbOk(Effect(db, OpDefine(id, body, newId)))
  {
    var i := FindForUpsert(db.definitions, id, body);
    if i < |db.definitions| {
      AcceptedKeepsProject(body, db.definitions[i].body.projectId);
    }
    hide RunOk, Accepted;
  }

  /** Every allowed operation keeps the store consistent. */
  lemma EffectOk(db: Db, op: Op)
    requires DbOk(db) && Allowed(db, op)
    ensures DbOk(Effect(db, op))
  {
    match op
    case OpSubmit(p, d, n, i) =>
      SubmitOk(db, p, d, n, i);
      hide RunOk, Accepted;
      var r := Submit(db, p, d, n, i);
      if r.Ok? {
        PrependOk(db, r.value.runs[0]);
      }
    case OpDefine(id, b, n) =>
      DefineOk(db, id, b, n);
    case OpRetry(id, n) =>
      var i := Find(db.runs, id);
      if i < |db.runs| {
        RetryOk(db.runs[i], n);
        PrependOk(db, RetryOf(db.runs[i], n));
      }
    case _ =>
      RewriteOk(db, op);
  }

  /** Reports, cancellations and links rewrite one run in place. */
  lemma RewriteOk(db: Db, op: Op)
    requires DbOk(db) && (op.OpReport? || op.OpCancel? || op.OpLink?)
    ensures DbOk(Effect(db, op))
  {
    var i := Find(db.runs, op.id);
    if Response(db, op).Ok? {
      var run := db.runs[i];
      match op {
        case OpReport(_, s, t, m) =>
          var r := Report(s, ParseStatus(t).value, m);
          ReportedOk(run, r);
          ReplaceOk(db, i, WithReport(run, r));
        case OpCancel(_, a) =>
          CancelledOk(run, a);
          ReplaceOk(db, i, Cancelled(run, a));
        case OpLink(_, e) =>
          ReplaceOk(db, i, run.(engineId := e));
      }
    }
  }

  lemma SeedOk()
    ensures DbOk(SEED)
  {
    var steps := DefaultSteps(Succeeded, 100);
    TallyMeans(steps, FINISHED);
    PercentFull(Tally(steps, FINISHED), |steps|);
    PercentRoundsDown(steps);
    assert AllFinished(steps);
  }

  lemma {:induction false} HistoryOk(db: Db, ops: seq<Op>)
    requires DbOk(db) && Possible(db, ops)
    ensures DbOk(AfterOps(db, ops))
    decreases |ops|
  {
    if ops != [] {
      EffectOk(db, ops[0]);
      HistoryOk(Effect(db, ops[0]), ops[1..]);
    }
  }

  /** Every run in every reachable store is consistent. */
  lemma EveryRunConsistent(ops: seq<Op>, i: nat)
    requires Possible(SEED, ops) && i < |AfterOps(SEED, ops).runs|
    ensures RunOk(AfterOps(SEED, ops).runs[i])
    ensures IsFloorOfShare(AfterOps(SEED, ops).runs[i].steps, AfterOps(SEED, ops).runs[i].progress)
  {
    SeedOk();
    HistoryOk(SEED, ops);
  }

  // ----- Ended runs are frozen -----

  /** `later` is the same ended run: only its log and its engine link may differ. */
  ghost predicate Frozen(run: Run, later: Run) {
    && later.id == run.id
    && later.status == run.status && later.progress == run.progress && later.steps == run.steps
    && run.logs <= later.logs
  }

  /** An operation either adds a run in front, rewrites the one run it names, or leaves all runs alone. */
  lemma EffectShape(db: Db, op: Op) returns (front: bool)
    ensures var next := Effect(db, op).runs;
            if front then |next| == |db.runs| + 1 && next[1..] == db.runs
            else
              && |next| == |db.runs|
              && forall i :: 0 <= i < |next| ==>
                   || next[i] == db.runs[i]
                   || ((op.OpReport? || op.OpCancel? || op.OpLink?) && op.id == db.runs[i].id
                       && next[i].id == db.runs[i].id
                       && (IsTerminal(db.runs[i].status) ==> Frozen(db.runs[i], next[i])))
  {
    hide Upsert, Tally, Recomputed, LogOf;
    front := |Effect(db, op).runs| > |db.runs|;
  }

  /** One operation leaves an ended run frozen, and every run it is not about untouched. */
  lemma EffectFreezes(db: Db, op: Op, i: nat) returns (j: nat)
    requires i < |db.runs|
    ensures j < |Effect(db, op).runs|
    ensures IsTerminal(db.runs[i].status) ==> Frozen(db.runs[i], Effect(db, op).runs[j])
    ensures Effect(db, op).runs[j].id == db.runs[i].id
    ensures !(op.OpReport? || op.OpCancel? || op.OpLink?) || op.id != db.runs[i].id ==>
              Effect(db, op).runs[j] == db.runs[i]
  {
    var front := EffectShape(db, op);
    j := if front then i + 1 else i;
    hide Effect;
    assert front ==> Effect(db, op).runs[j] == Effect(db, op).runs[1..][i];
  }

  /** However a history goes on, an ended run keeps status, progress and steps; its log only grows. */
  lemma {:induction false} EndedRunsFrozen(db: Db, ops: seq<Op>, i: nat) returns (j: nat)
    requires DbOk(db) && Possible(db, ops) && i < |db.runs| && IsTerminal(db.runs[i].status)
    ensures j < |AfterOps(db, ops).runs| && Frozen(db.runs[i], AfterOps(db, ops).runs[j])
    decreases |ops|
  {
    if ops == [] {
      j := i;
    } else {
      var k := EffectFreezes(db, ops[0], i);
      EffectOk(db, ops[0]);
      var next := Effect(db, ops[0]);
      j := EndedRunsFrozen(next, ops[1..], k);
    }
  }

  /** A retry starts with every step pending, under the same step names, beside the unchanged parent. */
  lemma RetryStartsPending(db: Db, id: string, newId: string)
    requires DbOk(db) && Find(db.runs, id) < |db.runs|
    ensures var next := Effect(db, OpRetry(id, newId));
            var parent := db.runs[Find(db.runs, id)];
            && |next.runs| == |db.runs| + 1 && next.runs[1..] == db.runs
            && next.runs[0].status == RunQueued && next.runs[0].progress == 0 && AllPending(next.runs[0].steps)
            && next.runs[0].parentId == id
            && |next.runs[0].steps| == |parent.steps|
            && forall k :: 0 <= k < |parent.steps| ==> next.runs[0].steps[k].name == parent.steps[k].name
  {
    var next := Effect(db, OpRetry(id, newId));
    assert next.runs[1..] == db.runs;
  }
}
