/**
 Agent traces and sessions: every recorded trace is counted in exactly one session, so the
 usage shown for an agent is that of the requests recorded for it.
 */
module Traces {
  import opened Wrappers

  datatype TraceRequest = TraceRequest(agentId: string, sessionId: string, status: string, node: string,
                                       inputTokens: int, outputTokens: int)

  datatype Trace = Trace(agentId: string, sessionId: string, tokens: int)

  datatype Session = Session(id: string, agentId: string, status: string, node: string,
                             turns: int, inputTokens: int, outputTokens: int)

  datatype TraceError = MissingIds

  datatype Usage = Usage(sessions: nat, active: nat, inputTokens: int, outputTokens: int)

  /** The filter of the list endpoints: an empty agent id selects everything. */
  predicate Selects(filter: string, agentId: string) {
    filter == "" || agentId == filter
  }

  function Counted(s: Session, req: TraceRequest): Session {
    s.(status := req.status, node := req.node, turns := s.turns + 1,
       inputTokens := s.inputTokens + req.inputTokens, outputTokens := s.outputTokens + req.outputTokens)
  }

  function Opened(req: TraceRequest): Session {
    Session(req.sessionId, req.agentId, req.status, req.node, 1, req.inputTokens, req.outputTokens)
  }

  function TraceOf(req: TraceRequest): Trace {
    Trace(req.agentId, req.sessionId, req.inputTokens + req.outputTokens)
  }

  predicate Matches(s: Session, req: TraceRequest) {
    s.id == req.sessionId && s.agentId == req.agentId
  }

  // ----- Sums over sessions and over the recorded requests -----

  datatype Measure = Turns | InputTokens | OutputTokens

  function InSession(m: Measure, s: Session): int {
    match m case Turns => s.turns case InputTokens => s.inputTokens case OutputTokens => s.outputTokens
  }

  function InRequest(m: Measure, req: TraceRequest): int {
    match m case Turns => 1 case InputTokens => req.inputTokens case OutputTokens => req.outputTokens
  }

  function SessionSum(sessions: seq<Session>, filter: string, m: Measure): int {
    if sessions == [] then 0
    else (if Selects(filter, sessions[0].agentId) then InSession(m, sessions[0]) else 0) + SessionSum(sessions[1..], filter, m)
  }

  function RequestSum(log: seq<TraceRequest>, filter: string, m: Measure): int {
    if log == [] then 0
    else (if Selects(filter, log[0].agentId) then InRequest(m, log[0]) else 0) + RequestSum(log[1..], filter, m)
  }

  function TraceCount(traces: seq<Trace>, filter: string): int {
    if traces == [] then 0
    else (if Selects(filter, traces[0].agentId) then 1 else 0) + TraceCount(traces[1..], filter)
  }

  function TraceTokens(traces: seq<Trace>, filter: string): int {
    if traces == [] then 0
    else (if Selects(filter, traces[0].agentId) then traces[0].tokens else 0) + TraceTokens(traces[1..], filter)
  }

  /** The latest request of a session; the log has the latest request in front. */
  function Latest(log: seq<TraceRequest>, agentId: string, id: string): Option<TraceRequest> {
    if log == [] then None
    else if log[0].agentId == agentId && log[0].sessionId == id then Some(log[0])
    else Latest(log[1..], agentId, id)
  }

  predicate LeftRunning(latest: Option<TraceRequest>) {
    latest.Some? && latest.value.status == "running"
  }

  /** A session shows status and node of its latest request. */
  ghost predicate ShowsLatest(s: Session, latest: Option<TraceRequest>) {
    latest.Some? && s.status == latest.value.status && s.node == latest.value.node
  }

  /** The sessions that the requests of an agent belong to; if `active`, those left running by their latest request. */
  ghost function Keys(log: seq<TraceRequest>, filter: string, active: bool): set<(string, string)> {
    set i | 0 <= i < |log| && Selects(filter, log[i].agentId)
            && (active ==> LeftRunning(Latest(log, log[i].agentId, log[i].sessionId)))
      :: (log[i].agentId, log[i].sessionId)
  }

  // ----- The balance -----

  ghost predicate UniqueSessions(sessions: seq<Session>) {
    forall i, j :: 0 <= i < j < |sessions| ==> sessions[i].id != sessions[j].id || sessions[i].agentId != sessions[j].agentId
  }

  /** There is a session for exactly the recorded pairs of agent and session, showing the latest request. */
  ghost predicate Current(log: seq<TraceRequest>, sessions: seq<Session>) {
    && (forall i :: 0 <= i < |sessions| ==> ShowsLatest(sessions[i], Latest(log, sessions[i].agentId, sessions[i].id)))
    && (forall r :: r in log ==> exists i :: 0 <= i < |sessions| && Matches(sessions[i], r))
  }

  /** Sessions are unique, current, and account for every request and every token, for each agent and overall. */
  ghost predicate Balanced(log: seq<TraceRequest>, sessions: seq<Session>) {
    && UniqueSessions(sessions) && Current(log, sessions)
    && forall filter, m :: SessionSum(sessions, filter, m) == RequestSum(log, filter, m)
  }

  /** Counting a request into one session moves the sums of its agent, and no other sum. */
  lemma {:induction false} CountedSums(sessions: seq<Session>, k: nat, req: TraceRequest, filter: string, m: Measure)
    requires k < |sessions| && sessions[k].agentId == req.agentId
    ensures SessionSum(sessions[k := Counted(sessions[k], req)], filter, m)
         == SessionSum(sessions, filter, m) + if Selects(filter, req.agentId) then InRequest(m, req) else 0
  {
    var after := sessions[k := Counted(sessions[k], req)];
    if k == 0 {
      assert after[1..] == sessions[1..];
    } else {
      CountedSums(sessions[1..], k - 1, req, filter, m);
      assert after[1..] == sessions[1..][k - 1 := Counted(sessions[k], req)];
    }
  }

  /** The session list after a request: its session counted once more, or a new one in front. */
  ghost predicate SessionStep(before: seq<Session>, after: seq<Session>, req: TraceRequest) {
    || (exists k :: 0 <= k < |before| && Matches(before[k], req) && after == before[k := Counted(before[k], req)])
    || ((forall k :: 0 <= k < |before| ==> !Matches(before[k], req)) && after == [Opened(req)] + before)
  }

  lemma StepCurrent(log: seq<TraceRequest>, before: seq<Session>, after: seq<Session>, req: TraceRequest)
    requires UniqueSessions(before) && Current(log, before) && SessionStep(before, after, req)
    ensures UniqueSessions(after) && Current([req] + log, after)
  {
    var longer := [req] + log;
    assert longer[1..] == log;
    if k :| 0 <= k < |before| && Matches(before[k], req) && after == before[k := Counted(before[k], req)] {
      assert Matches(after[k], req);
      assert forall i, r :: 0 <= i < |before| && Matches(before[i], r) ==> Matches(after[i], r);
    } else {
      assert Matches(after[0], req) && after[1..] == before;
      assert forall i, r :: 0 <= i < |before| && Matches(before[i], r) ==> Matches(after[i + 1], r);
    }
  }

  /** Recording a request keeps the balance. */
  lemma StepBalances(log: seq<TraceRequest>, before: seq<Session>, after: seq<Session>, req: TraceRequest)
    requires Balanced(log, before) && SessionStep(before, after, req)
    ensures Balanced([req] + log, after)
  {
    StepCurrent(log, before, after, req);
    hide Current, UniqueSessions;
    assert ([req] + log)[1..] == log;
    forall filter, m
      ensures SessionSum(after, filter, m) == RequestSum([req] + log, filter, m)
    {
      if k :| 0 <= k < |before| && Matches(before[k], req) && after == before[k := Counted(before[k], req)] {
        CountedSums(before, k, req, filter, m);
      } else {
        assert after[1..] == before;
      }
    }
  }

  /** The traces are those of the recorded requests, in the same order. */
  ghost predicate Traced(log: seq<TraceRequest>, traces: seq<Trace>) {
    |traces| == |log| && forall i :: 0 <= i < |log| ==> traces[i] == TraceOf(log[i])
  }

  lemma {:induction false} TracedSums(log: seq<TraceRequest>, traces: seq<Trace>, filter: string)
    requires Traced(log, traces)
    ensures TraceCount(traces, filter) == RequestSum(log, filter, Turns)
    ensures TraceTokens(traces, filter) == RequestSum(log, filter, InputTokens) + RequestSum(log, filter, OutputTokens)
  {
    if log != [] {
      TracedSums(log[1..], traces[1..], filter);
    }
  }

  /** For each agent and overall: session turns add up to the traces, session tokens to the trace tokens. */
  lemma SessionsAccountForTraces(log: seq<TraceRequest>, traces: seq<Trace>, sessions: seq<Session>, filter: string)
    requires Traced(log, traces) && Balanced(log, sessions)
    ensures SessionSum(sessions, filter, Turns) == TraceCount(traces, filter)
    ensures SessionSum(sessions, filter, InputTokens) + SessionSum(sessions, filter, OutputTokens) == TraceTokens(traces, filter)
  {
    TracedSums(log, traces, filter);
  }

  // ----- Counting sessions -----

  predicate Shown(s: Session, filter: string, active: bool) {
    Selects(filter, s.agentId) && (active ==> s.status == "running")
  }

  function Count(sessions: seq<Session>, filter: string, active: bool): nat {
    if sessions == [] then 0
    else (if Shown(sessions[0], filter, active) then 1 else 0) + Count(sessions[1..], filter, active)
  }

  function SessionKeys(sessions: seq<Session>, filter: string, active: bool): set<(string, string)> {
    if sessions == [] then {}
    else (if Shown(sessions[0], filter, active) then {(sessions[0].agentId, sessions[0].id)} else {})
         + SessionKeys(sessions[1..], filter, active)
  }

  lemma {:induction false} SessionKeysAre(sessions: seq<Session>, filter: string, active: bool, k: (string, string))
    ensures k in SessionKeys(sessions, filter, active)
       <==> exists i :: 0 <= i < |sessions| && k == (sessions[i].agentId, sessions[i].id) && Shown(sessions[i], filter, active)
  {
    if sessions != [] {
      SessionKeysAre(sessions[1..], filter, active, k);
      assert forall i :: 0 < i < |sessions| ==> sessions[i] == sessions[1..][i - 1];
      assert forall i :: 0 <= i < |sessions[1..]| ==> sessions[1..][i] == sessions[i + 1];
    }
  }

  /** Unique sessions are counted once each. */
  lemma {:induction false} CountIsSize(sessions: seq<Session>, filter: string, active: bool)
    requires UniqueSessions(sessions)
    ensures Count(sessions, filter, active) == |SessionKeys(sessions, filter, active)|
  {
    if sessions != [] {
      CountIsSize(sessions[1..], filter, active);
      SessionKeysAre(sessions[1..], filter, active, (sessions[0].agentId, sessions[0].id));
    }
  }

  lemma {:induction false} LatestOf(log: seq<TraceRequest>, r: TraceRequest)
    requires r in log
    ensures Latest(log, r.agentId, r.sessionId).Some?
  {
    if r != log[0] {
      LatestOf(log[1..], r);
    }
  }

  lemma KeysAre(log: seq<TraceRequest>, filter: string, active: bool, k: (string, string))
    ensures k in Keys(log, filter, active)
       <==> Selects(filter, k.0) && Latest(log, k.0, k.1).Some? && (active ==> LeftRunning(Latest(log, k.0, k.1)))
  {
    if Latest(log, k.0, k.1).Some? {
      LatestFound(log, k.0, k.1);
    } else if j :| 0 <= j < |log| && k == (log[j].agentId, log[j].sessionId) {
      LatestOf(log, log[j]);
    }
  }

  lemma CurrentLatest(log: seq<TraceRequest>, sessions: seq<Session>, k: (string, string))
    requires Current(log, sessions) && Latest(log, k.0, k.1).Some?
    ensures exists i :: 0 <= i < |sessions| && k == (sessions[i].agentId, sessions[i].id)
  {
    LatestFound(log, k.0, k.1);
    var j :| 0 <= j < |log| && log[j].agentId == k.0 && log[j].sessionId == k.1;
    var r := log[j];
    assert r in log;
    var i :| 0 <= i < |sessions| && Matches(sessions[i], r);
  }

  /** The sessions shown for an agent are those of its requests. */
  lemma CurrentKeys(log: seq<TraceRequest>, sessions: seq<Session>, filter: string, active: bool)
    requires Current(log, sessions)
    ensures SessionKeys(sessions, filter, active) == Keys(log, filter, active)
  {
    forall k
      ensures k in SessionKeys(sessions, filter, active) <==> k in Keys(log, filter, active)
    {
      SessionKeysAre(sessions, filter, active, k);
      KeysAre(log, filter, active, k);
      if Latest(log, k.0, k.1).Some? {
        CurrentLatest(log, sessions, k);
      }
      hide Keys, SessionKeys, Latest;
    }
  }

  lemma {:induction false} LatestFound(log: seq<TraceRequest>, agentId: string, id: string)
    requires Latest(log, agentId, id).Some?
    ensures exists j :: 0 <= j < |log| && log[j].agentId == agentId && log[j].sessionId == id
  {
    if !(log[0].agentId == agentId && log[0].sessionId == id) {
      LatestFound(log[1..], agentId, id);
      var j :| 0 <= j < |log[1..]| && log[1..][j].agentId == agentId && log[1..][j].sessionId == id;
      assert log[j + 1] == log[1..][j];
    }
  }

  class TraceStore {
    var traces: seq<Trace>
    var sessions: seq<Session>
    /** The requests recorded so far, the latest in front. */
    ghost var log: seq<TraceRequest>

    ghost predicate Valid()
      reads this
    {
      Traced(log, traces) && Balanced(log, sessions)
    }

    constructor ()
      ensures Valid() && traces == [] && sessions == [] && log == []
    {
      traces, sessions, log := [], [], [];
    }

    /** Records the trace and walks all sessions, counting it wherever agent and session match. */
    method RecordTrace(req: TraceRequest) returns (r: Result<Trace, TraceError>)
      requires Valid()
      modifies this
      ensures Valid()
      ensures r.Err? <==> req.agentId == "" || req.sessionId == ""
      ensures r.Err? ==> traces == old(traces) && sessions == old(sessions) && log == old(log)
      ensures r.Ok? ==>
                && r.value == TraceOf(req) && log == [req] + old(log)
                && traces == [r.value] + old(traces)
                && SessionStep(old(sessions), sessions, req)
    {
      if req.agentId == "" || req.sessionId == "" {
        return Err(MissingIds);
      }
      var trace := Trace(req.agentId, req.sessionId, req.inputTokens + req.outputTokens);
      ghost var before := sessions;
      traces, log := [trace] + traces, [req] + log;
      var found := false;
      ghost var at := 0;
      for i := 0 to |sessions|
        invariant |sessions| == |before| && traces == [trace] + old(traces) && log == [req] + old(log)
        invariant found ==> at < i && Matches(before[at], req) && sessions == before[at := Counted(before[at], req)]
        invariant !found ==> sessions == before && forall j :: 0 <= j < i ==> !Matches(before[j], req)
      {
        if Matches(sessions[i], req) {
          assert !found;
          sessions := sessions[i := Counted(sessions[i], req)];
          found, at := true, i;
        }
      }
      if !found {
        sessions := [Opened(req)] + sessions;
      }
      StepBalances(old(log), before, sessions, req);
      return Ok(trace);
    }

    /**
     The usage of an agent: how many sessions its requests belong to, how many of those their latest
     request left running, and the tokens of its requests, which are those of its traces.
     */
    method AgentUsage(agentId: string) returns (usage: Usage)
      requires Valid()
      ensures usage.sessions == |Keys(log, agentId, false)| && usage.active == |Keys(log, agentId, true)|
      ensures usage.inputTokens == RequestSum(log, agentId, InputTokens)
      ensures usage.outputTokens == RequestSum(log, agentId, OutputTokens)
      ensures usage.inputTokens + usage.outputTokens == TraceTokens(traces, agentId)
    {
      usage := Usage(0, 0, 0, 0);
      assert sessions[0..] == sessions;
      for i := 0 to |sessions|
        invariant usage.sessions + Count(sessions[i..], agentId, false) == Count(sessions, agentId, false)
        invariant usage.active + Count(sessions[i..], agentId, true) == Count(sessions, agentId, true)
        invariant usage.inputTokens + SessionSum(sessions[i..], agentId, InputTokens) == SessionSum(sessions, agentId, InputTokens)
        invariant usage.outputTokens + SessionSum(sessions[i..], agentId, OutputTokens) == SessionSum(sessions, agentId, OutputTokens)
      {
        var s := sessions[i];
        assert sessions[i..][1..] == sessions[i + 1..];
        if Selects(agentId, s.agentId) {
          if s.status == "running" {
            usage := usage.(active := usage.active + 1);
          }
          usage := usage.(sessions := usage.sessions + 1, inputTokens := usage.inputTokens + s.inputTokens,
                          outputTokens := usage.outputTokens + s.outputTokens);
        }
      }
      CountIsSize(sessions, agentId, false);
      CountIsSize(sessions, agentId, true);
      CurrentKeys(log, sessions, agentId, false);
      CurrentKeys(log, sessions, agentId, true);
      SessionsAccountForTraces(log, traces, sessions, agentId);
    }
  }
}
