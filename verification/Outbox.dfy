/**
 The transactional outbox: writes commit a resource, its audit row and its outbox rows
 together, and any number of workers publish pending rows. Transactions, workers, publish
 failures, database failures and crashes interleave freely.
 */
module Outbox {
  import opened Wrappers

  /** One call of the repository's `write`. */
  datatype Write = Write(kind: string, id: string, value: string, action: string, actor: string)

  datatype Body = AuditEvent(write: Write) | Command(write: Write)

  datatype Row = Row(topic: string, key: string, body: Body, published: bool, attempts: nat, lastError: Option<string>)

  type Seq = nat

  predicate HasPrefix(s: string, prefix: string) {
    prefix <= s
  }

  function TopicForAction(action: string): string {
    if HasPrefix(action, "pipeline.") then "mlaiops.pipeline.commands"
    else if HasPrefix(action, "model.") then "mlaiops.model.commands"
    else if HasPrefix(action, "agent.") then "mlaiops.agent.commands"
    else if HasPrefix(action, "tool.") then "mlaiops.tool.commands"
    else if HasPrefix(action, "connection.") then "mlaiops.connection.commands"
    else if HasPrefix(action, "access.") then "mlaiops.workspace.commands"
    else ""
  }

  /** The actor as recorded: empty means anonymous. */
  function Recorded(w: Write): Write {
    w.(actor := if w.actor == "" then "anonymous" else w.actor)
  }

  /** The outbox rows of a write: its audit event, and a command if its action has a topic. */
  function RowsFor(w: Write): seq<Row> {
    var e := Recorded(w);
    [Row("mlaiops.audit.operations", w.id, AuditEvent(e), false, 0, None)]
    + if TopicForAction(w.action) == "" then [] else [Row(TopicForAction(w.action), w.id, Command(e), false, 0, None)]
  }

  // ----- Protocol state -----

  /** An open transaction: the sequence numbers its outbox inserts have drawn so far. */
  datatype Tx = Tx(write: Write, drawn: seq<Seq>)

  datatype Commit = Commit(write: Write, rows: seq<Seq>)

  datatype Worker =
    | Idle
    | Sending(batch: seq<Seq>)
    | MarkingSent(batch: seq<Seq>)
    | MarkingFailed(batch: seq<Seq>, error: string)

  datatype State = State(
    resources: map<(string, string), string>,
    audits: seq<Write>,
    rows: map<Seq, Row>,
    next: Seq,
    open: map<nat, Tx>,
    workers: map<nat, Worker>,
    commits: seq<Commit>,
    sent: seq<(Seq, Row)>)

  const INIT := State(map[], [], map[], 0, map[], map[], [], [])

  const LIMIT := 100

  // ----- The pending rows, lowest first -----

  predicate IsLeast(s: set<Seq>, m: Seq) {
    m in s && forall k :: k in s ==> m <= k
  }

  function Least(s: set<Seq>): (m: Seq)
    requires s != {}
    ensures IsLeast(s, m)
  {
    LeastExists(s);
    var m :| m in s && IsLeast(s, m);
    m
  }

  lemma {:induction false} LeastExists(s: set<Seq>)
    requires s != {}
    ensures exists m :: m in s && IsLeast(s, m)
  {
    var x :| x in s;
    var rest := s - {x};
    if rest == {} {
      assert s == {x};
      assert IsLeast(s, x);
    } else {
      LeastExists(rest);
      var m :| m in rest && IsLeast(rest, m);
      var least := if x <= m then x else m;
      assert forall k :: k in s ==> k == x || k in rest;
      assert IsLeast(s, least);
    }
  }

  function Ascending(s: set<Seq>): seq<Seq> {
    if s == {} then [] else [Least(s)] + Ascending(s - {Least(s)})
  }

  /** `Ascending` lists a set, each element once, lowest first. */
  lemma {:induction false} AscendingSorts(s: set<Seq>)
    ensures forall q :: q in Ascending(s) <==> q in s
    ensures forall i, j :: 0 <= i < j < |Ascending(s)| ==> Ascending(s)[i] < Ascending(s)[j]
    ensures |Ascending(s)| == |s|
  {
    if s != {} {
      var m := Least(s);
      var rest := s - {m};
      var tail := Ascending(rest);
      AscendingSorts(rest);
      assert Ascending(s) == [m] + tail;
      hide Ascending, Least;
      assert |s| == |rest| + 1;
      assert forall q :: q in s <==> q == m || q in rest;
      forall j | 0 <= j < |tail|
        ensures m < tail[j]
      {
        assert tail[j] in tail;
      }
    }
  }

  function Pending(rows: map<Seq, Row>): set<Seq> {
    set q | q in rows && !rows[q].published
  }

  function Take(s: seq<Seq>, limit: nat): (r: seq<Seq>)
    ensures r <= s
  {
    if |s| <= limit then s else s[..limit]
  }

  /** What a fetch returns: pending rows that are not locked, lowest number first, at most `LIMIT` of them. */
  function PendingOutbox(rows: map<Seq, Row>, locked: set<Seq>): (batch: seq<Seq>)
    ensures forall q :: q in batch ==> q in Pending(rows) - locked
  {
    AscendingSorts(Pending(rows) - locked);
    Take(Ascending(Pending(rows) - locked), LIMIT)
  }

  // ----- Steps -----

  datatype Action =
    | Begin(tx: nat, write: Write)
    | Insert(tx: nat)
    | Commit_(tx: nat)
    | Abort(tx: nat)
    | Fetch(worker: nat, locked: set<Seq>)
    | Publish(worker: nat, error: Option<string>)
    | MarkPublished(worker: nat, ok: bool)
    | MarkFailed(worker: nat, ok: bool)
    | Crash(worker: nat)

  function WorkerOf(s: State, w: nat): Worker {
    if w in s.workers then s.workers[w] else Idle
  }

  predicate Enabled(s: State, a: Action) {
    match a
    case Begin(t, _) => t !in s.open
    case Insert(t) => t in s.open && |s.open[t].drawn| < |RowsFor(s.open[t].write)|
    case Commit_(t) => t in s.open && |s.open[t].drawn| == |RowsFor(s.open[t].write)|
    case Abort(t) => t in s.open
    case Fetch(w, _) => WorkerOf(s, w).Idle?
    case Publish(w, _) => WorkerOf(s, w).Sending? && WorkerOf(s, w).batch != [] && WorkerOf(s, w).batch[0] in s.rows
    case MarkPublished(w, _) => WorkerOf(s, w).MarkingSent? && WorkerOf(s, w).batch != [] && WorkerOf(s, w).batch[0] in s.rows
    case MarkFailed(w, _) => WorkerOf(s, w).MarkingFailed? && WorkerOf(s, w).batch != [] && WorkerOf(s, w).batch[0] in s.rows
    case Crash(_) => true
  }

  /** The worker moves on to the rest of its batch, or ends its flush. */
  function Rest(batch: seq<Seq>): Worker
    requires batch != []
  {
    if |batch| == 1 then Idle else Sending(batch[1..])
  }

  function MarkedPublished(r: Row): Row {
    r.(published := true, attempts := r.attempts + 1, lastError := None)
  }

  function MarkedFailed(r: Row, error: string): Row {
    r.(attempts := r.attempts + 1, lastError := Some(error))
  }

  function NewRows(drawn: seq<Seq>, rows: seq<Row>): map<Seq, Row>
    requires |drawn| == |rows|
  {
    if drawn == [] then map[]
    else NewRows(drawn[..|drawn| - 1], rows[..|rows| - 1])[drawn[|drawn| - 1] := rows[|rows| - 1]]
  }

  /** A commit makes the resource, the audit row and the outbox rows visible at once. */
  function ApplyCommit(s: State, t: nat): State
    requires Enabled(s, Commit_(t))
  {
    var w, drawn := s.open[t].write, s.open[t].drawn;
    s.(resources := s.resources[(w.kind, w.id) := w.value],
       audits := s.audits + [Recorded(w)],
       rows := s.rows + NewRows(drawn, RowsFor(w)),
       open := s.open - {t},
       commits := s.commits + [Commit(w, drawn)])
  }

  /** A transaction begins, inserts its next outbox row, or is rolled back. */
  function ApplyTx(s: State, a: Action): State
    requires Enabled(s, a) && (a.Begin? || a.Insert? || a.Abort?)
  {
    match a
    case Begin(t, w) => s.(open := s.open[t := Tx(w, [])])
    case Insert(t) => s.(next := s.next + 1, open := s.open[t := s.open[t].(drawn := s.open[t].drawn + [s.next])])
    case Abort(t) => s.(open := s.open - {t})
  }

  function ApplyFetch(s: State, w: nat, locked: set<Seq>): State {
    var batch := PendingOutbox(s.rows, locked);
    s.(workers := s.workers[w := if batch == [] then Idle else Sending(batch)])
  }

  function ApplyPublish(s: State, w: nat, error: Option<string>): State
    requires Enabled(s, Publish(w, error))
  {
    var batch := s.workers[w].batch;
    match error
    case None => s.(workers := s.workers[w := MarkingSent(batch)], sent := s.sent + [(batch[0], s.rows[batch[0]])])
    case Some(e) => s.(workers := s.workers[w := MarkingFailed(batch, e)])
  }

  /** The bookkeeping after a publish; a failed update of a sent row ends the flush. */
  function ApplyMark(s: State, a: Action): State
    requires Enabled(s, a) && (a.MarkPublished? || a.MarkFailed?)
  {
    var batch := s.workers[a.worker].batch;
    var q := batch[0];
    var moved := s.(workers := s.workers[a.worker := if a.MarkPublished? && !a.ok then Idle else Rest(batch)]);
    if !a.ok then moved
    else if a.MarkPublished? then moved.(rows := s.rows[q := MarkedPublished(s.rows[q])])
    else moved.(rows := s.rows[q := MarkedFailed(s.rows[q], s.workers[a.worker].error)])
  }

  function Apply(s: State, a: Action): State
    requires Enabled(s, a)
  {
    match a
    case Begin(_, _) => ApplyTx(s, a)
    case Insert(_) => ApplyTx(s, a)
    case Abort(_) => ApplyTx(s, a)
    case Commit_(t) => ApplyCommit(s, t)
    case Fetch(w, locked) => ApplyFetch(s, w, locked)
    case Publish(w, error) => ApplyPublish(s, w, error)
    case MarkPublished(_, _) => ApplyMark(s, a)
    case MarkFailed(_, _) => ApplyMark(s, a)
    case Crash(w) => s.(workers := s.workers[w := Idle])
  }

  ghost predicate Admissible(run: seq<Action>)
    decreases |run|, 0
  {
    run == [] || (Admissible(run[..|run| - 1]) && Enabled(After(run[..|run| - 1]), run[|run| - 1]))
  }

  ghost function After(run: seq<Action>): State
    requires Admissible(run)
    decreases |run|, 1
  {
    if run == [] then INIT else Apply(After(run[..|run| - 1]), run[|run| - 1])
  }
}
