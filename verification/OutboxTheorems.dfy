/** What every interleaving of writers, publishers, failures and crashes keeps. */
module OutboxTheorems {
  import opened Wrappers
  import opened Outbox

  // ----- Invariant -----

  predicate SameRow(a: Row, b: Row) {
    a.topic == b.topic && a.key == b.key && a.body == b.body
  }

  ghost predicate WasSent(rows: map<Seq, Row>, sent: seq<(Seq, Row)>, q: Seq) {
    q in rows && exists j :: 0 <= j < |sent| && sent[j].0 == q && SameRow(sent[j].1, rows[q])
  }

  /** Sequence numbers drawn by an open transaction are its own and not yet rows. */
  ghost predicate Private(s: State, t: nat)
    requires t in s.open
  {
    var drawn := s.open[t].drawn;
    && |drawn| <= |RowsFor(s.open[t].write)|
    && (forall i :: 0 <= i < |drawn| ==> drawn[i] < s.next && drawn[i] !in s.rows)
    && (forall i, j :: 0 <= i < j < |drawn| ==> drawn[i] != drawn[j])
  }

  ghost predicate Apart(a: seq<Seq>, b: seq<Seq>) {
    forall q :: q in a ==> q !in b
  }

  ghost predicate Numbers(s: State) {
    && (forall q :: q in s.rows ==> q < s.next)
    && (forall t :: t in s.open ==> Private(s, t))
    && (forall t, u :: t in s.open && u in s.open && t != u ==> Apart(s.open[t].drawn, s.open[u].drawn))
  }

  /** The rows of a committed write are all there, as the write demands them. */
  ghost predicate HasRows(rows: map<Seq, Row>, c: Commit) {
    && |c.rows| == |RowsFor(c.write)|
    && forall k :: 0 <= k < |c.rows| ==> c.rows[k] in rows && SameRow(rows[c.rows[k]], RowsFor(c.write)[k])
  }

  /** Row `q` is the `k`-th row of the `i`-th committed write. */
  ghost predicate Owns(s: State, i: nat, k: nat, q: Seq) {
    i < |s.commits| && k < |s.commits[i].rows| && s.commits[i].rows[k] == q
  }

  function ResourcesOf(commits: seq<Commit>): map<(string, string), string> {
    if commits == [] then map[]
    else
      var w := commits[|commits| - 1].write;
      ResourcesOf(commits[..|commits| - 1])[(w.kind, w.id) := w.value]
  }

  /** The audit table and the resource table are those of the committed writes, in order. */
  ghost predicate Tables(s: State) {
    && |s.audits| == |s.commits|
    && (forall i :: 0 <= i < |s.commits| ==> s.audits[i] == Recorded(s.commits[i].write))
    && s.resources == ResourcesOf(s.commits)
  }

  ghost predicate RowsWritten(s: State) {
    forall i :: 0 <= i < |s.commits| ==> HasRows(s.rows, s.commits[i])
  }

  ghost predicate RowsOwned(s: State) {
    forall q :: q in s.rows ==> exists i: nat, k: nat :: Owns(s, i, k, q)
  }

  /** No row serves two writes, nor one write twice. */
  ghost predicate OwnedOnce(s: State) {
    forall q, i: nat, k: nat, j: nat, l: nat :: Owns(s, i, k, q) && Owns(s, j, l, q) ==> i == j && k == l
  }

  ghost predicate Committed(s: State) {
    Tables(s) && RowsWritten(s) && RowsOwned(s) && OwnedOnce(s)
  }

  ghost predicate Delivery(s: State) {
    && (forall q :: q in s.rows && s.rows[q].published ==> WasSent(s.rows, s.sent, q))
    && (forall w :: w in s.workers && !s.workers[w].Idle? ==>
          s.workers[w].batch != [] && forall k :: 0 <= k < |s.workers[w].batch| ==> s.workers[w].batch[k] in s.rows)
    && (forall w :: w in s.workers && s.workers[w].MarkingSent? && s.workers[w].batch != [] ==> WasSent(s.rows, s.sent, s.workers[w].batch[0]))
  }

  ghost predicate Inv(s: State) {
    Numbers(s) && Committed(s) && Delivery(s)
  }

  // ----- What a step does to the rows -----

  /** Rows stay, keep their content, and stay published once they are. */
  ghost predicate RowsGrow(before: map<Seq, Row>, after: map<Seq, Row>) {
    forall q :: q in before ==> q in after && SameRow(before[q], after[q]) && (before[q].published ==> after[q].published)
  }

  lemma {:induction false} NewRowsAre(drawn: seq<Seq>, rows: seq<Row>)
    requires |drawn| == |rows| && forall i, j :: 0 <= i < j < |drawn| ==> drawn[i] != drawn[j]
    ensures forall q :: q in NewRows(drawn, rows) <==> q in drawn
    ensures forall k :: 0 <= k < |drawn| ==> drawn[k] in NewRows(drawn, rows) && NewRows(drawn, rows)[drawn[k]] == rows[k]
  {
    if drawn != [] {
      NewRowsAre(drawn[..|drawn| - 1], rows[..|rows| - 1]);
    }
  }

  ghost predicate Grows(s: State, t: State) {
    RowsGrow(s.rows, t.rows) && s.sent <= t.sent && s.commits <= t.commits
  }

  lemma RowsAdded(rows: map<Seq, Row>, drawn: seq<Seq>, added: seq<Row>)
    requires |drawn| == |added| && forall i :: 0 <= i < |drawn| ==> drawn[i] !in rows
    requires forall i, j :: 0 <= i < j < |drawn| ==> drawn[i] != drawn[j]
    ensures var after := rows + NewRows(drawn, added);
            && RowsGrow(rows, after)
            && (forall q :: q in after <==> q in rows || q in drawn)
            && (forall q :: q in rows ==> after[q] == rows[q])
            && (forall k :: 0 <= k < |drawn| ==> after[drawn[k]] == added[k])
  {
    NewRowsAre(drawn, added);
    hide NewRows;
    assert forall q :: q in rows ==> q !in drawn;
  }

  /** What a commit adds: exactly the rows of its write, under numbers that were free. */
  lemma CommitAdds(s: State, t: nat)
    requires Numbers(s) && Enabled(s, Commit_(t))
    ensures var after, drawn, expected := ApplyCommit(s, t), s.open[t].drawn, RowsFor(s.open[t].write);
            && |drawn| == |expected|
            && Grows(s, after)
            && (forall q :: q in after.rows <==> q in s.rows || q in drawn)
            && (forall q :: q in s.rows ==> after.rows[q] == s.rows[q])
            && (forall k :: 0 <= k < |drawn| ==> drawn[k] !in s.rows && after.rows[drawn[k]] == expected[k])
  {
    hide RowsFor, NewRows;
    assert Private(s, t);
    RowsAdded(s.rows, s.open[t].drawn, RowsFor(s.open[t].write));
  }

  lemma MarkGrows(s: State, a: Action)
    requires Enabled(s, a) && (a.MarkPublished? || a.MarkFailed?)
    ensures var t := ApplyMark(s, a);
            && Grows(s, t) && (forall q :: q in t.rows <==> q in s.rows)
            && t.commits == s.commits && t.audits == s.audits && t.resources == s.resources
  {
  }

  lemma StepGrows(s: State, a: Action)
    requires Inv(s) && Enabled(s, a)
    ensures Grows(s, Apply(s, a))
  {
    hide RowsFor, PendingOutbox, Committed, Delivery, ApplyMark, ApplyCommit;
    if a.Commit_? {
      CommitAdds(s, a.tx);
    } else if a.MarkPublished? || a.MarkFailed? {
      MarkGrows(s, a);
    }
  }

  // ----- Numbers -----

  /** The numbers of one open transaction stay private when another commits. */
  lemma PrivateStays(s: State, after: State, t: nat, u: nat)
    requires t in s.open && u in s.open && Private(s, u) && u in after.open && after.open[u] == s.open[u]
    requires after.next == s.next && forall q :: q in after.rows <==> q in s.rows || q in s.open[t].drawn
    requires Apart(s.open[u].drawn, s.open[t].drawn)
    ensures Private(after, u)
  {
    hide RowsFor;
    assert forall i :: 0 <= i < |s.open[u].drawn| ==> s.open[u].drawn[i] in s.open[u].drawn;
  }

  lemma OtherNumbers(s: State, after: State, t: nat)
    requires Numbers(s) && t in s.open && after.open == s.open - {t} && after.next == s.next
    requires forall q :: q in after.rows <==> q in s.rows || q in s.open[t].drawn
    requires forall q :: q in s.open[t].drawn ==> q < s.next
    ensures Numbers(after)
  {
    hide Private, Apart;
    forall u | u in after.open
      ensures Private(after, u)
    {
      PrivateStays(s, after, t, u);
    }
  }

  lemma CommitNumbers(s: State, t: nat)
    requires Numbers(s) && Enabled(s, Commit_(t))
    ensures Numbers(ApplyCommit(s, t))
  {
    CommitAdds(s, t);
    var after := ApplyCommit(s, t);
    assert Private(s, t);
    assert forall q :: q in s.open[t].drawn ==> q < s.next;
    hide RowsFor, NewRows, Grows, Private, Enabled, Apart;
    OtherNumbers(s, after, t);
  }

  lemma TxNumbers(s: State, a: Action)
    requires Numbers(s) && Enabled(s, a) && (a.Begin? || a.Insert? || a.Abort?)
    ensures Numbers(ApplyTx(s, a))
  {
    hide RowsFor;
    var t := ApplyTx(s, a);
    forall u | u in t.open
      ensures Private(t, u)
    {
      assert u in s.open ==> Private(s, u);
    }
    if a.Insert? {
      forall u, q | u in s.open && q in s.open[u].drawn
        ensures q != s.next
      {
        assert Private(s, u);
      }
    }
  }

  lemma SameNumbers(s: State, t: State)
    requires Numbers(s) && t.open == s.open && t.next == s.next && forall q :: q in t.rows <==> q in s.rows
    ensures Numbers(t)
  {
    hide RowsFor;
    forall u | u in t.open
      ensures Private(t, u)
    {
      assert Private(s, u);
    }
  }

  lemma StepNumbers(s: State, a: Action)
    requires Inv(s) && Enabled(s, a)
    ensures Numbers(Apply(s, a))
  {
    hide RowsFor, PendingOutbox, Committed, Delivery, Private;
    if a.Commit_? {
      CommitNumbers(s, a.tx);
    } else if a.Begin? || a.Insert? || a.Abort? {
      TxNumbers(s, a);
    } else {
      SameNumbers(s, Apply(s, a));
    }
  }

  // ----- Committed writes -----

  lemma CommittedStays(s: State, t: State)
    requires Committed(s) && RowsGrow(s.rows, t.rows)
    requires t.commits == s.commits && t.audits == s.audits && t.resources == s.resources
    requires forall q :: q in t.rows ==> q in s.rows
    ensures Committed(t)
  {
    hide RowsFor, ResourcesOf, Recorded;
    assert RowsWritten(t) by {
      forall i | 0 <= i < |t.commits|
        ensures HasRows(t.rows, t.commits[i])
      {
        EarlierRowsStay(s, t, i);
      }
    }
    hide HasRows, RowsWritten;
    assert forall q, i: nat, k: nat :: Owns(t, i, k, q) ==> Owns(s, i, k, q);
    forall q | q in t.rows
      ensures exists i: nat, k: nat :: Owns(t, i, k, q)
    {
      var i: nat, k: nat :| Owns(s, i, k, q);
      assert Owns(t, i, k, q);
    }
  }

  lemma EarlierRowsStay(s: State, t: State, i: nat)
    requires i < |s.commits| && HasRows(s.rows, s.commits[i]) && RowsGrow(s.rows, t.rows)
    ensures HasRows(t.rows, s.commits[i])
  {
    hide RowsFor;
  }

  lemma OwnersGrow(s: State, after: State, c: Commit)
    requires RowsOwned(s) && after.commits == s.commits + [c]
    requires forall q :: q in after.rows ==> q in s.rows || q in c.rows
    ensures RowsOwned(after)
  {
    forall q | q in after.rows
      ensures exists i: nat, k: nat :: Owns(after, i, k, q)
    {
      if q in c.rows {
        var k :| 0 <= k < |c.rows| && c.rows[k] == q;
        assert Owns(after, |s.commits|, k, q);
      } else {
        var i: nat, k: nat :| Owns(s, i, k, q);
        assert Owns(after, i, k, q);
      }
    }
  }

  lemma CommitOwners(s: State, t: nat)
    requires Numbers(s) && Committed(s) && Enabled(s, Commit_(t))
    ensures RowsOwned(ApplyCommit(s, t))
  {
    CommitAdds(s, t);
    hide RowsFor, NewRows, Private, Numbers, Grows, RowsWritten, RowsOwned, OwnedOnce, Tables;
    OwnersGrow(s, ApplyCommit(s, t), Commit(s.open[t].write, s.open[t].drawn));
  }

  /** What an earlier write owns is in the table already, so numbers that were free are not among it. */
  lemma OwnedOnceGrows(s: State, after: State, c: Commit)
    requires RowsWritten(s) && OwnedOnce(s) && after.commits == s.commits + [c]
    requires forall k :: 0 <= k < |c.rows| ==> c.rows[k] !in s.rows
    requires forall k, l :: 0 <= k < l < |c.rows| ==> c.rows[k] != c.rows[l]
    ensures OwnedOnce(after)
  {
    hide RowsFor;
    forall q, i: nat, k: nat | Owns(after, i, k, q)
      ensures if i < |s.commits| then Owns(s, i, k, q) && q in s.rows else i == |s.commits| && k < |c.rows| && c.rows[k] == q
    {
      if i < |s.commits| {
        assert HasRows(s.rows, s.commits[i]);
      }
    }
  }

  lemma CommitOwnsOnce(s: State, t: nat)
    requires Numbers(s) && Committed(s) && Enabled(s, Commit_(t))
    ensures OwnedOnce(ApplyCommit(s, t))
  {
    CommitAdds(s, t);
    assert Private(s, t);
    var after, c := ApplyCommit(s, t), Commit(s.open[t].write, s.open[t].drawn);
    hide RowsFor, NewRows, Numbers, Grows, Tables, RowsOwned, RowsWritten, OwnedOnce;
    OwnedOnceGrows(s, after, c);
  }

  lemma NewCommitHasRows(s: State, t: nat)
    requires Numbers(s) && Enabled(s, Commit_(t))
    ensures HasRows(ApplyCommit(s, t).rows, Commit(s.open[t].write, s.open[t].drawn))
  {
    CommitAdds(s, t);
    hide RowsFor, NewRows, Numbers, ApplyCommit, Grows;
  }

  lemma CommitRows(s: State, t: nat)
    requires Numbers(s) && Committed(s) && Enabled(s, Commit_(t))
    ensures RowsWritten(ApplyCommit(s, t))
  {
    var after := ApplyCommit(s, t);
    CommitAdds(s, t);
    NewCommitHasRows(s, t);
    assert after.commits == s.commits + [Commit(s.open[t].write, s.open[t].drawn)];
    hide RowsFor, NewRows, Numbers, RowsOwned, Tables, ApplyCommit, HasRows, RowsGrow, Enabled;
    forall i | 0 <= i < |after.commits|
      ensures HasRows(after.rows, after.commits[i])
    {
      if i < |s.commits| {
        EarlierRowsStay(s, after, i);
      }
    }
  }

  lemma CommitTables(s: State, t: nat)
    requires Tables(s) && Enabled(s, Commit_(t))
    ensures Tables(ApplyCommit(s, t))
  {
    hide RowsFor, NewRows, Recorded;
    var after := ApplyCommit(s, t);
    assert after.commits[..|after.commits| - 1] == s.commits;
  }

  lemma CommitCommitted(s: State, t: nat)
    requires Numbers(s) && Committed(s) && Enabled(s, Commit_(t))
    ensures Committed(ApplyCommit(s, t))
  {
    CommitTables(s, t);
    CommitRows(s, t);
    CommitOwners(s, t);
    CommitOwnsOnce(s, t);
    hide *;
    assert Committed(ApplyCommit(s, t)) by { CommittedParts(ApplyCommit(s, t)); }
  }

  lemma CommittedParts(s: State)
    requires Tables(s) && RowsWritten(s) && RowsOwned(s) && OwnedOnce(s)
    ensures Committed(s)
  {
  }

  // ----- Delivery -----

  lemma SentStays(s: State, t: State, q: Seq)
    requires WasSent(s.rows, s.sent, q) && Grows(s, t)
    ensures WasSent(t.rows, t.sent, q)
  {
    var j :| 0 <= j < |s.sent| && s.sent[j].0 == q && SameRow(s.sent[j].1, s.rows[q]);
    assert t.sent[j] == s.sent[j];
  }

  /** Delivery after a step in which worker `w` alone may have moved. */
  lemma DeliveryMoves(s: State, t: State, w: nat)
    requires Delivery(s) && Grows(s, t)
    requires forall u :: u != w ==> (u in t.workers <==> u in s.workers) && (u in s.workers ==> t.workers[u] == s.workers[u])
    requires forall q :: q in t.rows && t.rows[q].published ==> q in s.rows && (s.rows[q].published || WasSent(s.rows, s.sent, q))
    requires w in t.workers && !t.workers[w].Idle? ==>
               t.workers[w].batch != [] && forall k :: 0 <= k < |t.workers[w].batch| ==> t.workers[w].batch[k] in s.rows
    requires w in t.workers && t.workers[w].MarkingSent? && t.workers[w].batch != [] ==> WasSent(t.rows, t.sent, t.workers[w].batch[0])
    ensures Delivery(t)
  {
    forall q | WasSent(s.rows, s.sent, q)
      ensures WasSent(t.rows, t.sent, q)
    {
      SentStays(s, t, q);
    }
    hide WasSent;
  }

  lemma FetchDelivery(s: State, w: nat, locked: set<Seq>)
    requires Delivery(s)
    ensures Delivery(ApplyFetch(s, w, locked))
  {
    var batch, t := PendingOutbox(s.rows, locked), ApplyFetch(s, w, locked);
    hide WasSent, PendingOutbox;
    assert forall k :: 0 <= k < |batch| ==> batch[k] in batch;
    DeliveryMoves(s, t, w);
  }

  lemma PublishDelivery(s: State, w: nat, error: Option<string>)
    requires Delivery(s) && Enabled(s, Publish(w, error))
    ensures Delivery(ApplyPublish(s, w, error))
  {
    var t := ApplyPublish(s, w, error);
    if error.None? {
      var q := s.workers[w].batch[0];
      assert t.sent[|s.sent|] == (q, s.rows[q]);
      assert WasSent(t.rows, t.sent, q);
    }
    hide WasSent;
    DeliveryMoves(s, t, w);
  }

  /** A mark changes one row, and publishes it only if it is the row just sent. */
  lemma MarkedRow(s: State, a: Action)
    requires Enabled(s, a) && (a.MarkPublished? || a.MarkFailed?)
    ensures var t, q := ApplyMark(s, a), s.workers[a.worker].batch[0];
            && (forall r :: r in s.rows && r != q ==> r in t.rows && t.rows[r] == s.rows[r])
            && (q in t.rows && t.rows[q].published ==> s.rows[q].published || a.MarkPublished?)
            && t.sent == s.sent
            && a.worker in t.workers && (forall u :: u != a.worker ==> (u in t.workers <==> u in s.workers))
            && (forall u :: u != a.worker && u in s.workers ==> t.workers[u] == s.workers[u])
            && t.workers[a.worker] in {Idle, Rest(s.workers[a.worker].batch)}
  {
  }

  lemma MarkDelivery(s: State, a: Action)
    requires Delivery(s) && Enabled(s, a) && (a.MarkPublished? || a.MarkFailed?)
    ensures Delivery(ApplyMark(s, a))
  {
    MarkGrows(s, a);
    MarkedRow(s, a);
    hide WasSent, Grows, SameRow, ApplyMark;
    var q, t := s.workers[a.worker].batch[0], ApplyMark(s, a);
    assert a.MarkPublished? ==> WasSent(s.rows, s.sent, q);
    DeliveryMoves(s, t, a.worker);
  }

  lemma CommitDelivery(s: State, t: nat)
    requires Numbers(s) && Delivery(s) && Enabled(s, Commit_(t))
    ensures Delivery(ApplyCommit(s, t))
  {
    CommitAdds(s, t);
    var after, drawn, expected := ApplyCommit(s, t), s.open[t].drawn, RowsFor(s.open[t].write);
    assert forall k :: 0 <= k < |expected| ==> !expected[k].published;
    assert after.workers == s.workers;
    hide RowsFor, NewRows, Numbers, ApplyCommit, Delivery, WasSent;
    forall q | q in after.rows && q !in s.rows
      ensures !after.rows[q].published
    {
      var k :| 0 <= k < |drawn| && drawn[k] == q;
      assert after.rows[drawn[k]] == expected[k];
    }
    DeliveryKept(s, after);
  }

  /** Delivery is kept by a step that moves no worker and adds only unpublished rows. */
  lemma DeliveryKept(s: State, t: State)
    requires Delivery(s) && Grows(s, t) && t.workers == s.workers
    requires forall q :: q in t.rows && q !in s.rows ==> !t.rows[q].published
    requires forall q :: q in s.rows ==> t.rows[q] == s.rows[q]
    ensures Delivery(t)
  {
    forall q | WasSent(s.rows, s.sent, q)
      ensures WasSent(t.rows, t.sent, q)
    {
      SentStays(s, t, q);
    }
    hide WasSent;
  }

  lemma StepDelivery(s: State, a: Action)
    requires Inv(s) && Enabled(s, a)
    ensures Delivery(Apply(s, a))
  {
    hide RowsFor, PendingOutbox, WasSent, Committed, Numbers;
    match a
    case Commit_(t) => CommitDelivery(s, t);
    case Fetch(w, locked) => FetchDelivery(s, w, locked);
    case Publish(w, error) => PublishDelivery(s, w, error);
    case MarkPublished(_, _) => MarkDelivery(s, a);
    case MarkFailed(_, _) => MarkDelivery(s, a);
    case Crash(w) => DeliveryMoves(s, Apply(s, a), w);
    case _ =>
  }

  lemma StepPreserves(s: State, a: Action)
    requires Inv(s) && Enabled(s, a)
    ensures Inv(Apply(s, a))
  {
    StepNumbers(s, a);
    StepDelivery(s, a);
    StepCommitted(s, a);
    hide Numbers, Delivery, Committed, Apply, Enabled;
  }

  /** Steps other than commits leave the tables and the set of rows alone. */
  lemma OtherTables(s: State, a: Action)
    requires Enabled(s, a) && !a.Commit_?
    ensures var t := Apply(s, a);
            && t.commits == s.commits && t.audits == s.audits && t.resources == s.resources
            && forall q :: q in t.rows <==> q in s.rows
  {
    hide RowsFor, PendingOutbox;
    if a.MarkPublished? || a.MarkFailed? {
      MarkGrows(s, a);
      hide ApplyMark;
    }
  }

  lemma StepCommitted(s: State, a: Action)
    requires Inv(s) && Enabled(s, a)
    ensures Committed(Apply(s, a))
  {
    if a.Commit_? {
      CommitCommitted(s, a.tx);
    } else {
      StepGrows(s, a);
      OtherTables(s, a);
      hide Numbers, Delivery, Committed, Apply, Enabled;
      CommittedStays(s, Apply(s, a));
    }
  }

  lemma {:induction false} RunPreserves(run: seq<Action>)
    requires Admissible(run)
    ensures Inv(After(run))
    decreases |run|
  {
    if run != [] {
      RunPreserves(run[..|run| - 1]);
      StepPreserves(After(run[..|run| - 1]), run[|run| - 1]);
    }
  }

  // ----- Over every run -----

  /**
   Every committed write has its audit row and all its outbox rows, every row belongs to exactly
   one place of exactly one committed write, and the resource table is what the writes made of it,
   whatever failed, crashed or raced.
   */
  lemma WritesAreComplete(run: seq<Action>)
    requires Admissible(run)
    ensures var s := After(run);
            && |s.audits| == |s.commits|
            && (forall i :: 0 <= i < |s.commits| ==> s.audits[i] == Recorded(s.commits[i].write) && HasRows(s.rows, s.commits[i]))
            && (forall q :: q in s.rows ==> exists i: nat, k: nat :: Owns(s, i, k, q))
            && (forall q, i: nat, k: nat, j: nat, l: nat :: Owns(s, i, k, q) && Owns(s, j, l, q) ==> i == j && k == l)
            && s.resources == ResourcesOf(s.commits)
  {
    RunPreserves(run);
    hide RowsFor, Numbers, Delivery, HasRows, Owns, ResourcesOf, Apply;
  }

  // ----- What the rows hold -----

  /** Which actions are lifecycle commands, and the topic of each. */
  const COMMAND_TOPICS: seq<(string, string)> :=
    [("pipeline.", "mlaiops.pipeline.commands"), ("model.", "mlaiops.model.commands"), ("agent.", "mlaiops.agent.commands"),
     ("tool.", "mlaiops.tool.commands"), ("connection.", "mlaiops.connection.commands"), ("access.", "mlaiops.workspace.commands")]

  ghost predicate IsCommand(action: string, topic: string) {
    exists i :: 0 <= i < |COMMAND_TOPICS| && COMMAND_TOPICS[i].0 <= action && topic == COMMAND_TOPICS[i].1
  }

  /** The write as events tell it: an empty actor is called anonymous. */
  ghost predicate Tells(event: Write, w: Write) {
    && event.kind == w.kind && event.id == w.id && event.value == w.value && event.action == w.action
    && event.actor == if w.actor == "" then "anonymous" else w.actor
  }

  /** One audit event and, exactly for lifecycle commands, one command on the topic of its action. */
  ghost predicate RowsTell(rows: seq<Row>, w: Write) {
    && |rows| == (if exists topic :: IsCommand(w.action, topic) then 2 else 1)
    && rows[0].body.AuditEvent? && rows[0].topic == "mlaiops.audit.operations"
    && (|rows| == 2 ==> rows[1].body.Command? && IsCommand(w.action, rows[1].topic))
    && forall k :: 0 <= k < |rows| ==> rows[k].key == w.id && Tells(rows[k].body.write, w)
  }

  lemma TopicIs(action: string)
    ensures forall topic :: IsCommand(action, topic) <==> topic == TopicForAction(action) && topic != ""
  {
    var i := if HasPrefix(action, "pipeline.") then 0 else if HasPrefix(action, "model.") then 1
             else if HasPrefix(action, "agent.") then 2 else if HasPrefix(action, "tool.") then 3
             else if HasPrefix(action, "connection.") then 4 else if HasPrefix(action, "access.") then 5 else 6;
    forall j | 0 <= j < |COMMAND_TOPICS| && COMMAND_TOPICS[j].0 <= action
      ensures j == i
    {
      assert action[0] == COMMAND_TOPICS[j].0[0] && action[1] == COMMAND_TOPICS[j].0[1];
    }
    assert i < 6 ==> COMMAND_TOPICS[i].0 <= action && COMMAND_TOPICS[i].1 == TopicForAction(action);
  }

  lemma RowsForTell(w: Write)
    ensures RowsTell(RowsFor(w), w)
    ensures forall k :: 0 <= k < |RowsFor(w)| ==> !RowsFor(w)[k].published && RowsFor(w)[k].attempts == 0 && RowsFor(w)[k].lastError == None
  {
    TopicIs(w.action);
    hide TopicForAction, IsCommand;
    assert IsCommand(w.action, TopicForAction(w.action)) <==> TopicForAction(w.action) != "";
  }

  /** The rows a commit owns, as the table holds them. */
  ghost function RowsOf(rows: map<Seq, Row>, c: Commit): seq<Row>
    requires forall k :: 0 <= k < |c.rows| ==> c.rows[k] in rows
  {
    seq(|c.rows|, k requires 0 <= k < |c.rows| => rows[c.rows[k]])
  }

  /**
   In every run each committed write owns exactly one audit row, telling of it, and exactly one
   command row on the topic of its action if that is a lifecycle command, and no other rows.
   */
  lemma CommitsTell(run: seq<Action>, i: nat)
    requires Admissible(run) && i < |After(run).commits|
    ensures var s, c := After(run), After(run).commits[i];
            && (forall k :: 0 <= k < |c.rows| ==> c.rows[k] in s.rows)
            && RowsTell(RowsOf(s.rows, c), c.write) && i < |s.audits| && Tells(s.audits[i], c.write)
  {
    RunPreserves(run);
    var s, c := After(run), After(run).commits[i];
    assert HasRows(s.rows, c) && s.audits[i] == Recorded(c.write);
    hide RowsFor, After, Admissible, Inv, Committed;
    RowsForTell(c.write);
    SameRowsTell(RowsOf(s.rows, c), RowsFor(c.write), c.write);
    hide RowsTell, RowsOf;
  }

  lemma SameRowsTell(stored: seq<Row>, expected: seq<Row>, w: Write)
    requires RowsTell(expected, w) && |stored| == |expected| && forall k :: 0 <= k < |stored| ==> SameRow(stored[k], expected[k])
    ensures RowsTell(stored, w)
  {
    hide IsCommand, Tells;
  }

  // ----- Marks and resources -----

  /** A successful mark counts one more attempt; it publishes the row and clears its error, or notes the error. */
  lemma MarkEffect(s: State, a: Action)
    requires Enabled(s, a) && (a.MarkPublished? || a.MarkFailed?)
    ensures var q, t := s.workers[a.worker].batch[0], Apply(s, a);
            && (forall r :: r != q ==> (r in t.rows <==> r in s.rows) && (r in s.rows ==> t.rows[r] == s.rows[r]))
            && q in t.rows && SameRow(t.rows[q], s.rows[q])
            && (!a.ok ==> t.rows[q] == s.rows[q])
            && (a.ok ==> t.rows[q].attempts == s.rows[q].attempts + 1)
            && (a.ok && a.MarkPublished? ==> t.rows[q].published && t.rows[q].lastError == None)
            && (a.ok && a.MarkFailed? ==> t.rows[q].published == s.rows[q].published && t.rows[q].lastError == Some(s.workers[a.worker].error))
            && t.sent == s.sent && t.commits == s.commits && t.resources == s.resources && t.audits == s.audits
  {
  }

  /** The `i`-th commit is the last to write the resource of that kind and id. */
  ghost predicate LastWriter(commits: seq<Commit>, kind: string, id: string, i: nat) {
    && i < |commits| && commits[i].write.kind == kind && commits[i].write.id == id
    && forall j :: i < j < |commits| ==> commits[j].write.kind != kind || commits[j].write.id != id
  }

  lemma {:induction false} ResourcesAre(commits: seq<Commit>, kind: string, id: string, i: nat)
    ensures LastWriter(commits, kind, id, i) ==>
              (kind, id) in ResourcesOf(commits) && ResourcesOf(commits)[(kind, id)] == commits[i].write.value
    ensures (kind, id) in ResourcesOf(commits) ==> exists j: nat :: LastWriter(commits, kind, id, j)
    decreases |commits|
  {
    if commits != [] {
      var n := |commits| - 1;
      var short := commits[..n];
      ResourcesAre(short, kind, id, i);
      if commits[n].write.kind == kind && commits[n].write.id == id {
        assert LastWriter(commits, kind, id, n);
      } else if j: nat :| LastWriter(short, kind, id, j) {
        assert LastWriter(commits, kind, id, j);
      }
    }
  }

  /** In every run a resource is there exactly when some committed write wrote it, with the value of the last one. */
  lemma ResourceIsLatest(run: seq<Action>, kind: string, id: string)
    requires Admissible(run)
    ensures var s := After(run);
            && ((kind, id) in s.resources <==> exists i: nat :: LastWriter(s.commits, kind, id, i))
            && forall i: nat :: LastWriter(s.commits, kind, id, i) ==> (kind, id) in s.resources && s.resources[(kind, id)] == s.commits[i].write.value
  {
    RunPreserves(run);
    var s := After(run);
    assert s.resources == ResourcesOf(s.commits);
    forall i: nat
      ensures LastWriter(s.commits, kind, id, i) ==> (kind, id) in s.resources && s.resources[(kind, id)] == s.commits[i].write.value
      ensures (kind, id) in s.resources ==> exists j: nat :: LastWriter(s.commits, kind, id, j)
    {
      ResourcesAre(s.commits, kind, id, i);
      hide *;
    }
  }

  /** A row is marked published only if that very row was published before. */
  lemma PublishedWasSent(run: seq<Action>, q: Seq)
    requires Admissible(run) && q in After(run).rows && After(run).rows[q].published
    ensures exists j :: 0 <= j < |After(run).sent| && After(run).sent[j].0 == q
                        && SameRow(After(run).sent[j].1, After(run).rows[q])
  {
    RunPreserves(run);
  }

  /** Rows never vanish, never change content, and marks never revert, however the run goes on. */
  lemma {:induction false} MarksStay(run: seq<Action>, i: nat)
    requires Admissible(run) && i <= |run|
    ensures Admissible(run[..i]) && Grows(After(run[..i]), After(run))
    decreases |run|
  {
    if i == |run| {
      assert run[..i] == run;
    } else {
      var prefix := run[..|run| - 1];
      MarksStay(prefix, i);
      assert prefix[..i] == run[..i];
      RunPreserves(prefix);
      StepGrows(After(prefix), run[|run| - 1]);
      GrowsTransitive(After(run[..i]), After(prefix), After(run));
      hide *;
    }
  }

  lemma GrowsTransitive(a: State, b: State, c: State)
    requires Grows(a, b) && Grows(b, c)
    ensures Grows(a, c)
  {
  }

  /** Only its own successful mark takes a row out of the pending set. */
  lemma PendingUntilMarked(s: State, a: Action, q: Seq)
    requires Enabled(s, a) && Inv(s) && q in Pending(s.rows)
    ensures q in Pending(Apply(s, a).rows)
            || (a.MarkPublished? && a.ok && WorkerOf(s, a.worker).MarkingSent? && WorkerOf(s, a.worker).batch[..1] == [q])
  {
    hide RowsFor, PendingOutbox, Committed, Delivery;
    if a.Commit_? {
      CommitAdds(s, a.tx);
      hide ApplyCommit;
    }
  }

  function Below(s: set<Seq>, q: Seq): set<Seq> {
    set k | k in s && k < q
  }

  lemma {:induction false} AscendingPosition(s: set<Seq>, q: Seq)
    requires q in s
    ensures |Below(s, q)| < |Ascending(s)| && Ascending(s)[|Below(s, q)|] == q
  {
    var m := Least(s);
    if q == m {
      assert Below(s, q) == {};
    } else {
      AscendingPosition(s - {m}, q);
      assert Below(s, q) == Below(s - {m}, q) + {m};
    }
  }

  /**
   A fetch returns a pending, unlocked row exactly when fewer than 100 such rows have lower
   numbers. What was published before does not matter, so a row that commits late under a low
   number is not skipped.
   */
  lemma FetchedIffAmongLowest(rows: map<Seq, Row>, locked: set<Seq>, q: Seq)
    requires q in Pending(rows) - locked
    ensures q in PendingOutbox(rows, locked) <==> |Below(Pending(rows) - locked, q)| < 100
  {
    var s := Pending(rows) - locked;
    var below := Below(s, q);
    AscendingPosition(s, q);
    AscendingSorts(s);
    var all, batch := Ascending(s), PendingOutbox(rows, locked);
    hide Ascending;
    assert forall i :: 0 <= i < |batch| ==> batch[i] == all[i];
    if |below| < LIMIT {
      assert batch[|below|] == q;
    } else {
      assert forall i :: 0 <= i < |batch| ==> all[i] < all[|below|];
    }
  }
}
