/** One worker's flush as a program, and how an undisturbed backlog drains. */
module OutboxFlush {
  import opened Wrappers
  import opened Outbox
  import opened OutboxTheorems

  /** The publisher's answer for a row: an error, or none. */
  type Publisher = (Seq, Row) -> Option<string>

  datatype Progress = Progress(rows: map<Seq, Row>, sent: seq<Seq>, aborted: bool)

  /** What a flush does to a batch, row by row, when the update of row `q` fails iff `fails(q)`. */
  function Flushed(p: Progress, batch: seq<Seq>, publish: Publisher, fails: Seq -> bool): Progress
    requires forall q :: q in batch ==> q in p.rows
    decreases |batch|
  {
    if batch == [] || p.aborted then p
    else
      var q := batch[0];
      match publish(q, p.rows[q])
      case Some(e) =>
        var rows := if fails(q) then p.rows else p.rows[q := MarkedFailed(p.rows[q], e)];
        Flushed(p.(rows := rows), batch[1..], publish, fails)
      case None =>
        if fails(q) then p.(sent := p.sent + [q], aborted := true)
        else Flushed(Progress(p.rows[q := MarkedPublished(p.rows[q])], p.sent + [q], false), batch[1..], publish, fails)
  }

  /** The outbox table and the log of successful publishes. */
  class Repository {
    var rows: map<Seq, Row>
    var sent: seq<Seq>

    /** Publishes up to 100 pending rows; a failed publish is noted and skipped over. */
    method Flush(publish: Publisher, fails: Seq -> bool) returns (err: bool)
      modifies this
      ensures Progress(rows, sent, err)
           == Flushed(Progress(old(rows), old(sent), false), Outbox.PendingOutbox(old(rows), {}), publish, fails)
    {
      var batch := Outbox.PendingOutbox(rows, {});
      ghost var goal := Flushed(Progress(rows, sent, false), batch, publish, fails);
      for i := 0 to |batch|
        invariant forall q :: q in batch ==> q in rows
        invariant Flushed(Progress(rows, sent, false), batch[i..], publish, fails) == goal
      {
        var q := batch[i];
        assert batch[i..][0] == q && batch[i..][1..] == batch[i + 1..];
        match publish(q, rows[q]) {
          case Some(e) =>
            if !fails(q) {
              rows := rows[q := MarkedFailed(rows[q], e)];
            }
          case None =>
            sent := sent + [q];
            if fails(q) {
              return true;
            }
            rows := rows[q := MarkedPublished(rows[q])];
        }
      }
      return false;
    }
  }

  // ----- A flush is a run of the protocol -----

  /** The protocol gets from `s` to `t` by the given steps. */
  ghost predicate Leads(s: State, acts: seq<Action>, t: State)
    decreases |acts|
  {
    if acts == [] then t == s else Enabled(s, acts[0]) && Leads(Apply(s, acts[0]), acts[1..], t)
  }

  function Numbers(sent: seq<(Seq, Row)>): seq<Seq> {
    seq(|sent|, i requires 0 <= i < |sent| => sent[i].0)
  }

  /** The first row of a batch: published and marked, or not, as publisher and database answer. */
  lemma OneRow(s: State, w: nat, error: Option<string>, ok: bool) returns (acts: seq<Action>, t: State)
    requires w in s.workers && s.workers[w].Sending? && s.workers[w].batch != [] && s.workers[w].batch[0] in s.rows
    ensures Leads(s, acts, t) && |acts| == 2
    ensures var q := s.workers[w].batch[0];
            && w in t.workers
            && t.workers[w] == (if error.None? && !ok then Idle else Rest(s.workers[w].batch))
            && t.rows == (if !ok then s.rows
                          else if error.None? then s.rows[q := MarkedPublished(s.rows[q])]
                          else s.rows[q := MarkedFailed(s.rows[q], error.value)])
            && Numbers(t.sent) == Numbers(s.sent) + if error.None? then [q] else []
  {
    var first := Publish(w, error);
    var mid := Apply(s, first);
    var second := if error.None? then MarkPublished(w, ok) else MarkFailed(w, ok);
    t := Apply(mid, second);
    acts := [first, second];
    assert acts[1..] == [second] && acts[1..][1..] == [];
    assert Leads(mid, [second], t);
  }

  lemma {:induction false} LeadsConcat(s: State, a: seq<Action>, m: State, b: seq<Action>, t: State)
    requires Leads(s, a, m) && Leads(m, b, t)
    ensures Leads(s, a + b, t)
    decreases |a|
  {
    if a == [] {
      assert a + b == b;
    } else {
      assert (a + b)[1..] == a[1..] + b;
      LeadsConcat(Apply(s, a[0]), a[1..], m, b, t);
    }
  }

  /** A worker that works through its batch undisturbed does what the program does. */
  lemma {:induction false} FlushIsRun(s: State, w: nat, publish: Publisher, fails: Seq -> bool)
    returns (acts: seq<Action>, t: State)
    requires w in s.workers && s.workers[w].Sending? && s.workers[w].batch != []
    requires forall q :: q in s.workers[w].batch ==> q in s.rows
    ensures Leads(s, acts, t) && w in t.workers && t.workers[w].Idle?
    ensures var r := Flushed(Progress(s.rows, Numbers(s.sent), false), s.workers[w].batch, publish, fails);
            t.rows == r.rows && Numbers(t.sent) == r.sent
    decreases |s.workers[w].batch|
  {
    var batch := s.workers[w].batch;
    var q := batch[0];
    var first, m := OneRow(s, w, publish(q, s.rows[q]), !fails(q));
    hide Leads, Apply, Enabled, Numbers;
    assert Numbers(s.sent) + [] == Numbers(s.sent);
    assert forall x :: x in batch[1..] ==> x in batch;
    var p, aborted := Progress(s.rows, Numbers(s.sent), false), publish(q, s.rows[q]).None? && fails(q);
    var next := Progress(m.rows, Numbers(m.sent), aborted);
    assert Flushed(p, batch, publish, fails) == if aborted then next else Flushed(next, batch[1..], publish, fails);
    if m.workers[w].Idle? {
      assert !aborted ==> batch[1..] == [];
      acts, t := first, m;
    } else {
      var rest, last := FlushIsRun(m, w, publish, fails);
      LeadsConcat(s, first, m, rest, last);
      acts, t := first + rest, last;
    }
  }

  // ----- An undisturbed backlog -----

  ghost predicate Undisturbed(publish: Publisher, fails: Seq -> bool) {
    && (forall q, r :: publish(q, r).None?)
    && (forall q :: !fails(q))
  }

  function Elements(s: seq<Seq>): set<Seq> {
    set q | q in s
  }

  /** An undisturbed flush publishes its batch in order and takes exactly that off the backlog. */
  lemma {:induction false} FlushedAll(p: Progress, batch: seq<Seq>, publish: Publisher, fails: Seq -> bool)
    requires Undisturbed(publish, fails) && !p.aborted && forall q :: q in batch ==> q in p.rows
    ensures var r := Flushed(p, batch, publish, fails);
            && !r.aborted && r.sent == p.sent + batch
            && Pending(r.rows) == Pending(p.rows) - Elements(batch)
    decreases |batch|
  {
    if batch != [] {
      var q := batch[0];
      assert publish(q, p.rows[q]).None? && !fails(q);
      var next := Progress(p.rows[q := MarkedPublished(p.rows[q])], p.sent + [q], false);
      FlushedAll(next, batch[1..], publish, fails);
      assert p.sent + [q] + batch[1..] == p.sent + batch;
      assert Pending(next.rows) == Pending(p.rows) - {q};
      assert Elements(batch) == {q} + Elements(batch[1..]);
    }
  }

  /** Without its lowest `m` elements, a set is listed by the rest of its listing. */
  lemma {:induction false} AscendingDrop(s: set<Seq>, m: nat)
    requires m <= |Ascending(s)|
    ensures Ascending(s - Elements(Ascending(s)[..m])) == Ascending(s)[m..]
  {
    if m == 0 {
      assert s - Elements([]) == s;
    } else {
      var l := Least(s);
      var rest := s - {l};
      var tail := Ascending(rest);
      AscendingDrop(rest, m - 1);
      assert Ascending(s) == [l] + tail;
      hide Ascending;
      var low := tail[..m - 1];
      assert Ascending(s)[..m] == [l] + low;
      assert Elements([l] + low) == {l} + Elements(low) by {
        assert forall q :: q in [l] + low <==> q == l || q in low;
      }
      assert s - Elements(Ascending(s)[..m]) == rest - Elements(low);
    }
  }

  /** `k` flushes one after the other. */
  function Flushes(p: Progress, publish: Publisher, fails: Seq -> bool, k: nat): Progress
    decreases k
  {
    if k == 0 then p
    else Flushes(Flushed(p, Outbox.PendingOutbox(p.rows, {}), publish, fails), publish, fails, k - 1)
  }

  /** Taking a first batch and then the rest of `k` batches takes `k` batches. */
  lemma TakeBatches(all: seq<Seq>, k: nat)
    requires k > 0
    ensures var batch := Take(all, LIMIT);
            |batch| <= |all| && batch == all[..|batch|] && batch + Take(all[|batch|..], (k - 1) * LIMIT) == Take(all, k * LIMIT)
  {
    var batch := Take(all, LIMIT);
    assert k * LIMIT == LIMIT + (k - 1) * LIMIT;
  }

  /** What is left after one undisturbed flush. */
  lemma FlushOnce(p: Progress, publish: Publisher, fails: Seq -> bool)
    requires Undisturbed(publish, fails) && !p.aborted
    ensures var all := Ascending(Pending(p.rows));
            var batch := Take(all, LIMIT);
            var next := Flushed(p, Outbox.PendingOutbox(p.rows, {}), publish, fails);
            && !next.aborted && next.sent == p.sent + batch
            && Pending(next.rows) == Pending(p.rows) - Elements(batch)
            && Ascending(Pending(next.rows)) == all[|batch|..]
  {
    assert Pending(p.rows) - {} == Pending(p.rows);
    var batch := Outbox.PendingOutbox(p.rows, {});
    FlushedAll(p, batch, publish, fails);
    hide Flushed;
    assert batch == Ascending(Pending(p.rows))[..|batch|];
    AscendingDrop(Pending(p.rows), |batch|);
  }

  /**
   With one worker, no failures and no new writes, `k` flushes publish the lowest `100 * k`
   pending rows, in ascending order and each exactly once, and leave the others pending.
   */
  lemma {:induction false} FlushesPublishLowest(p: Progress, publish: Publisher, fails: Seq -> bool, k: nat)
    requires Undisturbed(publish, fails) && !p.aborted
    ensures var all, r := Ascending(Pending(p.rows)), Flushes(p, publish, fails, k);
            && r.sent == p.sent + Take(all, k * 100)
            && Pending(r.rows) == Pending(p.rows) - Elements(Take(all, k * 100))
    decreases k
  {
    var all := Ascending(Pending(p.rows));
    if k == 0 {
      assert Take(all, 0) == [];
      assert p.sent + [] == p.sent;
    } else {
      var batch, next := Take(all, LIMIT), Flushed(p, Outbox.PendingOutbox(p.rows, {}), publish, fails);
      FlushOnce(p, publish, fails);
      FlushesPublishLowest(next, publish, fails, k - 1);
      assert Flushes(p, publish, fails, k) == Flushes(next, publish, fails, k - 1);
      hide Ascending, Flushed, PendingOutbox, Take, Pending, Flushes, Undisturbed, Elements;
      var later := Take(all[|batch|..], (k - 1) * LIMIT);
      TakeBatches(all, k);
      BatchesAdd(p.sent, Pending(p.rows), batch, later);
    }
  }

  lemma BatchesAdd(sent: seq<Seq>, pending: set<Seq>, batch: seq<Seq>, later: seq<Seq>)
    ensures sent + batch + later == sent + (batch + later)
    ensures pending - Elements(batch) - Elements(later) == pending - Elements(batch + later)
  {
    ElementsConcat(batch, later);
    hide Elements;
  }

  lemma ElementsConcat(a: seq<Seq>, b: seq<Seq>)
    ensures Elements(a + b) == Elements(a) + Elements(b)
  {
  }

  /** So a backlog of `n` rows is drained by exactly the flush counts `k` with `100 * k >= n`. */
  lemma DrainedIff(p: Progress, publish: Publisher, fails: Seq -> bool, k: nat)
    requires Undisturbed(publish, fails) && !p.aborted
    ensures Pending(Flushes(p, publish, fails, k).rows) == {} <==> k * 100 >= |Pending(p.rows)|
  {
    FlushesPublishLowest(p, publish, fails, k);
    AscendingSorts(Pending(p.rows));
    var all, m := Ascending(Pending(p.rows)), k * LIMIT;
    var gone := Take(all, m);
    var left := Pending(Flushes(p, publish, fails, k).rows);
    assert left == Pending(p.rows) - Elements(gone);
    hide Ascending, Flushes, Pending;
    if |all| > m {
      assert all[m] in all && gone == all[..m];
      assert all[m] in left;
    } else {
      assert gone == all;
      assert left == {};
    }
  }

  // ----- A backlog with rows that always fail -----

  /** Publishing fails for exactly the rows that `bad` names, time and again; the database does not fail. */
  ghost predicate Steady(publish: Publisher, fails: Seq -> bool, bad: Seq -> bool) {
    && (forall q, r :: publish(q, r).Some? <==> bad(q))
    && (forall q :: !fails(q))
  }

  /** The pending rows below `q` that cannot be published. */
  ghost function BadBelow(rows: map<Seq, Row>, bad: Seq -> bool, q: Seq): set<Seq> {
    set f | f in Below(Pending(rows), q) && bad(f)
  }

  function Good(batch: seq<Seq>, bad: Seq -> bool): set<Seq> {
    set q | q in batch && !bad(q)
  }

  /** A flush takes off the backlog exactly what its publisher accepts. */
  lemma {:induction false} FlushedGood(p: Progress, batch: seq<Seq>, publish: Publisher, fails: Seq -> bool, bad: Seq -> bool)
    requires Steady(publish, fails, bad) && !p.aborted && forall q :: q in batch ==> q in p.rows
    ensures var r := Flushed(p, batch, publish, fails);
            !r.aborted && Pending(r.rows) == Pending(p.rows) - Good(batch, bad)
    decreases |batch|
  {
    if batch != [] {
      var q := batch[0];
      var answer := publish(q, p.rows[q]);
      assert (answer.Some? <==> bad(q)) && !fails(q);
      var row := if answer.Some? then MarkedFailed(p.rows[q], answer.value) else MarkedPublished(p.rows[q]);
      var next := Progress(p.rows[q := row], if bad(q) then p.sent else p.sent + [q], false);
      FlushedGood(next, batch[1..], publish, fails, bad);
      assert Pending(next.rows) == if bad(q) then Pending(p.rows) else Pending(p.rows) - {q};
      assert Good(batch, bad) == Good(batch[1..], bad) + if bad(q) then {} else {q};
    }
  }

  /** One flush: a pending row goes exactly when it can be published and fewer than 100 pending rows lie below it. */
  lemma FlushTakes(p: Progress, publish: Publisher, fails: Seq -> bool, bad: Seq -> bool)
    requires Steady(publish, fails, bad) && !p.aborted
    ensures var next := Flushed(p, Outbox.PendingOutbox(p.rows, {}), publish, fails);
            && !next.aborted
            && (forall q :: q in Pending(next.rows) <==>
                  q in Pending(p.rows) && (bad(q) || |Below(Pending(p.rows), q)| >= LIMIT))
            && (forall q :: BadBelow(next.rows, bad, q) == BadBelow(p.rows, bad, q))
  {
    var batch := Outbox.PendingOutbox(p.rows, {});
    var next := Flushed(p, batch, publish, fails);
    FlushedGood(p, batch, publish, fails, bad);
    hide Flushed, PendingOutbox, Steady;
    assert Pending(p.rows) - {} == Pending(p.rows);
    forall q | q in Pending(p.rows)
      ensures q in batch <==> |Below(Pending(p.rows), q)| < LIMIT
    {
      FetchedIffAmongLowest(p.rows, {}, q);
    }
    forall q
      ensures BadBelow(next.rows, bad, q) == BadBelow(p.rows, bad, q)
    {
    }
    hide Pending, Below, BadBelow;
  }

  lemma SubsetSize(a: set<Seq>, b: set<Seq>)
    requires a <= b
    ensures |a| <= |b|
  {
    assert b == a + (b - a);
  }

  /** A row that cannot be published, or has 100 such rows below it, stays pending for good. */
  lemma {:induction false} StaysPending(p: Progress, publish: Publisher, fails: Seq -> bool, bad: Seq -> bool, q: Seq, k: nat)
    requires Steady(publish, fails, bad) && !p.aborted && q in Pending(p.rows)
    requires bad(q) || |BadBelow(p.rows, bad, q)| >= LIMIT
    ensures q in Pending(Flushes(p, publish, fails, k).rows)
    decreases k
  {
    if k > 0 {
      FlushTakes(p, publish, fails, bad);
      SubsetSize(BadBelow(p.rows, bad, q), Below(Pending(p.rows), q));
      hide Flushed, PendingOutbox, Steady, Pending, BadBelow, Below;
      StaysPending(Flushed(p, Outbox.PendingOutbox(p.rows, {}), publish, fails), publish, fails, bad, q, k - 1);
    }
  }

  /** The pending rows up to `q` that can be published. */
  ghost function GoodUpTo(rows: map<Seq, Row>, bad: Seq -> bool, q: Seq): set<Seq> {
    set x | x in Pending(rows) && x <= q && !bad(x)
  }

  /** Below the lowest good row there are only bad ones. */
  lemma LowestGood(rows: map<Seq, Row>, bad: Seq -> bool, q: Seq) returns (x: Seq)
    requires q in Pending(rows) && !bad(q)
    ensures x in GoodUpTo(rows, bad, q) && x in Pending(rows) && !bad(x)
    ensures |Below(Pending(rows), x)| <= |BadBelow(rows, bad, q)|
  {
    var good := GoodUpTo(rows, bad, q);
    assert q in good;
    x := Least(good);
    hide Least, Pending;
    assert forall y :: y in Below(Pending(rows), x) && !bad(y) ==> y in good;
    SubsetSize(Below(Pending(rows), x), BadBelow(rows, bad, q));
  }

  /** Otherwise each flush publishes at least the lowest good row, until the turn of `q` comes. */
  lemma {:induction false} GetsPublished(p: Progress, publish: Publisher, fails: Seq -> bool, bad: Seq -> bool, q: Seq)
    returns (k: nat)
    requires Steady(publish, fails, bad) && !p.aborted && q in Pending(p.rows)
    requires !bad(q) && |BadBelow(p.rows, bad, q)| < LIMIT
    ensures q !in Pending(Flushes(p, publish, fails, k).rows)
    decreases GoodUpTo(p.rows, bad, q)
  {
    var x := LowestGood(p.rows, bad, q);
    var next := Flushed(p, Outbox.PendingOutbox(p.rows, {}), publish, fails);
    FlushTakes(p, publish, fails, bad);
    hide Flushed, PendingOutbox, Steady, Pending, BadBelow, Below;
    assert x !in GoodUpTo(next.rows, bad, q) && GoodUpTo(next.rows, bad, q) <= GoodUpTo(p.rows, bad, q);
    hide GoodUpTo;
    if q in Pending(next.rows) {
      var rest := GetsPublished(next, publish, fails, bad, q);
      k := rest + 1;
    } else {
      k := 1;
      assert Flushes(next, publish, fails, 0) == next;
    }
  }

  /**
   Failed rows keep their place among the lowest. So a pending row is published sooner or later
   exactly when it can be, and fewer than 100 rows that cannot be published lie below it.
   */
  lemma EventuallyPublishedIff(p: Progress, publish: Publisher, fails: Seq -> bool, bad: Seq -> bool, q: Seq)
    requires Steady(publish, fails, bad) && !p.aborted && q in Pending(p.rows)
    ensures (exists k: nat :: q !in Pending(Flushes(p, publish, fails, k).rows))
       <==> !bad(q) && |BadBelow(p.rows, bad, q)| < 100
  {
    if !bad(q) && |BadBelow(p.rows, bad, q)| < LIMIT {
      var k := GetsPublished(p, publish, fails, bad, q);
      assert q !in Pending(Flushes(p, publish, fails, k).rows);
    } else {
      forall k: nat
        ensures q in Pending(Flushes(p, publish, fails, k).rows)
      {
        StaysPending(p, publish, fails, bad, q, k);
      }
    }
  }
}
