// What one poll delivers, and that polls get to the end of the log.
module FeedPolls {
  import opened FeedModel
  import opened FeedTheorems

  // ---------- one poll ----------

  // `evs` is the next batch above `from`: rows of the log above it, in order, with
  // none left out up to the last of them, and `limit` of them unless there are
  // fewer.
  ghost predicate NextBatch(log: seq<Row>, from: nat, limit: nat, evs: seq<Row>) {
    && Ascending(evs)
    && (forall r :: r in evs ==> r in log && r.seqNo > from)
    && (evs != [] ==> forall r :: r in log && from < r.seqNo <= evs[|evs| - 1].seqNo ==> r in evs)
    && |evs| <= limit && (|evs| == limit || HasAll(log, from, evs))
  }

  ghost predicate HasAll(log: seq<Row>, from: nat, evs: seq<Row>) {
    forall r :: r in log && r.seqNo > from ==> r in evs
  }

  lemma UnreadRows(log: seq<Row>, from: nat, r: Row)
    requires Ascending(log)
    ensures r in Between(log, from, Last(log, from), {}) <==> r in log && r.seqNo > from
  {
    BetweenMembers(log, from, Last(log, from), {}, r);
    if r in log {
      var i :| 0 <= i < |log| && log[i] == r;
      assert log[i].seqNo <= log[|log| - 1].seqNo;
    }
  }

  lemma FrontSkipsNothing(x: seq<Row>, n: nat, r: Row, e: Row)
    requires Ascending(x) && n <= |x| && r in x && e in x[..n] && r.seqNo <= e.seqNo
    ensures r in x[..n]
  {
    var i :| 0 <= i < |x| && x[i] == r;
    var j :| 0 <= j < n && x[j] == e;
    assert i <= j && x[..n][i] == r;
  }

  lemma ReadIsNextBatch(log: seq<Row>, from: nat, limit: nat)
    requires Ascending(log)
    ensures NextBatch(log, from, limit, ReadAfter(log, from, limit))
  {
    var x := Between(log, from, Last(log, from), {});
    var evs := ReadAfter(log, from, limit);
    var n := |evs|;
    BetweenAscends(log, from, Last(log, from), {});
    assert n <= |x| && evs == x[..n] && (n == limit || n == |x|);
    forall r ensures r in x <==> r in log && r.seqNo > from { UnreadRows(log, from, r); }
    forall r | r in evs ensures r in log && r.seqNo > from { assert r in x; }
    forall r | evs != [] && r in log && from < r.seqNo <= evs[n - 1].seqNo ensures r in evs {
      assert r in x;
      FrontSkipsNothing(x, n, r, evs[n - 1]);
    }
    if n == |x| { assert evs == x; }
  }

  // A batch that is not full takes the cursor to the end of the log.
  lemma ShortBatchIsLast(log: seq<Row>, from: nat, limit: nat, evs: seq<Row>)
    requires NextBatch(log, from, limit, evs) && |evs| < limit
    ensures forall r :: r in log ==> r.seqNo <= Last(evs, from)
  {
    assert HasAll(log, from, evs);
    forall r | r in log ensures r.seqNo <= Last(evs, from) {
      if r.seqNo > from {
        var i :| 0 <= i < |evs| && evs[i] == r;
      } else if evs != [] {
        assert evs[|evs| - 1] in evs;
      }
    }
  }

  // What a successful poll that started at `from` delivers and where it leaves
  // the cursor: at the last row delivered, and at the end of the log unless the
  // batch was full.
  ghost predicate Delivers(log: seq<Row>, from: nat, limit: nat, evs: seq<Row>, cursor: nat) {
    && NextBatch(log, from, limit, evs)
    && cursor == (if evs == [] then from else evs[|evs| - 1].seqNo)
    && (|evs| < limit ==> forall r :: r in log ==> r.seqNo <= cursor)
  }

  lemma ReadDelivers(log: seq<Row>, from: nat, limit: nat)
    requires Ascending(log)
    ensures var evs := ReadAfter(log, from, limit); Delivers(log, from, limit, evs, Last(evs, from))
  {
    var evs := ReadAfter(log, from, limit);
    ReadIsNextBatch(log, from, limit);
    if |evs| < limit { ShortBatchIsLast(log, from, limit, evs); }
  }

  lemma RowsByNumber(log: seq<Row>, r: Row, e: Row)
    requires Ascending(log) && r in log && e in log && r.seqNo == e.seqNo
    ensures r == e
  {
    var i :| 0 <= i < |log| && log[i] == r;
    var j :| 0 <= j < |log| && log[j] == e;
    assert i == j;
  }

  lemma NotBelow(a: seq<Row>, b: seq<Row>, i: nat)
    requires Ascending(a) && Ascending(b)
    requires i < |a| && i < |b| && forall k :: 0 <= k < i ==> a[k] == b[k]
    requires a[i].seqNo <= b[i].seqNo ==> a[i] in b
    ensures a[i].seqNo >= b[i].seqNo
  {
    assert forall k :: 0 <= k < i ==> b[k] == a[k] && a[k].seqNo < a[i].seqNo;
    assert forall k :: i < k < |b| ==> b[i].seqNo < b[k].seqNo;
  }

  lemma NoLonger(log: seq<Row>, from: nat, a: seq<Row>, b: seq<Row>)
    requires Ascending(b) && HasAll(log, from, a) && forall r :: r in b ==> r in log && r.seqNo > from
    requires |a| <= |b| && forall k :: 0 <= k < |a| ==> a[k] == b[k]
    ensures |a| == |b|
  {
    if |a| < |b| { NextIsNew(a, b); }
  }

  lemma NextIsNew(a: seq<Row>, b: seq<Row>)
    requires Ascending(b) && |a| < |b| && forall k :: 0 <= k < |a| ==> a[k] == b[k]
    ensures b[|a|] in b && b[|a|] !in a
  {
    assert forall k :: 0 <= k < |a| ==> a[k].seqNo < b[|a|].seqNo;
  }

  lemma SameAt(log: seq<Row>, from: nat, limit: nat, a: seq<Row>, b: seq<Row>, i: nat)
    requires Ascending(log) && NextBatch(log, from, limit, a) && NextBatch(log, from, limit, b)
    requires i < |a| && i < |b| && forall k :: 0 <= k < i ==> a[k] == b[k]
    ensures a[i] == b[i]
  {
    assert a[i] in a && b[i] in b;
    assert a[i].seqNo <= a[|a| - 1].seqNo && b[i].seqNo <= b[|b| - 1].seqNo;
    NotBelow(a, b, i);
    NotBelow(b, a, i);
    RowsByNumber(log, a[i], b[i]);
  }

  lemma {:induction false} SameUpTo(log: seq<Row>, from: nat, limit: nat, a: seq<Row>, b: seq<Row>, n: nat)
    requires Ascending(log) && NextBatch(log, from, limit, a) && NextBatch(log, from, limit, b)
    requires n <= |a| && n <= |b|
    ensures forall k :: 0 <= k < n ==> a[k] == b[k]
  {
    if n > 0 {
      SameUpTo(log, from, limit, a, b, n - 1);
      SameAt(log, from, limit, a, b, n - 1);
    }
  }

  lemma BatchesAgree(log: seq<Row>, from: nat, limit: nat, a: seq<Row>, b: seq<Row>)
    requires Ascending(log) && NextBatch(log, from, limit, a) && NextBatch(log, from, limit, b) && |a| <= |b|
    ensures a == b
  {
    SameUpTo(log, from, limit, a, b, |a|);
    if |a| < limit { NoLonger(log, from, a, b); }
  }

  // There is one such batch, so the predicate says exactly what a poll delivers.
  lemma NextBatchIsOne(log: seq<Row>, from: nat, limit: nat, a: seq<Row>, b: seq<Row>)
    requires Ascending(log) && NextBatch(log, from, limit, a) && NextBatch(log, from, limit, b)
    ensures a == b
  {
    if |a| <= |b| { BatchesAgree(log, from, limit, a, b); } else { BatchesAgree(log, from, limit, b, a); }
  }

  // ---------- polls in the state machine ----------

  function PublishAll(s: State): State
    decreases |s.queue|
  {
    if s.queue == [] then s else PublishAll(Step(s, PublishNext))
  }

  // One whole poll, with nothing in between.
  function PollOnce(s: State, batch: nat): State {
    PublishAll(Step(s, Read(batch)))
  }

  function Polls(s: State, batch: nat, n: nat): State {
    if n == 0 then s else PollOnce(Polls(s, batch, n - 1), batch)
  }

  // Polls are runs: reads and publications only.
  lemma {:induction false} PublishAllRuns(s: State) returns (es: seq<Event>)
    ensures RunFrom(s, es) == PublishAll(s) && forall e :: e in es ==> e == PublishNext
    decreases |s.queue|
  {
    if s.queue == [] {
      es := [];
    } else {
      var rest := PublishAllRuns(Step(s, PublishNext));
      es := [PublishNext] + rest;
      RunCons(s, PublishNext, rest);
    }
  }

  lemma {:induction false} RunCons(s: State, e: Event, rest: seq<Event>)
    ensures RunFrom(s, [e] + rest) == RunFrom(Step(s, e), rest)
  {
    if rest == [] {
      assert [e] + rest == [e];
      assert [e][..0] == [];
    } else {
      var n := |rest| - 1;
      RunCons(s, e, rest[..n]);
      assert ([e] + rest)[..n + 1] == [e] + rest[..n];
    }
  }

  lemma {:induction false} RunAppend(s: State, a: seq<Event>, b: seq<Event>)
    ensures RunFrom(s, a + b) == RunFrom(RunFrom(s, a), b)
  {
    if b == [] {
      assert a + b == a;
    } else {
      RunAppend(s, a, b[..|b| - 1]);
      assert (a + b)[..|a + b| - 1] == a + b[..|b| - 1];
    }
  }

  lemma {:induction false} PollsRun(s: State, batch: nat, n: nat) returns (es: seq<Event>)
    ensures RunFrom(s, es) == Polls(s, batch, n) && forall e :: e in es ==> e == Read(batch) || e == PublishNext
  {
    if n == 0 {
      es := [];
    } else {
      var front := PollsRun(s, batch, n - 1);
      var t := Polls(s, batch, n - 1);
      var rest := PublishAllRuns(Step(t, Read(batch)));
      es := front + ([Read(batch)] + rest);
      RunCons(t, Read(batch), rest);
      RunAppend(s, front, [Read(batch)] + rest);
    }
  }

  // What publishing a queue does to the state, subscribers apart.
  predicate Published(s: State, t: State) {
    && t.queue == [] && t.published == s.published + s.queue && t.cursor == Last(s.queue, s.cursor)
    && t.log == s.log && t.next == s.next && t.start == s.start && t.history == s.history && t.lost == s.lost
  }

  lemma PublishOne(s: State)
    requires LogInv(s) && s.queue != []
    ensures var t := Step(s, PublishNext);
      && LogInv(t) && t.queue == s.queue[1..] && t.published == s.published + [s.queue[0]]
      && Last(t.queue, t.cursor) == Last(s.queue, s.cursor)
      && t.log == s.log && t.next == s.next && t.start == s.start && t.history == s.history && t.lost == s.lost
  {
    PublishKeeps(s);
  }

  lemma {:induction false} PublishAllPublishes(s: State)
    requires LogInv(s)
    ensures LogInv(PublishAll(s)) && Published(s, PublishAll(s))
    decreases |s.queue|
  {
    if s.queue == [] {
      assert s.published + s.queue == s.published;
    } else {
      PublishOne(s);
      PublishAllPublishes(Step(s, PublishNext));
      assert s.published + s.queue == (s.published + [s.queue[0]]) + s.queue[1..];
    }
  }

  // The rows the poller has still to publish.
  function Ahead(s: State): seq<Row> {
    Between(s.log, s.cursor, s.next, {})
  }

  lemma AheadSplits(s: State, n: nat)
    requires LogInv(s) && 0 < n <= |Ahead(s)|
    ensures Ahead(s)[n..] == Between(s.log, Ahead(s)[n - 1].seqNo, s.next, {})
  {
    BetweenPrefix(s.log, s.cursor, s.next, {}, n);
  }

  lemma ReadTakes(s: State, batch: nat)
    requires LogInv(s) && s.queue == []
    ensures var t := Step(s, Read(batch));
      && LogInv(t) && t.queue == Take(Ahead(s), batch) && t.published == s.published && t.cursor == s.cursor
      && t.log == s.log && t.next == s.next && t.start == s.start
  {
    ReadKeeps(s, batch);
    ReadIsPrefix(s.log, s.cursor, s.next, batch);
  }

  // One poll publishes the next batch and leaves the rows behind it.
  lemma PollTakesBatch(s: State, batch: nat)
    requires LogInv(s) && s.queue == []
    ensures var t := PollOnce(s, batch); var evs := Take(Ahead(s), batch);
      && LogInv(t) && t.queue == [] && t.log == s.log && t.start == s.start && t.next == s.next
      && t.published == s.published + evs && Ahead(t) == Ahead(s)[|evs|..]
  {
    var evs := Take(Ahead(s), batch);
    ReadTakes(s, batch);
    PublishAllPublishes(Step(s, Read(batch)));
    if evs != [] { AheadSplits(s, |evs|); }
  }

  lemma BatchTaken(ahead: seq<Row>, batch: nat)
    requires batch > 0
    ensures var evs := Take(ahead, batch);
      && |evs| <= |ahead| && ahead == evs + ahead[|evs|..]
      && |evs| == if batch < |ahead| then batch else |ahead|
  {}

  // While nothing is written or pruned, enough polls publish every row that was
  // ahead of the poller, in order, and nothing else.
  lemma {:induction false} EnoughPollsPublishAll(s: State, batch: nat, n: nat)
    requires LogInv(s) && s.queue == [] && batch > 0
    ensures var t := Polls(s, batch, n);
      && LogInv(t) && t.queue == [] && t.log == s.log && t.start == s.start && t.next == s.next
      && t.published + Ahead(t) == s.published + Ahead(s)
      && (n * batch < |Ahead(s)| ==> |Ahead(t)| == |Ahead(s)| - n * batch)
      && (n * batch >= |Ahead(s)| ==> Ahead(t) == [])
  {
    if n > 0 {
      EnoughPollsPublishAll(s, batch, n - 1);
      var m := Polls(s, batch, n - 1);
      var evs := Take(Ahead(m), batch);
      PollTakesBatch(m, batch);
      BatchTaken(Ahead(m), batch);
      assert Polls(s, batch, n) == PollOnce(m, batch);
      assert m.published + Ahead(m) == (m.published + evs) + Ahead(m)[|evs|..];
      assert n * batch == (n - 1) * batch + batch;
    }
  }

  // What is still in the log was once written and never lost.
  predicate LogIsLive(s: State) {
    forall r :: r in s.log ==> r in s.history && r.seqNo !in s.lost
  }

  lemma StepKeepsLive(s: State, e: Event)
    requires LogInv(s) && LogIsLive(s)
    ensures LogIsLive(Step(s, e))
  {
    var t := Step(s, e);
    forall r | r in t.log
      ensures r in t.history && r.seqNo !in t.lost
    {
      if Enabled(s, e) && e.Prune? { WithoutMembers(s.log, e.gone, r); }
      if Enabled(s, e) && e.Append? && r !in s.log { assert r.seqNo == s.next; }
    }
  }

  lemma {:induction false} RunKeepsLive(s: State, es: seq<Event>)
    requires LogInv(s) && LogIsLive(s)
    ensures LogIsLive(RunFrom(s, es))
  {
    if es != [] {
      RunKeepsLive(s, es[..|es| - 1]);
      RunKeepsLog(s, es[..|es| - 1]);
      StepKeepsLive(RunFrom(s, es[..|es| - 1]), es[|es| - 1]);
    }
  }

  // In particular, after any run, enough polls have published every log row
  // above the starting point.
  lemma EveryRowGetsPublished(log: seq<Row>, next: nat, start: nat, es: seq<Event>, batch: nat, n: nat, r: Row)
    requires ValidLog(log, next) && batch > 0
    requires var s := RunFrom(Init(log, next, start), es);
      s.queue == [] && n * batch >= |s.log| && r in s.log && r.seqNo > start
    ensures r in Polls(RunFrom(Init(log, next, start), es), batch, n).published
  {
    var s := RunFrom(Init(log, next, start), es);
    InitLog(log, next, start);
    RunKeepsLog(Init(log, next, start), es);
    RunKeepsLive(Init(log, next, start), es);
    StartStays(Init(log, next, start), es);
    BetweenNoLonger(s.log, s.cursor, s.next);
    EnoughPollsPublishAll(s, batch, n);
    var t := Polls(s, batch, n);
    var i :| 0 <= i < |s.log| && s.log[i] == r;
    assert s.log[i].seqNo < s.next;
    BetweenMembers(s.log, s.cursor, s.next, {}, r);
    BetweenMembers(s.history, s.start, s.cursor, s.lost, r);
    assert t.published == s.published + Ahead(s);
    assert r in s.published || r in Ahead(s);
  }

  lemma {:induction false} BetweenNoLonger(rows: seq<Row>, lo: nat, hi: nat)
    ensures |Between(rows, lo, hi, {})| <= |rows|
  {
    if rows != [] { BetweenNoLonger(rows[..|rows| - 1], lo, hi); }
  }
}
