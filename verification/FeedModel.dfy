// The live change feed (backend/internal/cdc): an ordered log that writers
// append to and the janitor prunes, a poller that reads it in batches and
// publishes one row at a time, and subscribers that come and go.
module FeedModel {
  import opened Options

  datatype Row = Row(seqNo: nat, createdAt: int, payload: string)

  predicate Ascending(rows: seq<Row>) {
    forall i, j :: 0 <= i < j < |rows| ==> rows[i].seqNo < rows[j].seqNo
  }

  // The rows above `lo` and up to `hi` that are not in `lost`, in order.
  function Between(rows: seq<Row>, lo: nat, hi: nat, lost: set<nat>): seq<Row> {
    if rows == [] then []
    else
      var r := rows[|rows| - 1];
      var front := Between(rows[..|rows| - 1], lo, hi, lost);
      if lo < r.seqNo <= hi && r.seqNo !in lost then front + [r] else front
  }

  function Last(rows: seq<Row>, default: nat): nat {
    if rows == [] then default else rows[|rows| - 1].seqNo
  }

  function Take(rows: seq<Row>, n: nat): seq<Row> {
    if n < |rows| then rows[..n] else rows
  }

  // EventsAfter: SELECT ... WHERE seq > ? ORDER BY seq LIMIT ?
  function ReadAfter(log: seq<Row>, after: nat, limit: nat): seq<Row> {
    Take(Between(log, after, Last(log, after), {}), limit)
  }

  function Without(log: seq<Row>, gone: set<nat>): seq<Row> {
    if log == [] then []
    else
      var front := Without(log[..|log| - 1], gone);
      if log[|log| - 1].seqNo in gone then front else front + [log[|log| - 1]]
  }

  // `calls` are the events handed to the callback since it was subscribed, when
  // `from` events had been published; `left` is how many had been published when
  // it was unsubscribed.
  datatype Subscriber = Subscriber(from: nat, left: Option<nat>, calls: seq<Row>)

  datatype State = State(
    log: seq<Row>,              // what the table holds
    next: nat,                  // the next sequence number; numbers are never reused
    history: seq<Row>,          // the log at the start and everything appended since
    start: nat, cursor: nat,
    queue: seq<Row>,            // read but not yet published
    published: seq<Row>,
    subs: seq<Subscriber>,      // by subscription id
    lost: set<nat>)             // pruned before they were read

  datatype Event =
    | Append(createdAt: int, payload: string)
    | Prune(gone: set<nat>)
    | Read(limit: nat)
    | PublishNext
    | Subscribe
    | Unsubscribe(id: nat)

  function Init(log: seq<Row>, next: nat, start: nat): State {
    State(log, next, log, start, start, [], [], [], {})
  }

  // Everything up to here has been read.
  function Frontier(s: State): nat {
    Last(s.queue, s.cursor)
  }

  function Deliver(subs: seq<Subscriber>, r: Row): seq<Subscriber> {
    seq(|subs|, i requires 0 <= i < |subs| => if subs[i].left.None? then subs[i].(calls := subs[i].calls + [r]) else subs[i])
  }

  predicate Enabled(s: State, e: Event) {
    match e
    case Read(_) => s.queue == []
    case PublishNext => s.queue != []
    case Unsubscribe(id) => id < |s.subs| && s.subs[id].left.None?
    case _ => true
  }

  function Apply(s: State, e: Event): State
    requires Enabled(s, e)
  {
    match e
    case Append(at, payload) =>
      var r := Row(s.next, at, payload);
      s.(log := s.log + [r], history := s.history + [r], next := s.next + 1)
    case Prune(gone) =>
      s.(log := Without(s.log, gone),
         lost := s.lost + set i | 0 <= i < |s.log| && s.log[i].seqNo in gone && s.log[i].seqNo > Frontier(s) :: s.log[i].seqNo)
    case Read(limit) => s.(queue := ReadAfter(s.log, s.cursor, limit))
    case PublishNext =>
      var r := s.queue[0];
      if r.seqNo <= s.cursor then s.(queue := s.queue[1..])
      else s.(queue := s.queue[1..], cursor := r.seqNo, published := s.published + [r], subs := Deliver(s.subs, r))
    case Subscribe => s.(subs := s.subs + [Subscriber(|s.published|, None, [])])
    case Unsubscribe(id) => s.(subs := s.subs[id := s.subs[id].(left := Some(|s.published|))])
  }

  function Step(s: State, e: Event): State {
    if Enabled(s, e) then Apply(s, e) else s
  }

  function RunFrom(s: State, es: seq<Event>): State {
    if es == [] then s else Step(RunFrom(s, es[..|es| - 1]), es[|es| - 1])
  }

  // ---------- facts about ordered rows ----------

  lemma {:induction false} BetweenMembers(rows: seq<Row>, lo: nat, hi: nat, lost: set<nat>, r: Row)
    ensures r in Between(rows, lo, hi, lost) <==> r in rows && lo < r.seqNo <= hi && r.seqNo !in lost
  {
    if rows != [] {
      BetweenMembers(rows[..|rows| - 1], lo, hi, lost, r);
      assert rows == rows[..|rows| - 1] + [rows[|rows| - 1]];
    }
  }

  lemma {:induction false} BetweenAscends(rows: seq<Row>, lo: nat, hi: nat, lost: set<nat>)
    requires Ascending(rows)
    ensures Ascending(Between(rows, lo, hi, lost))
  {
    if rows != [] {
      var n := |rows| - 1;
      BetweenAscends(rows[..n], lo, hi, lost);
      var front := Between(rows[..n], lo, hi, lost);
      forall i | 0 <= i < |front| ensures front[i].seqNo < rows[n].seqNo { BetweenMembers(rows[..n], lo, hi, lost, front[i]); }
    }
  }

  lemma {:induction false} BetweenSplits(rows: seq<Row>, lo: nat, mid: nat, hi: nat, lost: set<nat>)
    requires Ascending(rows) && lo <= mid <= hi
    ensures Between(rows, lo, hi, lost) == Between(rows, lo, mid, lost) + Between(rows, mid, hi, lost)
  {
    if rows != [] {
      var n := |rows| - 1;
      BetweenSplits(rows[..n], lo, mid, hi, lost);
      if rows[n].seqNo <= mid {
        BetweenEmpty(rows[..n], mid, hi, lost);
      }
    }
  }

  lemma {:induction false} BetweenEmpty(rows: seq<Row>, lo: nat, hi: nat, lost: set<nat>)
    requires forall i :: 0 <= i < |rows| ==> rows[i].seqNo <= lo
    ensures Between(rows, lo, hi, lost) == []
  {
    if rows != [] { BetweenEmpty(rows[..|rows| - 1], lo, hi, lost); }
  }

  // Only what is in range decides the result.
  lemma {:induction false} BetweenSame(rows: seq<Row>, lo: nat, hi: nat, lost: set<nat>, hi': nat, lost': set<nat>)
    requires forall i :: 0 <= i < |rows| ==>
      (lo < rows[i].seqNo <= hi && rows[i].seqNo !in lost <==> lo < rows[i].seqNo <= hi' && rows[i].seqNo !in lost')
    ensures Between(rows, lo, hi, lost) == Between(rows, lo, hi', lost')
  {
    if rows != [] { BetweenSame(rows[..|rows| - 1], lo, hi, lost, hi', lost'); }
  }

  // The first n selected rows are the selection up to the n-th.
  lemma BetweenPrefix(rows: seq<Row>, lo: nat, hi: nat, lost: set<nat>, n: nat)
    requires Ascending(rows)
    requires var x := Between(rows, lo, hi, lost); 0 < n <= |x|
    ensures var x := Between(rows, lo, hi, lost); var mid := x[n - 1].seqNo;
      lo < mid <= hi && x[..n] == Between(rows, lo, mid, lost) && x[n..] == Between(rows, mid, hi, lost)
  {
    var x := Between(rows, lo, hi, lost);
    var mid := x[n - 1].seqNo;
    BetweenMembers(rows, lo, hi, lost, x[n - 1]);
    assert x[n - 1] in x;
    BetweenAscends(rows, lo, hi, lost);
    BetweenSplits(rows, lo, mid, hi, lost);
    var a, b := Between(rows, lo, mid, lost), Between(rows, mid, hi, lost);
    forall i | 0 <= i < |a| ensures x[i].seqNo <= mid { BetweenMembers(rows, lo, mid, lost, a[i]); assert x[i] == a[i]; }
    forall j | |a| <= j < |x| ensures x[j].seqNo > mid { BetweenMembers(rows, mid, hi, lost, b[j - |a|]); assert x[j] == b[j - |a|]; }
    assert n <= |a|;
    if n < |x| { assert x[n].seqNo > mid; }
    assert |a| == n;
  }

  lemma {:induction false} WithoutMembers(log: seq<Row>, gone: set<nat>, r: Row)
    ensures r in Without(log, gone) <==> r in log && r.seqNo !in gone
  {
    if log != [] {
      WithoutMembers(log[..|log| - 1], gone, r);
      assert log == log[..|log| - 1] + [log[|log| - 1]];
    }
  }

  lemma {:induction false} WithoutAscends(log: seq<Row>, gone: set<nat>)
    requires Ascending(log)
    ensures Ascending(Without(log, gone))
  {
    if log != [] {
      var n := |log| - 1;
      WithoutAscends(log[..n], gone);
      var front := Without(log[..n], gone);
      forall i | 0 <= i < |front| ensures front[i].seqNo < log[n].seqNo { WithoutMembers(log[..n], gone, front[i]); }
    }
  }

  lemma {:induction false} BetweenWithout(log: seq<Row>, gone: set<nat>, lo: nat, hi: nat)
    ensures Between(Without(log, gone), lo, hi, {}) == Between(log, lo, hi, gone)
  {
    if log != [] {
      var n := |log| - 1;
      BetweenWithout(log[..n], gone, lo, hi);
      var front := Without(log[..n], gone);
      assert (front + [log[n]])[..|front|] == front;
    }
  }
}
