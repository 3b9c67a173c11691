// What subscribers of the change feed get, over every interleaving of writers,
// janitor, poller and subscriptions.
module FeedTheorems {
  import opened Options
  import opened FeedModel

  // ---------- the published rows are the log ----------

  predicate LogInv(s: State) {
    && Ascending(s.history) && Ascending(s.log)
    && (forall i :: 0 <= i < |s.history| ==> s.history[i].seqNo < s.next)
    && (forall i :: 0 <= i < |s.log| ==> s.log[i].seqNo < s.next)
    && s.start <= s.cursor <= Frontier(s)
    && (s.cursor == s.start || s.cursor < s.next) && (Frontier(s) == s.start || Frontier(s) < s.next)
    && (forall x :: x in s.lost ==> s.start < x < s.next)
    && s.published == Between(s.history, s.start, s.cursor, s.lost)
    && s.queue == Between(s.history, s.cursor, Frontier(s), s.lost)
    && Between(s.log, Frontier(s), s.next, {}) == Between(s.history, Frontier(s), s.next, s.lost)
  }

  lemma {:induction false} NothingBetween(rows: seq<Row>, x: nat, lost: set<nat>)
    ensures Between(rows, x, x, lost) == []
  {
    if rows != [] { NothingBetween(rows[..|rows| - 1], x, lost); }
  }

  lemma InitLog(log: seq<Row>, next: nat, start: nat)
    requires Ascending(log) && forall i :: 0 <= i < |log| ==> log[i].seqNo < next
    ensures LogInv(Init(log, next, start))
  {
    NothingBetween(log, start, {});
  }

  lemma BetweenSnoc(rows: seq<Row>, r: Row, lo: nat, hi: nat, lost: set<nat>)
    ensures Between(rows + [r], lo, hi, lost) ==
      if lo < r.seqNo <= hi && r.seqNo !in lost then Between(rows, lo, hi, lost) + [r] else Between(rows, lo, hi, lost)
  {
    assert (rows + [r])[..|rows|] == rows;
  }

  // A row above the range is not selected, and the bound may move past it.
  lemma BetweenAppend(rows: seq<Row>, r: Row, lo: nat, lost: set<nat>)
    requires (forall i :: 0 <= i < |rows| ==> rows[i].seqNo < r.seqNo) && lo < r.seqNo && r.seqNo !in lost
    ensures Between(rows + [r], lo, r.seqNo + 1, lost) == Between(rows, lo, r.seqNo, lost) + [r]
  {
    BetweenSnoc(rows, r, lo, r.seqNo + 1, lost);
    BetweenSame(rows, lo, r.seqNo, lost, r.seqNo + 1, lost);
  }

  lemma AppendNothingYet(s: State, r: Row)
    requires LogInv(s) && r.seqNo == s.next && s.next <= Frontier(s)
    ensures Between(s.log + [r], Frontier(s), s.next + 1, {}) == Between(s.history + [r], Frontier(s), s.next + 1, s.lost)
  {
    BetweenEmpty(s.log + [r], Frontier(s), s.next + 1, {});
    BetweenEmpty(s.history + [r], Frontier(s), s.next + 1, s.lost);
  }

  // What the new row does to the three selections: the first two are of read
  // rows and stay, the unread rows gain it on both sides.
  lemma AppendSelects(s: State, r: Row)
    requires LogInv(s) && r.seqNo == s.next
    ensures var f := Frontier(s); var history, log := s.history + [r], s.log + [r];
      && Between(history, s.start, s.cursor, s.lost) == s.published
      && Between(history, s.cursor, f, s.lost) == s.queue
      && Between(log, f, s.next + 1, {}) == Between(history, f, s.next + 1, s.lost)
  {
    var f := Frontier(s);
    BetweenSnoc(s.history, r, s.start, s.cursor, s.lost);
    BetweenSnoc(s.history, r, s.cursor, f, s.lost);
    if f < s.next {
      BetweenAppend(s.history, r, f, s.lost);
      BetweenAppend(s.log, r, f, {});
    } else {
      AppendNothingYet(s, r);
    }
  }

  lemma AscendingSnoc(rows: seq<Row>, r: Row)
    requires Ascending(rows) && forall i :: 0 <= i < |rows| ==> rows[i].seqNo < r.seqNo
    ensures Ascending(rows + [r]) && forall i :: 0 <= i < |rows + [r]| ==> (rows + [r])[i].seqNo < r.seqNo + 1
  {}

  lemma AppendKeeps(s: State, at: int, payload: string)
    requires LogInv(s)
    ensures LogInv(Apply(s, Append(at, payload)))
  {
    var r := Row(s.next, at, payload);
    AscendingSnoc(s.history, r);
    AscendingSnoc(s.log, r);
    AppendSelects(s, r);
  }

  // Pruning loses exactly the rows it removes above the frontier.
  lemma PruneKeeps(s: State, gone: set<nat>)
    requires LogInv(s)
    ensures LogInv(Apply(s, Prune(gone)))
  {
    var t := Apply(s, Prune(gone));
    var f := Frontier(s);
    WithoutAscends(s.log, gone);
    forall i | 0 <= i < |t.log| ensures t.log[i].seqNo < s.next { WithoutMembers(s.log, gone, t.log[i]); }
    BetweenSame(s.history, s.start, s.cursor, s.lost, s.cursor, t.lost);
    BetweenSame(s.history, s.cursor, f, s.lost, f, t.lost);
    BetweenWithout(s.log, gone, f, s.next);
    PruneAbove(s.log, s.history, f, s.next, s.lost, gone, t.lost);
  }

  // Two row lists that agree above f still agree once the same rows are struck out.
  lemma PruneAbove(log: seq<Row>, history: seq<Row>, f: nat, next: nat, lost: set<nat>, gone: set<nat>, lost': set<nat>)
    requires Ascending(log) && Ascending(history)
    requires Between(log, f, next, {}) == Between(history, f, next, lost)
    requires forall i :: 0 <= i < |log| ==> log[i].seqNo < next
    requires lost' == lost + set i | 0 <= i < |log| && log[i].seqNo in gone && log[i].seqNo > f :: log[i].seqNo
    ensures Between(log, f, next, gone) == Between(history, f, next, lost')
  {
    BetweenTwice(log, f, next, {}, gone);
    BetweenTwice(history, f, next, lost, gone);
    BetweenSame(log, f, next, gone, next, {} + gone);
    forall i | 0 <= i < |history|
      ensures f < history[i].seqNo <= next && history[i].seqNo !in lost + gone <==>
              f < history[i].seqNo <= next && history[i].seqNo !in lost'
    {
      var r := history[i];
      BetweenMembers(history, f, next, lost, r);
      BetweenMembers(log, f, next, {}, r);
    }
    BetweenSame(history, f, next, lost + gone, next, lost');
  }

  lemma {:induction false} BetweenTwice(rows: seq<Row>, lo: nat, hi: nat, lost: set<nat>, gone: set<nat>)
    ensures Between(Between(rows, lo, hi, lost), lo, hi, gone) == Between(rows, lo, hi, lost + gone)
  {
    if rows != [] {
      var n := |rows| - 1;
      BetweenTwice(rows[..n], lo, hi, lost, gone);
      BetweenSnoc(Between(rows[..n], lo, hi, lost), rows[n], lo, hi, gone);
    }
  }

  // A read takes the first unread rows of the log.
  lemma ReadIsPrefix(log: seq<Row>, after: nat, next: nat, limit: nat)
    requires Ascending(log) && forall i :: 0 <= i < |log| ==> log[i].seqNo < next
    ensures ReadAfter(log, after, limit) == Take(Between(log, after, next, {}), limit)
  {
    forall i | 0 <= i < |log|
      ensures after < log[i].seqNo <= Last(log, after) <==> after < log[i].seqNo <= next
    {
      assert log[i].seqNo <= log[|log| - 1].seqNo;
    }
    BetweenSame(log, after, Last(log, after), {}, next, {});
  }

  // What was selected up to `next` falls into what the read took and the rest,
  // in the log and in the history alike.
  lemma ReadSelects(s: State, limit: nat)
    requires LogInv(s) && s.queue == [] && ReadAfter(s.log, s.cursor, limit) != []
    ensures var q := ReadAfter(s.log, s.cursor, limit); var f := q[|q| - 1].seqNo;
      && s.cursor < f < s.next
      && q == Between(s.history, s.cursor, f, s.lost)
      && Between(s.log, f, s.next, {}) == Between(s.history, f, s.next, s.lost)
  {
    var q := ReadAfter(s.log, s.cursor, limit);
    var x := Between(s.log, s.cursor, s.next, {});
    ReadIsPrefix(s.log, s.cursor, s.next, limit);
    var n := |q|;
    assert q == x[..n];
    BetweenPrefix(s.log, s.cursor, s.next, {}, n);
    BetweenPrefix(s.history, s.cursor, s.next, s.lost, n);
    BetweenMembers(s.log, s.cursor, s.next, {}, x[n - 1]);
    assert x[n - 1] in x;
  }

  lemma ReadKeeps(s: State, limit: nat)
    requires LogInv(s) && s.queue == []
    ensures LogInv(Apply(s, Read(limit)))
  {
    NothingBetween(s.history, s.cursor, s.lost);
    if ReadAfter(s.log, s.cursor, limit) != [] { ReadSelects(s, limit); }
  }

  lemma PublishKeeps(s: State)
    requires LogInv(s) && s.queue != []
    ensures s.queue[0].seqNo > s.cursor
    ensures LogInv(Apply(s, PublishNext))
  {
    var t := Apply(s, PublishNext);
    var r := s.queue[0];
    BetweenPrefix(s.history, s.cursor, Frontier(s), s.lost, 1);
    assert s.queue[..1] == [r];
    BetweenMembers(s.history, s.cursor, Frontier(s), s.lost, r);
    BetweenSplits(s.history, s.start, s.cursor, r.seqNo, s.lost);
    assert Frontier(t) == Frontier(s);
  }

  lemma StepKeepsLog(s: State, e: Event)
    requires LogInv(s)
    ensures LogInv(Step(s, e))
  {
    if Enabled(s, e) {
      match e
      case Append(at, payload) => AppendKeeps(s, at, payload);
      case Prune(gone) => PruneKeeps(s, gone);
      case Read(limit) => ReadKeeps(s, limit);
      case PublishNext => PublishKeeps(s);
      case _ =>
    }
  }

  lemma {:induction false} RunKeepsLog(s: State, es: seq<Event>)
    requires LogInv(s)
    ensures LogInv(RunFrom(s, es))
  {
    if es != [] {
      RunKeepsLog(s, es[..|es| - 1]);
      StepKeepsLog(RunFrom(s, es[..|es| - 1]), es[|es| - 1]);
    }
  }

  // Every lost number belongs to a row that was really written.
  predicate HasRow(rows: seq<Row>, x: nat) {
    exists i :: 0 <= i < |rows| && rows[i].seqNo == x
  }

  predicate LostInv(s: State) {
    forall x :: x in s.lost ==> HasRow(s.history, x)
  }

  lemma StepKeepsLost(s: State, e: Event)
    requires LogInv(s) && LostInv(s)
    ensures LostInv(Step(s, e))
  {
    var t := Step(s, e);
    forall x | x in t.lost
      ensures HasRow(t.history, x)
    {
      if x in s.lost {
        var i :| 0 <= i < |s.history| && s.history[i].seqNo == x;
        assert t.history[i] == s.history[i];
      } else {
        var i :| 0 <= i < |s.log| && s.log[i].seqNo > Frontier(s) && s.log[i].seqNo == x;
        BetweenMembers(s.log, Frontier(s), s.next, {}, s.log[i]);
        BetweenMembers(s.history, Frontier(s), s.next, s.lost, s.log[i]);
      }
    }
  }

  lemma {:induction false} RunKeepsLost(s: State, es: seq<Event>)
    requires LogInv(s) && LostInv(s)
    ensures LostInv(RunFrom(s, es))
  {
    if es != [] {
      RunKeepsLost(s, es[..|es| - 1]);
      RunKeepsLog(s, es[..|es| - 1]);
      StepKeepsLost(RunFrom(s, es[..|es| - 1]), es[|es| - 1]);
    }
  }

  // A log as SQLite keeps it: ordered, with every number below the next one.
  predicate ValidLog(log: seq<Row>, next: nat) {
    Ascending(log) && forall i :: 0 <= i < |log| ==> log[i].seqNo < next
  }

  // The published events are the rows from the starting point to the cursor,
  // less the rows that were pruned before the poller read them; so they are all
  // of those rows exactly if none of those was pruned unread.
  lemma PublishedIsTheLog(log: seq<Row>, next: nat, start: nat, es: seq<Event>)
    requires ValidLog(log, next)
    ensures var s := RunFrom(Init(log, next, start), es);
      && s.published == Between(s.history, s.start, s.cursor, s.lost)
      && Ascending(s.published)
      && (s.published == Between(s.history, s.start, s.cursor, {}) <==> forall x :: x in s.lost ==> x > s.cursor)
  {
    InitLog(log, next, start);
    RunKeepsLog(Init(log, next, start), es);
    RunKeepsLost(Init(log, next, start), es);
    var s := RunFrom(Init(log, next, start), es);
    BetweenAscends(s.history, s.start, s.cursor, s.lost);
    if forall x :: x in s.lost ==> x > s.cursor {
      BetweenSame(s.history, s.start, s.cursor, s.lost, s.cursor, {});
    }
    if s.published == Between(s.history, s.start, s.cursor, {}) {
      forall x | x in s.lost ensures x > s.cursor {
        var i :| 0 <= i < |s.history| && s.history[i].seqNo == x;
        BetweenMembers(s.history, s.start, s.cursor, {}, s.history[i]);
        BetweenMembers(s.history, s.start, s.cursor, s.lost, s.history[i]);
      }
    }
  }

  // No prune of the run takes a row the poller has not read.
  ghost predicate PrunesOnlyRead(s: State, es: seq<Event>) {
    forall i, r :: 0 <= i < |es| && es[i].Prune? && r in RunFrom(s, es[..i]).log && r.seqNo in es[i].gone ==>
      r.seqNo <= Frontier(RunFrom(s, es[..i]))
  }

  lemma {:induction false} NothingLostUnlessPrunedUnread(s: State, es: seq<Event>)
    requires s.lost == {} && PrunesOnlyRead(s, es)
    ensures RunFrom(s, es).lost == {}
  {
    if es != [] {
      var n := |es| - 1;
      forall i, r | 0 <= i < n && es[..n][i].Prune? && r in RunFrom(s, es[..n][..i]).log && r.seqNo in es[..n][i].gone
        ensures r.seqNo <= Frontier(RunFrom(s, es[..n][..i]))
      {
        assert es[..n][..i] == es[..i] && es[..n][i] == es[i];
      }
      NothingLostUnlessPrunedUnread(s, es[..n]);
      var t := RunFrom(s, es[..n]);
      if es[n].Prune? {
        forall i | 0 <= i < |t.log| && t.log[i].seqNo in es[n].gone ensures t.log[i].seqNo <= Frontier(t) { assert t.log[i] in t.log; }
      }
    }
  }

  // With no unread row pruned, exactly the log rows between the starting point
  // and the cursor are published.
  lemma PublishedIsComplete(log: seq<Row>, next: nat, start: nat, es: seq<Event>)
    requires ValidLog(log, next) && PrunesOnlyRead(Init(log, next, start), es)
    ensures var s := RunFrom(Init(log, next, start), es); s.published == Between(s.history, s.start, s.cursor, {})
  {
    NothingLostUnlessPrunedUnread(Init(log, next, start), es);
    PublishedIsTheLog(log, next, start, es);
  }

  // ---------- subscribers ----------

  function Until(s: State, id: nat): nat
    requires id < |s.subs|
  {
    if s.subs[id].left.Some? then s.subs[id].left.value else |s.published|
  }

  predicate SubscriberOk(s: State, id: nat)
    requires id < |s.subs|
  {
    var b := s.subs[id];
    b.from <= Until(s, id) <= |s.published| && b.calls == s.published[b.from..Until(s, id)]
  }

  predicate SubscribersInv(s: State) {
    forall id: nat :: id < |s.subs| ==> SubscriberOk(s, id)
  }

  lemma StepKeepsSubscribers(s: State, e: Event)
    requires SubscribersInv(s)
    ensures SubscribersInv(Step(s, e))
  {
    var t := Step(s, e);
    forall id: nat | id < |t.subs|
      ensures SubscriberOk(t, id)
    {
      if id < |s.subs| { assert SubscriberOk(s, id); }
    }
  }

  lemma {:induction false} RunKeepsSubscribers(s: State, es: seq<Event>)
    requires SubscribersInv(s)
    ensures SubscribersInv(RunFrom(s, es))
  {
    if es != [] {
      RunKeepsSubscribers(s, es[..|es| - 1]);
      StepKeepsSubscribers(RunFrom(s, es[..|es| - 1]), es[|es| - 1]);
    }
  }

  // A subscriber is called with every event published while it was subscribed,
  // in order: a strictly increasing run with no event missing or repeated.
  lemma SubscriberGetsEveryEvent(log: seq<Row>, next: nat, start: nat, es: seq<Event>, id: nat)
    requires ValidLog(log, next) && id < |RunFrom(Init(log, next, start), es).subs|
    ensures var s := RunFrom(Init(log, next, start), es); var b := s.subs[id];
      && b.from <= Until(s, id) <= |s.published|
      && b.calls == s.published[b.from..Until(s, id)]
      && Ascending(b.calls)
  {
    PublishedIsTheLog(log, next, start, es);
    RunKeepsSubscribers(Init(log, next, start), es);
    assert SubscriberOk(RunFrom(Init(log, next, start), es), id);
  }

  // ---------- starting at the head ----------

  predicate GrewFrom(s: State, log: seq<Row>, next: nat) {
    && log <= s.history && next <= s.next
    && forall i :: |log| <= i < |s.history| ==> s.history[i].seqNo >= next
  }

  lemma {:induction false} HistoryGrows(log: seq<Row>, next: nat, start: nat, es: seq<Event>)
    ensures GrewFrom(RunFrom(Init(log, next, start), es), log, next)
  {
    if es != [] { HistoryGrows(log, next, start, es[..|es| - 1]); }
  }

  lemma {:induction false} StartStays(s: State, es: seq<Event>)
    ensures RunFrom(s, es).start == s.start
  {
    if es != [] { StartStays(s, es[..|es| - 1]); }
  }

  // A poller that seeks to the head publishes only rows written afterwards, even
  // when the log had been pruned empty.
  lemma SeekSkipsHistory(log: seq<Row>, next: nat, es: seq<Event>, r: Row)
    requires ValidLog(log, next)
    requires r in RunFrom(Init(log, next, Last(log, 0)), es).published
    ensures r.seqNo >= next && r !in log
  {
    var s := RunFrom(Init(log, next, Last(log, 0)), es);
    PublishedIsTheLog(log, next, Last(log, 0), es);
    HistoryGrows(log, next, Last(log, 0), es);
    StartStays(Init(log, next, Last(log, 0)), es);
    BetweenMembers(s.history, s.start, s.cursor, s.lost, r);
    var i :| 0 <= i < |s.history| && s.history[i] == r;
    assert forall j :: 0 <= j < |log| ==> s.history[j] == log[j] && log[j].seqNo <= Last(log, 0);
  }
}
