// What each event outside the poller does to the feed.
module FeedEvents {
  import opened Options
  import opened FeedModel
  import opened FeedTheorems

  // A write puts one row at the end of the log, numbered above every other, and
  // a cleanup takes out the rows it names and no others.
  lemma WritesAndCleanups(log: seq<Row>, next: nat, start: nat, es: seq<Event>, at: int, payload: string, gone: set<nat>)
    requires ValidLog(log, next)
    ensures var s := RunFrom(Init(log, next, start), es); var t := Step(s, Append(at, payload));
      && |t.log| == |s.log| + 1 && t.log[..|s.log|] == s.log
      && (var r := t.log[|s.log|];
          r.createdAt == at && r.payload == payload && forall q :: q in s.log ==> q.seqNo < r.seqNo)
    ensures var s := RunFrom(Init(log, next, start), es); var t := Step(s, Prune(gone));
      && Ascending(t.log) && forall r :: r in t.log <==> r in s.log && r.seqNo !in gone
  {
    var s := RunFrom(Init(log, next, start), es);
    InitLog(log, next, start);
    RunKeepsLog(Init(log, next, start), es);
    WithoutAscends(s.log, gone);
    forall r ensures r in Step(s, Prune(gone)).log <==> r in s.log && r.seqNo !in gone { WithoutMembers(s.log, gone, r); }
    assert forall q :: q in s.log ==> q.seqNo < s.next;
  }

  lemma {:induction false} GoneStaysSilent(s: State, more: seq<Event>, id: nat)
    requires id < |s.subs| && s.subs[id].left.Some?
    ensures id < |RunFrom(s, more).subs| && RunFrom(s, more).subs[id] == s.subs[id]
  {
    if more != [] { GoneStaysSilent(s, more[..|more| - 1], id); }
  }

  // After its unsubscription a subscriber is never called again, and the others
  // stay subscribed.
  lemma UnsubscribedHearsNothing(s: State, id: nat, more: seq<Event>)
    requires Enabled(s, Unsubscribe(id))
    ensures var t := RunFrom(Step(s, Unsubscribe(id)), more);
      id < |t.subs| && t.subs[id].calls == s.subs[id].calls
    ensures forall k: nat :: k < |s.subs| && k != id ==> Step(s, Unsubscribe(id)).subs[k] == s.subs[k]
  {
    GoneStaysSilent(Step(s, Unsubscribe(id)), more, id);
  }

  // A new subscriber starts unheard, and the next event published is its first.
  lemma SubscribedHearsNext(s: State)
    requires LogInv(s) && s.queue != []
    ensures var t := Step(Step(s, Subscribe), PublishNext); var id := |s.subs|;
      |t.subs| == id + 1 && t.subs[id].left.None? && t.subs[id].calls == [s.queue[0]]
  {
    PublishKeeps(s);
  }
}
