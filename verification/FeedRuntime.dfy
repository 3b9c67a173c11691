// The poller and the broadcaster.
module FeedRuntime {
  import opened Options
  import opened FeedModel
  import opened FeedPolls

  // A subscriber's callback: it notes each call and may then panic.
  class Callback {
    var calls: seq<Row>

    constructor ()
      ensures calls == []
    {
      calls := [];
    }

    method Invoke(e: Row) returns (panicked: bool)
      modifies this
      ensures calls == old(calls) + [e]
    {
      calls := calls + [e];
      panicked := *;
    }
  }

  class Broadcaster {
    var nextId: nat
    var subs: map<nat, Callback>
    var panics: nat

    ghost predicate Valid()
      reads this
    {
      && (forall id :: id in subs ==> id < nextId)
      && (forall i, j :: i in subs && j in subs && i != j ==> subs[i] != subs[j])
    }

    constructor ()
      ensures Valid() && subs == map[]
    {
      nextId, subs, panics := 0, map[], 0;
    }

    method Subscribe(fn: Callback) returns (id: nat)
      requires Valid() && fn !in subs.Values
      modifies this
      ensures Valid() && id !in old(subs) && subs == old(subs)[id := fn]
    {
      id := nextId;
      nextId := nextId + 1;
      subs := subs[id := fn];
    }

    // The function Subscribe returns.
    method Unsubscribe(id: nat)
      requires Valid()
      modifies this
      ensures Valid() && subs == old(subs) - {id} && nextId == old(nextId)
    {
      subs := subs - {id};
    }

    // A panic is recovered and logged; it does not reach anyone else.
    method DeliverTo(fn: Callback, e: Row)
      modifies this`panics, fn
      ensures fn.calls == old(fn.calls) + [e]
    {
      var panicked := fn.Invoke(e);
      if panicked {
        panics := panics + 1;
      }
    }

    // Every current subscriber is called once, whoever panics.
    method Publish(e: Row)
      requires Valid()
      modifies this`panics, subs.Values
      ensures Valid()
      ensures forall id :: id in subs ==> subs[id].calls == old(subs[id].calls) + [e]
    {
      var left := subs.Keys;
      while left != {}
        invariant left <= subs.Keys
        invariant forall id :: id in subs ==> subs[id].calls == if id in left then old(subs[id].calls) else old(subs[id].calls) + [e]
        decreases left
      {
        var id :| id in left;
        DeliverTo(subs[id], e);
        left := left - {id};
      }
    }
  }

  class Poller {
    var lastSeq: nat
    const batch: nat
    const bcast: Broadcaster

    constructor (bcast: Broadcaster, batch: nat, startSeq: nat)
      ensures lastSeq == startSeq && this.bcast == bcast && this.batch == (if batch == 0 then 512 else batch)
    {
      this.bcast, lastSeq := bcast, startSeq;
      this.batch := if batch == 0 then 512 else batch;
    }

    // `log` is what the source reads, or None when reading failed.
    method SeekToHead(log: Option<seq<Row>>) returns (ok: bool)
      modifies this
      ensures ok <==> log.Some?
      ensures lastSeq == if ok then Last(log.value, 0) else old(lastSeq)
    {
      if log.None? { return false; }
      lastSeq := Last(log.value, 0);
      ok := true;
    }

    // One poll hands every subscriber exactly the batch that was read, in order.
    method Poll(log: Option<seq<Row>>) returns (ok: bool, ghost delivered: seq<Row>)
      requires bcast.Valid() && (log.Some? ==> Ascending(log.value))
      modifies this, bcast`panics, bcast.subs.Values
      ensures bcast.Valid() && (ok <==> log.Some?)
      ensures var evs := if ok then ReadAfter(log.value, old(lastSeq), batch) else [];
        && lastSeq == Last(evs, old(lastSeq))
        && forall id :: id in bcast.subs ==> bcast.subs[id].calls == old(bcast.subs[id].calls) + evs
      // The same without naming the query.
      ensures forall id :: id in bcast.subs ==> bcast.subs[id].calls == old(bcast.subs[id].calls) + delivered
      ensures if ok then Delivers(log.value, old(lastSeq), batch, delivered, lastSeq) else delivered == [] && lastSeq == old(lastSeq)
    {
      delivered := [];
      if log.None? { return false, []; }
      var evs := ReadAfter(log.value, lastSeq, batch);
      ghost var from := lastSeq;
      ReadsAscend(log.value, from, batch);
      for i := 0 to |evs|
        invariant bcast.Valid() && lastSeq == Last(evs[..i], from)
        invariant bcast.subs == old(bcast.subs)
        invariant forall id :: id in bcast.subs ==> bcast.subs[id].calls == old(bcast.subs[id].calls) + evs[..i]
      {
        var e := evs[i];
        assert evs[..i + 1] == evs[..i] + [e];
        if e.seqNo > lastSeq {
          bcast.Publish(e);
          lastSeq := e.seqNo;
        }
      }
      assert evs[..|evs|] == evs;
      ok, delivered := true, evs;
      ReadDelivers(log.value, from, batch);
    }
  }

  lemma ReadsAscend(log: seq<Row>, after: nat, limit: nat)
    requires Ascending(log)
    ensures var evs := ReadAfter(log, after, limit); Ascending(evs) && forall i :: 0 <= i < |evs| ==> evs[i].seqNo > after
  {
    var x := Between(log, after, Last(log, after), {});
    BetweenAscends(log, after, Last(log, after), {});
    forall i | 0 <= i < |x| ensures x[i].seqNo > after { BetweenMembers(log, after, Last(log, after), {}, x[i]); }
  }
}
