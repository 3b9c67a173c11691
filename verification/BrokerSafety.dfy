// What every run of the command broker keeps.
module BrokerSafety {
  import opened Options
  import opened BrokerModel

  // ---------- one value per channel ----------

  function Standing(s: State, r: ReqId): nat
    requires r in s.reqs
  {
    (if r in s.core.pending then 1 else 0) + |s.reqs[r].owed| + s.reqs[r].sent
  }

  // Execute has not given up on its channel and has not been answered.
  predicate Expecting(stage: Stage) {
    stage.Registered? || stage.Sending? || stage.SendFailed? || stage.Waiting? || stage.CancelChosen?
  }

  predicate ChannelOk(s: State, r: ReqId)
    requires r in s.reqs
  {
    var q := s.reqs[r];
    && Standing(s, r) <= 1
    && (Expecting(q.stage) ==> Standing(s, r) == 1)
    && |q.slot| <= q.sent
    && (!q.stage.Returned? ==> |q.slot| == q.sent)
    && (r in s.core.pending ==> s.core.conn == Some(q.conn))
    && q.conn in s.wires
  }

  predicate ChannelInv(s: State) {
    && s.core.pending <= s.reqs.Keys
    && (s.core.conn.Some? ==> s.core.conn.value in s.wires)
    && forall r :: r in s.reqs ==> ChannelOk(s, r)
  }

  lemma OweKeeps(s: State, taken: set<ReqId>, reply: Reply, core: Core, wires: map<ConnId, Bytes>)
    requires ChannelInv(s)
    requires core.pending == s.core.pending - taken
    requires taken <= s.core.pending
    requires core.pending != {} ==> core.conn == s.core.conn
    requires s.wires.Keys <= wires.Keys
    requires core.conn.Some? ==> core.conn.value in wires
    ensures ChannelInv(s.(core := core, reqs := Owe(s.reqs, taken, reply), wires := wires))
  {
    var t := s.(core := core, reqs := Owe(s.reqs, taken, reply), wires := wires);
    forall r | r in t.reqs
      ensures ChannelOk(t, r)
    {
      assert ChannelOk(s, r);
    }
  }

  // A step that rewrites one request and leaves the others alone.
  lemma PointKeeps(s: State, t: State, r: ReqId)
    requires ChannelInv(s)
    requires r in t.reqs && forall k :: k in s.reqs && k != r ==> k in t.reqs && t.reqs[k] == s.reqs[k]
    requires forall k :: k in t.reqs && k != r ==> k in s.reqs
    requires t.core.conn == s.core.conn && t.core.pending - {r} == s.core.pending - {r}
    requires s.wires.Keys <= t.wires.Keys
    requires ChannelOk(t, r)
    ensures ChannelInv(t)
  {
    forall k | k in t.reqs
      ensures ChannelOk(t, k)
    {
      if k != r {
        assert ChannelOk(s, k);
        assert k in t.core.pending <==> k in t.core.pending - {r};
        assert k in s.core.pending <==> k in s.core.pending - {r};
      }
    }
    forall k | k in t.core.pending ensures k in t.reqs {
      if k != r { assert k in t.core.pending - {r}; }
    }
  }

  // Events that only move one request along; the rest of the broker stays put
  // except that RemovePending withdraws that request's own channel.
  predicate Local(e: Event) {
    e.TakeGate? || e.WriteChunk? || e.WriteDone? || e.WriteFail? || e.RemovePending? || e.CtxDone? || e.Receive? || e.Deliver?
  }

  lemma LocalKeepsOwn(s: State, e: Event)
    requires ChannelInv(s) && Local(e) && Enabled(s, e)
    ensures e.r in Step(s, e).reqs && ChannelOk(Step(s, e), e.r)
  {
    assert ChannelOk(s, e.r);
  }

  lemma LocalFrame(s: State, e: Event)
    requires Local(e) && Enabled(s, e)
    ensures var t := Step(s, e);
      && t.reqs.Keys == s.reqs.Keys
      && (forall k :: k in s.reqs && k != e.r ==> t.reqs[k] == s.reqs[k])
      && t.core.conn == s.core.conn
      && t.core.pending - {e.r} == s.core.pending - {e.r}
      && s.wires.Keys <= t.wires.Keys
  {
  }

  lemma FailReturnKeeps(s: State, r: ReqId, ctxErr: bool)
    requires ChannelInv(s) && Enabled(s, FailReturn(r, ctxErr))
    ensures ChannelInv(Apply(s, FailReturn(r, ctxErr)))
  {
    var t := Apply(s, FailReturn(r, ctxErr));
    assert ChannelOk(s, r);
    if ctxErr {
      PointKeeps(s, t, r);
    } else {
      var c := s.reqs[r].conn;
      var d := Drop(s, c);
      OweKeeps(s, TakenByDisconnect(s.core, c), Unavailable, Disconnect(s.core, c), s.wires);
      assert ChannelOk(d, r);
      PointKeeps(d, t, r);
    }
  }

  lemma StepKeepsChannels(s: State, e: Event)
    requires ChannelInv(s)
    ensures ChannelInv(Step(s, e))
  {
    if Enabled(s, e) {
      var t := Step(s, e);
      if Local(e) {
        LocalKeepsOwn(s, e);
        LocalFrame(s, e);
        PointKeeps(s, t, e.r);
      } else {
        match e
        case Execute(r, _, _) => if s.core.conn.Some? { PointKeeps(s, t, r); }
        case AdoptConn(c) => OweKeeps(s, s.core.pending, Unavailable, t.core, t.wires);
        case ReaderGone(c) => OweKeeps(s, TakenByDisconnect(s.core, c), Unavailable, t.core, t.wires);
        case ReadResult(msg) => OweKeeps(s, s.core.pending * {msg.requestId}, ReplyOf(msg), t.core, t.wires);
        case FailReturn(r, ctxErr) => FailReturnKeeps(s, r, ctxErr);
      }
    }
  }

  lemma {:induction false} RunKeepsChannels(es: seq<Event>)
    ensures ChannelInv(Run(es))
  {
    if es != [] {
      RunKeepsChannels(es[..|es| - 1]);
      StepKeepsChannels(Run(es[..|es| - 1]), es[|es| - 1]);
    }
  }
}
