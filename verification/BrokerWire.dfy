// The write gate and the bytes on each connection, over every run.
module BrokerWire {
  import opened Options
  import opened BrokerModel
  import opened BrokerSafety

  // `frame` lies whole and contiguous at `at`.
  predicate Whole(wire: Bytes, at: nat, frame: Bytes) {
    at + |frame| <= |wire| && wire[at..at + |frame|] == frame
  }

  // The first `done` bytes of `frame` are the last bytes on the wire.
  predicate AtTail(wire: Bytes, at: nat, frame: Bytes, done: nat) {
    done <= |frame| && at + done == |wire| && wire[at..] == frame[..done]
  }

  predicate Delivered(stage: Stage) {
    stage.Waiting? || stage.CancelChosen? || stage.CancelReady? || stage.SendingCancel? || (stage.Returned? && stage.outcome.Answered?)
  }

  predicate Undelivered(stage: Stage) {
    stage.Registered? || stage.Sending? || stage.SendFailed? || stage.Withdrawn? || stage == Returned(NoRuntime)
  }

  predicate RequestWireOk(q: Request, wire: Bytes) {
    && (q.stage.Sending? ==> AtTail(wire, q.stage.start, q.frame, q.stage.done))
    && (q.stage.SendingCancel? ==> AtTail(wire, q.stage.start, q.cancel, q.stage.done) && q.cancelFrom == Some(q.stage.start))
    && (Delivered(q.stage) ==> q.deliveredAt.Some?)
    && (Undelivered(q.stage) ==> q.deliveredAt.None?)
    && (q.deliveredAt.Some? ==> Whole(wire, q.deliveredAt.value, q.frame))
    && (q.cancelFrom.Some? ==>
          q.cancelTried && q.deliveredAt.Some? && q.deliveredAt.value + |q.frame| <= q.cancelFrom.value <= |wire|)
    && (q.cancelledAt.Some? ==> q.cancelFrom == q.cancelledAt && Whole(wire, q.cancelledAt.value, q.cancel))
    && (q.stage.Waiting? || q.stage.CancelChosen? || q.stage.CancelReady? ==> q.cancelFrom.None?)
    && (!q.stage.Returned? ==> q.cancelledAt.None?)
    && (q.stage.CancelReady? || (q.stage == Returned(Cancelled) && q.deliveredAt.Some?) ==> q.cancelTried)
  }

  predicate Writing(s: State, r: ReqId) {
    r in s.reqs && IsWriting(s.reqs[r].stage)
  }

  ghost predicate GateOk(s: State) {
    && s.gate <= 1
    && (forall r, k :: Writing(s, r) && Writing(s, k) ==> r == k)
    && (s.gate == 1 <==> forall r :: !Writing(s, r))
  }

  ghost predicate WireInv(s: State) {
    && GateOk(s)
    && forall r :: r in s.reqs ==> WireOk(s, r)
  }

  predicate WireOk(s: State, r: ReqId)
    requires r in s.reqs
  {
    s.reqs[r].conn in s.wires && RequestWireOk(s.reqs[r], s.wires[s.reqs[r].conn])
  }

  predicate SameButChannel(q: Request, p: Request) {
    p == q.(owed := p.owed, sent := p.sent, slot := p.slot)
  }

  lemma OwedWireOk(q: Request, p: Request, wire: Bytes)
    requires RequestWireOk(q, wire) && SameButChannel(q, p)
    ensures RequestWireOk(p, wire)
  {
  }

  // A longer wire still holds everything a request that is not writing relied on.
  lemma WireGrows(q: Request, wire: Bytes, more: Bytes)
    requires RequestWireOk(q, wire) && !IsWriting(q.stage)
    ensures RequestWireOk(q, wire + more)
  {
    if q.deliveredAt.Some? {
      var a := q.deliveredAt.value;
      assert (wire + more)[a..a + |q.frame|] == wire[a..a + |q.frame|];
    }
    if q.cancelledAt.Some? {
      var a := q.cancelledAt.value;
      assert (wire + more)[a..a + |q.cancel|] == wire[a..a + |q.cancel|];
    }
  }

  function AfterChunk(q: Request, n: nat): Request
    requires IsWriting(q.stage)
  {
    q.(stage := if q.stage.Sending? then Sending(q.stage.start, q.stage.done + n)
                else SendingCancel(q.stage.start, q.stage.done + n))
  }

  lemma ChunkOwn(q: Request, wire: Bytes, n: nat)
    requires IsWriting(q.stage) && RequestWireOk(q, wire) && q.stage.done + n <= |Outgoing(q)|
    ensures RequestWireOk(AfterChunk(q, n), wire + Outgoing(q)[q.stage.done..q.stage.done + n])
  {
    var done := q.stage.done;
    var more := Outgoing(q)[done..done + n];
    assert (wire + more)[q.stage.start..] == wire[q.stage.start..] + more;
    assert Outgoing(q)[..done] + more == Outgoing(q)[..done + n];
    if q.deliveredAt.Some? {
      var a := q.deliveredAt.value;
      assert (wire + more)[a..a + |q.frame|] == wire[a..a + |q.frame|];
    }
  }

  lemma ChunkOther(s: State, r: ReqId, n: nat, k: ReqId)
    requires Enabled(s, WriteChunk(r, n)) && GateOk(s)
    requires k in s.reqs && k != r && WireOk(s, k)
    ensures WireOk(Apply(s, WriteChunk(r, n)), k)
  {
    assert Writing(s, r) && (Writing(s, k) ==> k == r);
    var q := s.reqs[r];
    if s.reqs[k].conn == q.conn {
      WireGrows(s.reqs[k], s.wires[q.conn], Outgoing(q)[q.stage.done..q.stage.done + n]);
    }
  }

  lemma ChunkGateOk(s: State, r: ReqId, n: nat)
    requires GateOk(s) && Enabled(s, WriteChunk(r, n))
    ensures GateOk(Apply(s, WriteChunk(r, n)))
  {
    assert forall k :: Writing(Apply(s, WriteChunk(r, n)), k) <==> Writing(s, k);
  }

  lemma ChunkOwnWireOk(s: State, r: ReqId, n: nat)
    requires Enabled(s, WriteChunk(r, n)) && WireOk(s, r)
    ensures WireOk(Apply(s, WriteChunk(r, n)), r)
  {
    ChunkOwn(s.reqs[r], s.wires[s.reqs[r].conn], n);
  }

  lemma ChunkWireOk(s: State, r: ReqId, n: nat)
    requires WireInv(s) && Enabled(s, WriteChunk(r, n))
    ensures WireInv(Apply(s, WriteChunk(r, n)))
  {
    var t := Apply(s, WriteChunk(r, n));
    ChunkGateOk(s, r, n);
    forall k | k in t.reqs
      ensures WireOk(t, k)
    {
      if k != r { ChunkOther(s, r, n, k); } else { ChunkOwnWireOk(s, r, n); }
    }
  }

  lemma DoneWireOk(s: State, r: ReqId)
    requires WireInv(s) && Enabled(s, WriteDone(r))
    ensures WireInv(Apply(s, WriteDone(r)))
  {
    var t := Apply(s, WriteDone(r));
    var q, p := s.reqs[r], t.reqs[r];
    var wire := s.wires[q.conn];
    var out := Outgoing(q);
    assert out[..|out|] == out;
    assert wire[q.stage.start..] == wire[q.stage.start..q.stage.start + |out|];
    assert RequestWireOk(p, wire);
    assert Writing(s, r);
    assert forall k :: Writing(t, k) <==> Writing(s, k) && k != r;
  }

  lemma LocalWireOk(s: State, e: Event, k: ReqId)
    requires Enabled(s, e) && Local(e) && !e.WriteChunk? && !e.WriteDone?
    requires k in s.reqs && WireOk(s, k)
    ensures k in Apply(s, e).reqs && WireOk(Apply(s, e), k)
  {
    if k == e.r && SameButChannel(s.reqs[k], Apply(s, e).reqs[k]) {
      OwedWireOk(s.reqs[k], Apply(s, e).reqs[k], s.wires[s.reqs[k].conn]);
    }
  }

  lemma OweWireOk(s: State, taken: set<ReqId>, reply: Reply, core: Core, wires: map<ConnId, Bytes>, k: ReqId)
    requires k in s.reqs && WireOk(s, k)
    requires s.reqs[k].conn in wires && wires[s.reqs[k].conn] == s.wires[s.reqs[k].conn]
    ensures WireOk(s.(core := core, reqs := Owe(s.reqs, taken, reply), wires := wires), k)
  {
    OwedWireOk(s.reqs[k], Owe(s.reqs, taken, reply)[k], s.wires[s.reqs[k].conn]);
  }

  lemma SharedWireOk(s: State, e: Event, k: ReqId)
    requires Enabled(s, e) && !Local(e)
    requires k in s.reqs && WireOk(s, k)
    ensures k in Apply(s, e).reqs && WireOk(Apply(s, e), k)
  {
    var t := Apply(s, e);
    match e
    case Execute(_, _, _) =>
    case AdoptConn(c) => OweWireOk(s, s.core.pending, Unavailable, t.core, t.wires, k);
    case ReaderGone(c) => OweWireOk(s, TakenByDisconnect(s.core, c), Unavailable, t.core, t.wires, k);
    case ReadResult(msg) => OweWireOk(s, s.core.pending * {msg.requestId}, ReplyOf(msg), t.core, t.wires, k);
    case FailReturn(r, ctxErr) =>
      OweWireOk(s, TakenByDisconnect(s.core, s.reqs[r].conn), Unavailable, t.core, t.wires, k);
  }

  lemma OtherWireOk(s: State, e: Event)
    requires WireInv(s) && ChannelInv(s) && Enabled(s, e) && !e.WriteChunk? && !e.WriteDone?
    ensures forall k :: k in Apply(s, e).reqs ==> WireOk(Apply(s, e), k)
  {
    forall k | k in Apply(s, e).reqs
      ensures WireOk(Apply(s, e), k)
    {
      if k in s.reqs {
        assert WireOk(s, k);
        if Local(e) { LocalWireOk(s, e, k); } else { SharedWireOk(s, e, k); }
      }
    }
  }

  lemma OtherGateOk(s: State, e: Event)
    requires GateOk(s) && Enabled(s, e) && !e.WriteChunk? && !e.WriteDone?
    ensures GateOk(Apply(s, e))
  {
    var t := Apply(s, e);
    if e.TakeGate? {
      forall k ensures Writing(t, k) <==> k == e.r { assert !Writing(s, k); }
      assert Writing(t, e.r);
    } else if e.WriteFail? {
      assert forall k :: Writing(t, k) <==> Writing(s, k) && k != e.r;
      if IsWriting(s.reqs[e.r].stage) { assert Writing(s, e.r); }
    } else {
      assert forall k :: Writing(t, k) <==> Writing(s, k);
    }
  }

  lemma StepKeepsWires(s: State, e: Event)
    requires WireInv(s) && ChannelInv(s)
    ensures WireInv(Step(s, e))
  {
    if Enabled(s, e) {
      match e
      case WriteChunk(r, n) => ChunkWireOk(s, r, n);
      case WriteDone(r) => DoneWireOk(s, r);
      case _ => OtherWireOk(s, e); OtherGateOk(s, e);
    }
  }

  lemma {:induction false} RunKeepsWires(es: seq<Event>)
    ensures WireInv(Run(es))
  {
    if es != [] {
      RunKeepsWires(es[..|es| - 1]);
      RunKeepsChannels(es[..|es| - 1]);
      StepKeepsWires(Run(es[..|es| - 1]), es[|es| - 1]);
    }
  }
}
