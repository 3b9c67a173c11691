// The broker's guarantees, stated for every sequence of events.
module BrokerTheorems {
  import opened Options
  import opened BrokerModel
  import opened BrokerSafety
  import opened BrokerWire
  import opened BrokerSpans
  import opened BrokerAnswers

  // A channel gets at most one value, so whoever owes it one can always send.
  lemma SendersNeverBlock(es: seq<Event>, r: ReqId)
    requires r in Run(es).reqs
    ensures var q := Run(es).reqs[r];
      && q.sent + |q.owed| <= 1
      && forall i :: 0 <= i < |q.owed| ==> Enabled(Run(es), Deliver(r, i))
  {
    RunKeepsChannels(es);
    assert ChannelOk(Run(es), r);
  }

  // A call that is still expecting an answer is in exactly one place: in
  // pending, in the debt of the one step that removed it, or answered.
  lemma NoCallIsForgotten(es: seq<Event>, r: ReqId)
    requires r in Run(es).reqs && Expecting(Run(es).reqs[r].stage)
    ensures var s := Run(es); var q := s.reqs[r];
      || (r in s.core.pending && q.owed == [] && q.slot == [])
      || (r !in s.core.pending && |q.owed| == 1 && q.slot == [])
      || (r !in s.core.pending && q.owed == [] && |q.slot| == 1)
  {
    RunKeepsChannels(es);
    assert ChannelOk(Run(es), r);
  }

  // No connection means nothing is pending, and what is pending was registered
  // against the connection that is current now.
  lemma PendingBelongsToCurrent(es: seq<Event>)
    ensures var s := Run(es);
      && (s.core.conn.None? ==> s.core.pending == {})
      && forall r :: r in s.core.pending ==> r in s.reqs && s.core.conn == Some(s.reqs[r].conn)
  {
    RunKeepsChannels(es);
    var s := Run(es);
    forall r | r in s.core.pending
      ensures r in s.reqs && s.core.conn == Some(s.reqs[r].conn)
    {
      assert ChannelOk(s, r);
    }
    if s.core.conn.None? {
      assert forall r :: r !in s.core.pending;
    }
  }

  // Teardown of a connection that is no longer current, whether by its reader or
  // by a call whose write on it failed, drops nothing and fails nobody.
  lemma LateTeardownIsHarmless(es: seq<Event>, e: Event, gone: ConnId)
    requires e == ReaderGone(gone) || (e.FailReturn? && e.r in Run(es).reqs && Run(es).reqs[e.r].conn == gone)
    requires Run(es).core.conn != Some(gone)
    ensures var s := Run(es); var t := Run(es + [e]);
      && t.core == s.core && t.wires == s.wires
      && t.reqs.Keys == s.reqs.Keys
      && forall r :: r in s.reqs && (e.FailReturn? ==> r != e.r) ==> t.reqs[r] == s.reqs[r]
  {
    assert (es + [e])[..|es|] == es;
  }

  // The late end of a replaced connection's reader leaves no trace in anything
  // that happens afterwards.
  lemma {:induction false} LateReaderLeavesNoTrace(es: seq<Event>, gone: ConnId, more: seq<Event>)
    requires Run(es).core.conn != Some(gone)
    ensures Run(es + [ReaderGone(gone)] + more) == Run(es + more)
  {
    var late := es + [ReaderGone(gone)];
    if more == [] {
      assert late[..|es|] == es && late + more == late && es + more == es;
      assert Owe(Run(es).reqs, {}, Unavailable) == Run(es).reqs;
    } else {
      var n := |more| - 1;
      LateReaderLeavesNoTrace(es, gone, more[..n]);
      assert (late + more)[..|late| + n] == late + more[..n];
      assert (es + more)[..|es| + n] == es + more[..n];
    }
  }

  // A call waiting on a lost connection gets its answer: the value is there, or
  // the one debtor's send can go ahead and then the call can return.
  lemma LostConnectionAnswersWaiters(es: seq<Event>, r: ReqId)
    requires r in Run(es).reqs && Run(es).reqs[r].stage.Waiting?
    requires Run(es).core.conn != Some(Run(es).reqs[r].conn)
    ensures Enabled(Run(es), Receive(r)) || Enabled(Run(es + [Deliver(r, 0)]), Receive(r))
  {
    RunKeepsChannels(es);
    assert ChannelOk(Run(es), r);
    assert (es + [Deliver(r, 0)])[..|es|] == es;
  }

  // ---------- answers are not shared between calls ----------

  predicate Holds(q: Request, x: Reply) {
    x in q.owed || x in q.slot || q.stage == Returned(Answered(x))
  }

  // Whatever answer a call has, holds or is owed was settled by one step of the
  // run that took the call out of pending: a result frame with its own request
  // id that stands for that answer, or the loss of the connection it was
  // registered on, and then the answer is "unavailable".
  lemma AnswersAreTheCallsOwn(es: seq<Event>, r: ReqId, x: Reply)
    requires r in Run(es).reqs && Holds(Run(es).reqs[r], x)
    ensures exists i: nat :: Settled(es, i, r, x)
  {
    RunIsTraced(es, r, x);
    var q := Run(es).reqs[r];
    if x in q.slot {
      assert SentBy(es, r, x);
    } else if q.stage == Returned(Answered(x)) {
      assert ReceivedBy(es, r, x);
    }
  }

  // ---------- the gate and the wire ----------

  function Writers(s: State): set<ReqId> {
    set r | r in s.reqs && IsWriting(s.reqs[r].stage)
  }

  lemma OneTokenOrOneWriter(es: seq<Event>)
    ensures Run(es).gate + |Writers(Run(es))| == 1
  {
    RunKeepsWires(es);
    var s := Run(es);
    if w: ReqId :| w in Writers(s) {
      assert Writing(s, w);
      forall r: ReqId ensures r in Writers(s) <==> r == w { assert r in Writers(s) ==> Writing(s, r); }
      assert Writers(s) == {w};
    } else {
      forall r ensures !Writing(s, r) { assert r !in Writers(s); }
      assert Writers(s) == {};
    }
  }

  // Every frame whose write returned nil lies whole on its connection, and no
  // other such frame shares a byte with it.
  lemma FinishedFramesAreWhole(es: seq<Event>, r: ReqId)
    requires r in Run(es).reqs
    ensures var s := Run(es); var q := s.reqs[r];
      && q.conn in s.wires
      && (q.deliveredAt.Some? ==> Whole(s.wires[q.conn], q.deliveredAt.value, q.frame))
      && (q.cancelledAt.Some? ==> Whole(s.wires[q.conn], q.cancelledAt.value, q.cancel))
      && forall k :: k in s.reqs && k != r && s.reqs[k].conn == q.conn ==> Apart(q, s.reqs[k])
  {
    RunKeepsWires(es);
    RunKeepsSpans(es);
    assert WireOk(Run(es), r);
    forall k | k in Run(es).reqs && k != r && Run(es).reqs[k].conn == Run(es).reqs[r].conn
      ensures Apart(Run(es).reqs[r], Run(es).reqs[k])
    {
      assert PairOk(Run(es).reqs[r], Run(es).reqs[k]);
    }
  }

  // A command that was delivered and then cancelled has had its cancel write
  // called, on the same connection and only past the end of the command frame.
  lemma CancelFollowsCommand(es: seq<Event>, r: ReqId)
    requires r in Run(es).reqs
    ensures var s := Run(es); var q := s.reqs[r];
      && (q.stage == Returned(Cancelled) && q.deliveredAt.Some? ==> q.cancelTried)
      && (q.cancelFrom.Some? ==>
            q.deliveredAt.Some? && q.conn in s.wires
            && q.deliveredAt.value + |q.frame| <= q.cancelFrom.value <= |s.wires[q.conn]|)
      && (q.cancelledAt.Some? ==> q.cancelledAt == q.cancelFrom)
  {
    RunKeepsWires(es);
    assert WireOk(Run(es), r);
  }

  // ---------- the whole stream ----------

  datatype Segment = Segment(bytes: Bytes, whole: bool)

  function Flatten(log: seq<Segment>): Bytes {
    if log == [] then [] else Flatten(log[..|log| - 1]) + log[|log| - 1].bytes
  }

  // What one event finishes on connection `c`: a frame, or the accepted prefix
  // of a frame whose write failed.
  function Finished(s: State, e: Event, c: ConnId): seq<Segment> {
    if !Enabled(s, e) || !(e.WriteDone? || e.WriteFail?) || !IsWriting(s.reqs[e.r].stage) || s.reqs[e.r].conn != c then []
    else
      var q := s.reqs[e.r];
      if q.stage.done <= |Outgoing(q)| then [Segment(Outgoing(q)[..q.stage.done], q.stage.done == |Outgoing(q)|)] else []
  }

  function Log(es: seq<Event>, c: ConnId): seq<Segment> {
    if es == [] then [] else Log(es[..|es| - 1], c) + Finished(Run(es[..|es| - 1]), es[|es| - 1], c)
  }

  ghost predicate StreamOk(s: State, c: ConnId, log: seq<Segment>) {
    if c !in s.wires then log == []
    else
      && (forall r :: Writing(s, r) && s.reqs[r].conn == c ==>
            s.reqs[r].stage.start <= |s.wires[c]| && s.wires[c][..s.reqs[r].stage.start] == Flatten(log))
      && ((forall r :: Writing(s, r) ==> s.reqs[r].conn != c) ==> s.wires[c] == Flatten(log))
  }

  lemma FlattenSnoc(log: seq<Segment>, g: Segment)
    ensures Flatten(log + [g]) == Flatten(log) + g.bytes
  {
    assert (log + [g])[..|log|] == log;
  }

  lemma FinishFreesGate(s: State, e: Event)
    requires GateOk(s) && Enabled(s, e) && (e.WriteDone? || e.WriteFail?) && IsWriting(s.reqs[e.r].stage)
    ensures Step(s, e).wires == s.wires
    ensures forall k :: !Writing(Step(s, e), k)
    ensures forall k :: Writing(s, k) <==> k == e.r
  {
    assert Writing(s, e.r);
    forall k ensures !Writing(Step(s, e), k) { assert Writing(Step(s, e), k) ==> Writing(s, k); }
  }

  lemma WireAtFinish(s: State, r: ReqId, c: ConnId, log: seq<Segment>)
    requires StreamOk(s, c, log) && Writing(s, r) && WireOk(s, r) && s.reqs[r].conn == c
    ensures s.reqs[r].stage.done <= |Outgoing(s.reqs[r])|
    ensures s.wires[c] == Flatten(log) + Outgoing(s.reqs[r])[..s.reqs[r].stage.done]
  {
    var at := s.reqs[r].stage.start;
    assert s.wires[c] == s.wires[c][..at] + s.wires[c][at..];
  }

  lemma StreamFinish(s: State, e: Event, c: ConnId, log: seq<Segment>)
    requires WireInv(s) && StreamOk(s, c, log) && Enabled(s, e) && (e.WriteDone? || e.WriteFail?)
    ensures StreamOk(Step(s, e), c, log + Finished(s, e, c))
  {
    var q := s.reqs[e.r];
    assert WireOk(s, e.r);
    assert log + [] == log;
    if !IsWriting(q.stage) {
      FailBeforeGate(s, e, c, log);
    } else {
      FinishFreesGate(s, e);
      if q.conn == c {
        WireAtFinish(s, e.r, c, log);
        FlattenSnoc(log, Segment(Outgoing(q)[..q.stage.done], q.stage.done == |Outgoing(q)|));
      }
    }
  }

  lemma FailBeforeGate(s: State, e: Event, c: ConnId, log: seq<Segment>)
    requires StreamOk(s, c, log) && Enabled(s, e) && e.WriteFail? && !IsWriting(s.reqs[e.r].stage)
    ensures StreamOk(Step(s, e), c, log)
  {
    WritersKept(s, e, c, log);
  }

  // An event that leaves the wires and the writers alone leaves the stream alone.
  lemma WritersKept(s: State, e: Event, c: ConnId, log: seq<Segment>)
    requires StreamOk(s, c, log)
    requires c in s.wires ==> c in Step(s, e).wires && Step(s, e).wires[c] == s.wires[c]
    requires c !in s.wires ==> (c in Step(s, e).wires ==> Step(s, e).wires[c] == [] && forall k :: Writing(s, k) ==> s.reqs[k].conn != c)
    requires forall k :: Writing(s, k) ==> Writing(Step(s, e), k)
    requires forall k :: Writing(Step(s, e), k) ==> Writing(s, k) && Step(s, e).reqs[k].conn == s.reqs[k].conn && Step(s, e).reqs[k].stage == s.reqs[k].stage
    ensures StreamOk(Step(s, e), c, log)
  {
  }

  lemma StreamChunk(s: State, r: ReqId, n: nat, c: ConnId, log: seq<Segment>)
    requires WireInv(s) && StreamOk(s, c, log) && Enabled(s, WriteChunk(r, n))
    ensures StreamOk(Step(s, WriteChunk(r, n)), c, log)
  {
    var t := Step(s, WriteChunk(r, n));
    assert Writing(s, r) && WireOk(s, r) && Writing(t, r);
    forall k ensures Writing(t, k) <==> k == r { assert Writing(t, k) <==> Writing(s, k); }
    forall k ensures Writing(s, k) <==> k == r {}
    if s.reqs[r].conn == c {
      var at := s.reqs[r].stage.start;
      assert t.wires[c][..at] == s.wires[c][..at];
    }
  }

  lemma StreamTake(s: State, r: ReqId, c: ConnId, log: seq<Segment>)
    requires WireInv(s) && StreamOk(s, c, log) && Enabled(s, TakeGate(r))
    ensures StreamOk(Step(s, TakeGate(r)), c, log)
  {
    var t := Step(s, TakeGate(r));
    forall k ensures Writing(t, k) <==> k == r { assert !Writing(s, k); }
    assert Writing(t, r);
    if c in s.wires { assert s.wires[c][..|s.wires[c]|] == s.wires[c]; }
  }

  lemma OtherWriter(s: State, e: Event, k: ReqId)
    requires Enabled(s, e) && !e.WriteDone? && !e.WriteFail? && !e.WriteChunk? && !e.TakeGate?
    ensures Writing(Step(s, e), k) <==> Writing(s, k)
    ensures Writing(s, k) ==> Step(s, e).reqs[k].conn == s.reqs[k].conn && Step(s, e).reqs[k].stage == s.reqs[k].stage
  {
  }

  lemma OtherWires(s: State, e: Event, c: ConnId)
    requires Enabled(s, e) && !e.WriteDone? && !e.WriteFail? && !e.WriteChunk? && !e.TakeGate?
    ensures c in s.wires ==> c in Step(s, e).wires && Step(s, e).wires[c] == s.wires[c]
    ensures c !in s.wires && c in Step(s, e).wires ==> Step(s, e).wires[c] == []
  {
  }

  lemma StreamOther(s: State, e: Event, c: ConnId, log: seq<Segment>)
    requires WireInv(s) && StreamOk(s, c, log) && Enabled(s, e)
    requires !e.WriteDone? && !e.WriteFail? && !e.WriteChunk? && !e.TakeGate?
    ensures StreamOk(Step(s, e), c, log)
  {
    forall k | Writing(s, k) ensures s.reqs[k].conn in s.wires { assert WireOk(s, k); }
    forall k
      ensures Writing(Step(s, e), k) <==> Writing(s, k)
      ensures Writing(s, k) ==> Step(s, e).reqs[k].conn == s.reqs[k].conn && Step(s, e).reqs[k].stage == s.reqs[k].stage
    {
      OtherWriter(s, e, k);
    }
    OtherWires(s, e, c);
    WritersKept(s, e, c, log);
  }

  // The bytes on a connection are exactly the finished segments in order,
  // followed by what the active writer has handed over so far.
  lemma {:induction false} StreamIsItsLog(es: seq<Event>, c: ConnId)
    ensures StreamOk(Run(es), c, Log(es, c))
  {
    if es != [] {
      var front, e := es[..|es| - 1], es[|es| - 1];
      var s := Run(front);
      StreamIsItsLog(front, c);
      RunKeepsWires(front);
      assert Log(front, c) + [] == Log(front, c);
      if Enabled(s, e) {
        if e.WriteDone? || e.WriteFail? { StreamFinish(s, e, c, Log(front, c)); }
        else if e.WriteChunk? { StreamChunk(s, e.r, e.n, c, Log(front, c)); }
        else if e.TakeGate? { StreamTake(s, e.r, c, Log(front, c)); }
        else { StreamOther(s, e, c, Log(front, c)); }
      }
    }
  }

  lemma RunAndLogSnoc(es: seq<Event>, e: Event, c: ConnId)
    ensures Run(es + [e]) == Step(Run(es), e)
    ensures Log(es + [e], c) == Log(es, c) + Finished(Run(es), e, c)
  {
    assert (es + [e])[..|es|] == es;
  }

  // The three steps of a failing command write, on states alone.
  lemma TornSteps(s: State, r: ReqId, ctxErr: bool)
    requires r in s.reqs && s.reqs[r].stage.Sending? && GateOk(s)
    requires s.reqs[r].stage.done < |s.reqs[r].frame| && s.core.conn == Some(s.reqs[r].conn)
    ensures var q := s.reqs[r];
            var s1 := Step(s, WriteFail(r)); var s2 := Step(s1, RemovePending(r)); var s3 := Step(s2, FailReturn(r, ctxErr));
      && Finished(s, WriteFail(r), q.conn) == [Segment(q.frame[..q.stage.done], false)]
      && Finished(s1, RemovePending(r), q.conn) == []
      && Finished(s2, FailReturn(r, ctxErr), q.conn) == []
      && (s3.core.conn == Some(q.conn) <==> ctxErr)
      && s3.gate == 1
  {
    assert Writing(s, r);
    var s1 := Step(s, WriteFail(r));
    assert s1.reqs[r].stage == SendFailed && s1.core == s.core && s1.gate == 1;
    var s2 := Step(s1, RemovePending(r));
    assert s2.reqs[r].stage == Withdrawn && s2.core.conn == s.core.conn && s2.gate == 1;
  }

  // A command write that fails half-way leaves a torn frame in the stream for
  // good.  The connection carrying it stays current, ready for the next command,
  // exactly when the call's own context had ended.
  lemma TornFrameKeepsConnection(es: seq<Event>, r: ReqId, ctxErr: bool, es1: seq<Event>, es2: seq<Event>, es3: seq<Event>)
    requires r in Run(es).reqs && Run(es).reqs[r].stage.Sending?
    requires var q := Run(es).reqs[r]; q.stage.done < |q.frame| && Run(es).core.conn == Some(q.conn)
    requires es1 == es + [WriteFail(r)] && es2 == es1 + [RemovePending(r)] && es3 == es2 + [FailReturn(r, ctxErr)]
    ensures var q := Run(es).reqs[r];
      && Log(es3, q.conn) == Log(es, q.conn) + [Segment(q.frame[..q.stage.done], false)]
      && (Run(es3).core.conn == Some(q.conn) <==> ctxErr)
      && Run(es3).gate == 1
  {
    RunKeepsWires(es);
    var c := Run(es).reqs[r].conn;
    TornSteps(Run(es), r, ctxErr);
    RunAndLogSnoc(es, WriteFail(r), c);
    RunAndLogSnoc(es1, RemovePending(r), c);
    RunAndLogSnoc(es2, FailReturn(r, ctxErr), c);
  }
}
