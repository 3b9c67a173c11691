// What an Execute call returns, told by the events of the run.
module BrokerAnswers {
  import opened Options
  import opened BrokerModel
  import opened BrokerSafety

  // The reply a result frame stands for, written out.
  predicate Spells(msg: ResultMessage, x: Reply) {
    && (!msg.ok && msg.error.Some? ==> x == Failed(msg.error.value))
    && (!msg.ok && msg.error.None? ==> x == Failed(CommandError("BROWSER_COMMAND_FAILED", "Browser command failed")))
    && (msg.ok && msg.body.Absent? ==> x == Value("{}"))
    && (msg.ok && msg.body.Malformed? ==> x == Undecodable)
    && (msg.ok && msg.body.Json? ==> x == Value(msg.body.text))
  }

  // In state `s` event `e` takes request `r` out of pending and owes it `x`.
  predicate Settles(s: State, e: Event, r: ReqId, x: Reply) {
    && r in s.core.pending
    && match e
       case ReadResult(msg) => msg.requestId == r && Spells(msg, x)
       case AdoptConn(c) => c !in s.wires && x == Unavailable
       case ReaderGone(c) => s.core.conn == Some(c) && x == Unavailable
       case FailReturn(k, ctxErr) =>
         && k in s.reqs && s.reqs[k].stage.Withdrawn? && !ctxErr
         && s.core.conn == Some(s.reqs[k].conn) && x == Unavailable
       case _ => false
  }

  ghost predicate Settled(es: seq<Event>, i: nat, r: ReqId, x: Reply) {
    i < |es| && Settles(Run(es[..i]), es[i], r, x)
  }

  // Event j puts x on the channel, the one value owed.
  ghost predicate Sent(es: seq<Event>, j: nat, r: ReqId, x: Reply) {
    && j < |es| && es[j] == Deliver(r, 0)
    && (var s := Run(es[..j]); r in s.reqs && s.reqs[r].owed == [x] && s.reqs[r].slot == [])
  }

  ghost predicate Received(es: seq<Event>, k: nat, r: ReqId, x: Reply) {
    && k < |es| && es[k] == Receive(r)
    && (var s := Run(es[..k]); r in s.reqs && s.reqs[r].stage.Waiting? && s.reqs[r].slot == [x])
  }

  ghost predicate OwedBy(es: seq<Event>, r: ReqId, x: Reply) {
    exists i: nat :: Settled(es, i, r, x)
  }

  ghost predicate SentBy(es: seq<Event>, r: ReqId, x: Reply) {
    exists i: nat, j: nat :: i < j && Settled(es, i, r, x) && Sent(es, j, r, x)
  }

  ghost predicate ReceivedBy(es: seq<Event>, r: ReqId, x: Reply) {
    exists i: nat, j: nat, k: nat :: i < j < k && Settled(es, i, r, x) && Sent(es, j, r, x) && Received(es, k, r, x)
  }

  lemma RunSnoc(es: seq<Event>, e: Event)
    ensures Run(es + [e]) == Step(Run(es), e)
  {
    assert (es + [e])[..|es|] == es;
  }

  lemma Earlier(es: seq<Event>, e: Event, i: nat, r: ReqId, x: Reply)
    requires i < |es|
    ensures Settled(es + [e], i, r, x) <==> Settled(es, i, r, x)
    ensures Sent(es + [e], i, r, x) <==> Sent(es, i, r, x)
    ensures Received(es + [e], i, r, x) <==> Received(es, i, r, x)
  {
    assert (es + [e])[..i] == es[..i];
  }

  // ---------- what a step adds to a debt, a slot or an outcome ----------

  predicate TakesPending(e: Event) {
    e.AdoptConn? || e.ReaderGone? || e.ReadResult? || e.FailReturn?
  }

  // Events that move request r itself.
  predicate Moves(e: Event, r: ReqId) {
    (Local(e) || e.FailReturn?) && e.r == r
  }

  lemma OwedFrame(s: State, e: Event, r: ReqId)
    requires r in Step(s, e).reqs && !TakesPending(e) && !(e.Deliver? && e.r == r)
    ensures Step(s, e).reqs[r].owed == if r in s.reqs then s.reqs[r].owed else []
  {}

  lemma StageFrame(s: State, e: Event, r: ReqId)
    requires r in s.reqs && !Moves(e, r)
    ensures r in Step(s, e).reqs && Step(s, e).reqs[r].stage == s.reqs[r].stage
  {}

  lemma TakingOwes(s: State, e: Event, r: ReqId, x: Reply)
    requires TakesPending(e) && r in Step(s, e).reqs && x in Step(s, e).reqs[r].owed
    ensures (r in s.reqs && x in s.reqs[r].owed) || Settles(s, e, r, x)
  {}

  // A send only takes from the debt.
  lemma SendingTakes(s: State, r: ReqId, i: nat, x: Reply)
    requires Enabled(s, Deliver(r, i)) && x in Apply(s, Deliver(r, i)).reqs[r].owed
    ensures x in s.reqs[r].owed
  {}

  lemma StepOwes(s: State, e: Event, r: ReqId, x: Reply)
    requires ChannelInv(s)
    requires r in Step(s, e).reqs && x in Step(s, e).reqs[r].owed
    ensures (r in s.reqs && x in s.reqs[r].owed) || Settles(s, e, r, x)
  {
    if TakesPending(e) {
      TakingOwes(s, e, r, x);
    } else if e.Deliver? && e.r == r {
      if Enabled(s, e) { SendingTakes(s, r, e.i, x); }
    } else {
      OwedFrame(s, e, r);
    }
  }

  lemma SlotFrame(s: State, e: Event, r: ReqId)
    requires r in Step(s, e).reqs && !((e.Deliver? || e.Receive?) && e.r == r)
    ensures Step(s, e).reqs[r].slot == if r in s.reqs then s.reqs[r].slot else []
  {}

  lemma StepFills(s: State, e: Event, r: ReqId, x: Reply)
    requires ChannelInv(s)
    requires r in Step(s, e).reqs && x in Step(s, e).reqs[r].slot
    ensures || (r in s.reqs && x in s.reqs[r].slot)
            || (e == Deliver(r, 0) && r in s.reqs && s.reqs[r].owed == [x] && s.reqs[r].slot == [])
  {
    if (e.Deliver? || e.Receive?) && e.r == r {
      if Enabled(s, e) { assert ChannelOk(s, r); }
    } else {
      SlotFrame(s, e, r);
    }
  }

  lemma StepAnswers(s: State, e: Event, r: ReqId, x: Reply)
    requires ChannelInv(s)
    requires r in Step(s, e).reqs && Step(s, e).reqs[r].stage == Returned(Answered(x))
    ensures || (r in s.reqs && s.reqs[r].stage == Returned(Answered(x)))
            || (e == Receive(r) && r in s.reqs && s.reqs[r].stage.Waiting? && s.reqs[r].slot == [x])
  {
    if r in s.reqs {
      assert ChannelOk(s, r);
      if !Moves(e, r) { StageFrame(s, e, r); }
    }
  }

  ghost predicate Traced(es: seq<Event>, r: ReqId, x: Reply) {
    var s := Run(es);
    r in s.reqs ==>
      && (x in s.reqs[r].owed ==> OwedBy(es, r, x))
      && (x in s.reqs[r].slot ==> SentBy(es, r, x))
      && (s.reqs[r].stage == Returned(Answered(x)) ==> ReceivedBy(es, r, x))
  }

  lemma OwedSnoc(es: seq<Event>, e: Event, r: ReqId, x: Reply)
    requires ChannelInv(Run(es)) && Traced(es, r, x)
    requires r in Step(Run(es), e).reqs && x in Step(Run(es), e).reqs[r].owed
    ensures OwedBy(es + [e], r, x)
  {
    StepOwes(Run(es), e, r, x);
    if Settles(Run(es), e, r, x) {
      assert (es + [e])[..|es|] == es;
      assert Settled(es + [e], |es|, r, x);
    } else {
      var i: nat :| Settled(es, i, r, x);
      Earlier(es, e, i, r, x);
    }
  }

  lemma SlotSnoc(es: seq<Event>, e: Event, r: ReqId, x: Reply)
    requires ChannelInv(Run(es)) && Traced(es, r, x)
    requires r in Step(Run(es), e).reqs && x in Step(Run(es), e).reqs[r].slot
    ensures SentBy(es + [e], r, x)
  {
    var s := Run(es);
    StepFills(s, e, r, x);
    if r in s.reqs && x in s.reqs[r].slot {
      var i: nat, j: nat :| i < j && Settled(es, i, r, x) && Sent(es, j, r, x);
      Earlier(es, e, i, r, x);
      Earlier(es, e, j, r, x);
    } else {
      var i: nat :| Settled(es, i, r, x);
      Earlier(es, e, i, r, x);
      assert (es + [e])[..|es|] == es;
      assert Sent(es + [e], |es|, r, x);
    }
  }

  lemma AnswerSnoc(es: seq<Event>, e: Event, r: ReqId, x: Reply)
    requires ChannelInv(Run(es)) && Traced(es, r, x)
    requires r in Step(Run(es), e).reqs && Step(Run(es), e).reqs[r].stage == Returned(Answered(x))
    ensures ReceivedBy(es + [e], r, x)
  {
    var s := Run(es);
    StepAnswers(s, e, r, x);
    if r in s.reqs && s.reqs[r].stage == Returned(Answered(x)) {
      var i: nat, j: nat, k: nat :| i < j < k && Settled(es, i, r, x) && Sent(es, j, r, x) && Received(es, k, r, x);
      Earlier(es, e, i, r, x);
      Earlier(es, e, j, r, x);
      Earlier(es, e, k, r, x);
    } else {
      var i: nat, j: nat :| i < j && Settled(es, i, r, x) && Sent(es, j, r, x);
      Earlier(es, e, i, r, x);
      Earlier(es, e, j, r, x);
      assert (es + [e])[..|es|] == es;
      assert Received(es + [e], |es|, r, x);
    }
  }

  lemma TracedSnoc(es: seq<Event>, e: Event, r: ReqId, x: Reply)
    requires ChannelInv(Run(es)) && Traced(es, r, x)
    ensures Traced(es + [e], r, x)
  {
    RunSnoc(es, e);
    if r in Step(Run(es), e).reqs {
      var q := Step(Run(es), e).reqs[r];
      if x in q.owed { OwedSnoc(es, e, r, x); }
      if x in q.slot { SlotSnoc(es, e, r, x); }
      if q.stage == Returned(Answered(x)) { AnswerSnoc(es, e, r, x); }
    }
  }

  lemma {:induction false} RunIsTraced(es: seq<Event>, r: ReqId, x: Reply)
    ensures Traced(es, r, x)
  {
    if es != [] {
      var front := es[..|es| - 1];
      RunIsTraced(front, r, x);
      RunKeepsChannels(front);
      TracedSnoc(front, es[|es| - 1], r, x);
      assert es == front + [es[|es| - 1]];
    }
  }

  // An answered call returned exactly what one Deliver put on its channel, and
  // that is what the step that took the call out of pending stands for: the
  // decoded frame that carried its id, or "unavailable" from a replaced, lost or
  // torn-down connection.
  lemma AnswerHistory(es: seq<Event>, r: ReqId, x: Reply)
    requires r in Run(es).reqs && Run(es).reqs[r].stage == Returned(Answered(x))
    ensures exists i: nat, j: nat, k: nat ::
      i < j < k && Settled(es, i, r, x) && Sent(es, j, r, x) && Received(es, k, r, x)
  {
    RunIsTraced(es, r, x);
  }

  // ---------- the first settlement decides ----------

  // Whatever the call still gets or has got is x.
  ghost predicate Only(s: State, r: ReqId, x: Reply) {
    && r in s.reqs && r !in s.core.pending
    && (forall y :: y in s.reqs[r].owed || y in s.reqs[r].slot ==> y == x)
    && (s.reqs[r].stage.Returned? && s.reqs[r].stage.outcome.Answered? ==> s.reqs[r].stage.outcome.reply == x)
  }

  lemma StepKeepsOnly(s: State, e: Event, r: ReqId, x: Reply)
    requires ChannelInv(s) && Only(s, r, x)
    ensures Only(Step(s, e), r, x)
  {
    var t := Step(s, e);
    assert r in t.reqs && r !in t.core.pending;
    forall y | y in t.reqs[r].owed ensures y == x { StepOwes(s, e, r, y); }
    forall y | y in t.reqs[r].slot ensures y == x { StepFills(s, e, r, y); }
    if t.reqs[r].stage.Returned? && t.reqs[r].stage.outcome.Answered? {
      var y := t.reqs[r].stage.outcome.reply;
      StepAnswers(s, e, r, y);
      assert s.reqs[r].slot == [y] ==> y in s.reqs[r].slot;
    }
  }

  lemma {:induction false} RunKeepsOnly(es: seq<Event>, more: seq<Event>, r: ReqId, x: Reply)
    requires Only(Run(es), r, x)
    ensures Only(Run(es + more), r, x)
  {
    if more == [] {
      assert es + more == es;
    } else {
      var front, last := more[..|more| - 1], more[|more| - 1];
      RunKeepsOnly(es, front, r, x);
      RunKeepsChannels(es + front);
      StepKeepsOnly(Run(es + front), last, r, x);
      RunSnoc(es + front, last);
      assert es + more == es + front + [last];
    }
  }

  // An answered call has taken its one value off the channel.
  predicate AnsweredOnce(s: State) {
    forall r :: r in s.reqs && s.reqs[r].stage.Returned? && s.reqs[r].stage.outcome.Answered? ==>
      s.reqs[r].sent == 1 && s.reqs[r].slot == []
  }

  lemma StepAnswersOnce(s: State, e: Event)
    requires ChannelInv(s) && AnsweredOnce(s)
    ensures AnsweredOnce(Step(s, e))
  {
    var t := Step(s, e);
    forall r | r in t.reqs && t.reqs[r].stage.Returned? && t.reqs[r].stage.outcome.Answered?
      ensures t.reqs[r].sent == 1 && t.reqs[r].slot == []
    {
      if r in s.reqs {
        assert ChannelOk(s, r);
        if !((e.Deliver? || e.Receive?) && e.r == r) { SlotFrame(s, e, r); }
      }
    }
  }

  lemma {:induction false} RunAnswersOnce(es: seq<Event>)
    ensures AnsweredOnce(Run(es))
  {
    if es != [] {
      RunAnswersOnce(es[..|es| - 1]);
      RunKeepsChannels(es[..|es| - 1]);
      StepAnswersOnce(Run(es[..|es| - 1]), es[|es| - 1]);
    }
  }

  lemma SettlingOwes(s: State, e: Event, r: ReqId, x: Reply)
    requires ChannelInv(s) && AnsweredOnce(s) && Settles(s, e, r, x) && Enabled(s, e)
    ensures Step(s, e).reqs.Keys == s.reqs.Keys
    ensures Step(s, e).reqs[r].owed == [x] && Step(s, e).reqs[r].slot == []
    ensures Step(s, e).reqs[r].stage == s.reqs[r].stage || (e.FailReturn? && e.r == r)
    ensures Only(Step(s, e), r, x)
  {
    assert ChannelOk(s, r);
  }

  // Once a step has taken a call out of pending, everything that can happen
  // afterwards leaves it with that reply and no other.
  lemma FirstSettlementDecides(es: seq<Event>, e: Event, more: seq<Event>, r: ReqId, x: Reply)
    requires Settles(Run(es), e, r, x) && Enabled(Run(es), e)
    ensures Only(Run(es + [e] + more), r, x)
  {
    RunKeepsChannels(es);
    RunAnswersOnce(es);
    SettlingOwes(Run(es), e, r, x);
    RunSnoc(es, e);
    RunKeepsOnly(es + [e], more, r, x);
  }

  // A waiting call whose result frame, or whose connection's end, is processed
  // returns that reply when the send and the receive follow.
  lemma SettledCallReturns(es: seq<Event>, e: Event, r: ReqId, x: Reply)
    requires Settles(Run(es), e, r, x) && Enabled(Run(es), e) && r in Run(es).reqs && Run(es).reqs[r].stage.Waiting?
    ensures var t := Run(es + [e] + [Deliver(r, 0)] + [Receive(r)]);
      r in t.reqs && t.reqs[r].stage == Returned(Answered(x))
  {
    RunKeepsChannels(es);
    RunAnswersOnce(es);
    SettlingOwes(Run(es), e, r, x);
    RunSnoc(es, e);
    RunSnoc(es + [e], Deliver(r, 0));
    RunSnoc(es + [e] + [Deliver(r, 0)], Receive(r));
    OwedIsReturned(Run(es + [e]), r, x);
  }

  lemma OwedIsReturned(s: State, r: ReqId, x: Reply)
    requires r in s.reqs && s.reqs[r].stage.Waiting? && s.reqs[r].owed == [x] && s.reqs[r].slot == []
    ensures var t := Step(Step(s, Deliver(r, 0)), Receive(r));
      r in t.reqs && t.reqs[r].stage == Returned(Answered(x))
  {
    assert Step(s, Deliver(r, 0)).reqs[r].slot == [x];
  }

  // The five kinds of result frame, one by one.
  lemma ResultFrameIsReturned(es: seq<Event>, r: ReqId, text: string, error: CommandError)
    requires r in Run(es).core.pending && r in Run(es).reqs && Run(es).reqs[r].stage.Waiting?
    ensures AnsweredAfter(es, ResultMessage(r, true, None, Json(text)), Value(text))
    ensures AnsweredAfter(es, ResultMessage(r, true, None, Absent), Value("{}"))
    ensures AnsweredAfter(es, ResultMessage(r, true, None, Malformed), Undecodable)
    ensures AnsweredAfter(es, ResultMessage(r, false, Some(error), Absent), Failed(error))
    ensures AnsweredAfter(es, ResultMessage(r, false, None, Absent),
                          Failed(CommandError("BROWSER_COMMAND_FAILED", "Browser command failed")))
  {
    FrameAnswers(es, ResultMessage(r, true, None, Json(text)), Value(text));
    FrameAnswers(es, ResultMessage(r, true, None, Absent), Value("{}"));
    FrameAnswers(es, ResultMessage(r, true, None, Malformed), Undecodable);
    FrameAnswers(es, ResultMessage(r, false, Some(error), Absent), Failed(error));
    FrameAnswers(es, ResultMessage(r, false, None, Absent),
                 Failed(CommandError("BROWSER_COMMAND_FAILED", "Browser command failed")));
  }

  predicate AnsweredAfter(es: seq<Event>, msg: ResultMessage, x: Reply) {
    var r := msg.requestId;
    var t := Run(es + [ReadResult(msg)] + [Deliver(r, 0)] + [Receive(r)]);
    r in t.reqs && t.reqs[r].stage == Returned(Answered(x))
  }

  lemma FrameAnswers(es: seq<Event>, msg: ResultMessage, x: Reply)
    requires msg.requestId in Run(es).core.pending && msg.requestId in Run(es).reqs
    requires Run(es).reqs[msg.requestId].stage.Waiting? && Spells(msg, x)
    ensures AnsweredAfter(es, msg, x)
  {
    SettledCallReturns(es, ReadResult(msg), msg.requestId, x);
  }

  // ---------- the call itself ----------

  ghost predicate MadeAt(es: seq<Event>, i: nat, r: ReqId, q: Request) {
    i < |es| && es[i] == Execute(r, q.frame, q.cancel) && Run(es[..i]).core.conn == Some(q.conn)
  }

  lemma StepKeepsCall(s: State, e: Event, r: ReqId)
    requires r in Step(s, e).reqs
    ensures var q := Step(s, e).reqs[r];
      if r in s.reqs then q.frame == s.reqs[r].frame && q.cancel == s.reqs[r].cancel && q.conn == s.reqs[r].conn
      else e == Execute(r, q.frame, q.cancel) && s.core.conn == Some(q.conn)
  {}

  // The frames a call writes are the caller's, and it writes them to the
  // connection that was current when the call was made.
  lemma {:induction false} CallsAreAsMade(es: seq<Event>, r: ReqId)
    requires r in Run(es).reqs
    ensures exists i: nat :: MadeAt(es, i, r, Run(es).reqs[r])
  {
    if es != [] {
      var front, e := es[..|es| - 1], es[|es| - 1];
      StepKeepsCall(Run(front), e, r);
      if r in Run(front).reqs {
        CallsAreAsMade(front, r);
        var i: nat :| MadeAt(front, i, r, Run(front).reqs[r]);
        assert front[..i] == es[..i];
        assert MadeAt(es, i, r, Run(es).reqs[r]);
      } else {
        assert MadeAt(es, |es| - 1, r, Run(es).reqs[r]);
      }
    }
  }

  // ---------- the other outcomes ----------

  ghost predicate HappenedAt(es: seq<Event>, i: nat, e: Event) {
    i < |es| && es[i] == e && Enabled(Run(es[..i]), e)
  }

  ghost predicate Happened(es: seq<Event>, e: Event) {
    exists i: nat :: HappenedAt(es, i, e)
  }

  lemma HappenedEarlier(es: seq<Event>, e: Event, x: Event, i: nat)
    requires i < |es|
    ensures HappenedAt(es + [e], i, x) <==> HappenedAt(es, i, x)
  {
    assert (es + [e])[..i] == es[..i];
  }

  lemma HappenedSnoc(es: seq<Event>, e: Event, x: Event)
    ensures Happened(es + [e], x) <==> Happened(es, x) || (e == x && Enabled(Run(es), x))
  {
    var all := es + [e];
    assert all[..|es|] == es;
    assert HappenedAt(all, |es|, x) <==> e == x && Enabled(Run(es), x);
    if i: nat :| HappenedAt(all, i, x) {
      if i < |es| { HappenedEarlier(es, e, x, i); }
    }
    if i: nat :| HappenedAt(es, i, x) {
      HappenedEarlier(es, e, x, i);
    }
  }

  // Pending holds only calls that still expect an answer: a call that has
  // withdrawn, been cancelled or returned has left nothing behind.
  predicate NoLeak(s: State) {
    forall r :: r in s.core.pending ==> r in s.reqs && Expecting(s.reqs[r].stage)
  }

  lemma OwnStepExpects(s: State, e: Event, r: ReqId)
    requires ChannelInv(s) && Moves(e, r) && r in s.core.pending && Expecting(s.reqs[r].stage)
    ensures r in Step(s, e).reqs && (r in Step(s, e).core.pending ==> Expecting(Step(s, e).reqs[r].stage))
  {
    assert ChannelOk(s, r);
  }

  lemma StepKeepsNoLeak(s: State, e: Event)
    requires ChannelInv(s) && NoLeak(s)
    ensures NoLeak(Step(s, e))
  {
    var t := Step(s, e);
    forall r | r in t.core.pending
      ensures r in t.reqs && Expecting(t.reqs[r].stage)
    {
      if r in s.core.pending {
        assert ChannelOk(s, r);
        if Moves(e, r) { OwnStepExpects(s, e, r); } else { StageFrame(s, e, r); }
      }
    }
  }

  lemma {:induction false} PendingStillExpects(es: seq<Event>)
    ensures NoLeak(Run(es))
  {
    if es != [] {
      PendingStillExpects(es[..|es| - 1]);
      RunKeepsChannels(es[..|es| - 1]);
      StepKeepsNoLeak(Run(es[..|es| - 1]), es[|es| - 1]);
    }
  }

  predicate Cancelling(stage: Stage) {
    stage.CancelChosen? || stage.CancelReady? || stage.SendingCancel?
  }

  // A call fails as "unavailable" exactly if its own write failed while its
  // context was live, and reports its context's end exactly if that write failed
  // after it or the wait chose it.
  ghost predicate OutcomeOk(es: seq<Event>, r: ReqId) {
    var s := Run(es);
    if r !in s.reqs then !Happened(es, FailReturn(r, true)) && !Happened(es, FailReturn(r, false)) && !Happened(es, CtxDone(r))
    else
      var stage := s.reqs[r].stage;
      && (stage == Returned(NoRuntime) <==> Happened(es, FailReturn(r, false)))
      && (stage == Returned(Cancelled) || Cancelling(stage) <==> Happened(es, FailReturn(r, true)) || Happened(es, CtxDone(r)))
  }

  lemma OwnStepOutcome(s: State, e: Event, r: ReqId)
    requires r in s.reqs && Moves(e, r) && r in Step(s, e).reqs
    ensures var a, b := s.reqs[r].stage, Step(s, e).reqs[r].stage;
      b == Returned(NoRuntime) <==> a == Returned(NoRuntime) || (e == FailReturn(r, false) && Enabled(s, e))
  {}

  lemma OwnStepCancels(s: State, e: Event, r: ReqId)
    requires r in s.reqs && Moves(e, r) && r in Step(s, e).reqs
    ensures var a, b := s.reqs[r].stage, Step(s, e).reqs[r].stage;
      b == Returned(Cancelled) || Cancelling(b) <==>
        a == Returned(Cancelled) || Cancelling(a) || ((e == FailReturn(r, true) || e == CtxDone(r)) && Enabled(s, e))
  {}

  lemma StepOutcome(s: State, e: Event, r: ReqId)
    requires r in s.reqs
    ensures r in Step(s, e).reqs
    ensures var a, b := s.reqs[r].stage, Step(s, e).reqs[r].stage;
      && (b == Returned(NoRuntime) <==> a == Returned(NoRuntime) || (e == FailReturn(r, false) && Enabled(s, e)))
      && (b == Returned(Cancelled) || Cancelling(b) <==>
            a == Returned(Cancelled) || Cancelling(a) || ((e == FailReturn(r, true) || e == CtxDone(r)) && Enabled(s, e)))
  {
    if Moves(e, r) {
      OwnStepOutcome(s, e, r);
      OwnStepCancels(s, e, r);
    } else {
      StageFrame(s, e, r);
    }
  }

  lemma NewcomerHasNoOutcome(s: State, e: Event, r: ReqId)
    requires r !in s.reqs && r in Step(s, e).reqs
    ensures Step(s, e).reqs[r].stage.Registered? && e.Execute?
  {}

  lemma OutcomeSnoc(es: seq<Event>, e: Event, r: ReqId)
    requires OutcomeOk(es, r)
    ensures OutcomeOk(es + [e], r)
  {
    RunSnoc(es, e);
    HappenedSnoc(es, e, FailReturn(r, true));
    HappenedSnoc(es, e, FailReturn(r, false));
    HappenedSnoc(es, e, CtxDone(r));
    if r in Run(es).reqs {
      StepOutcome(Run(es), e, r);
      assert r in Step(Run(es), e).reqs;
    } else if r in Step(Run(es), e).reqs {
      NewcomerHasNoOutcome(Run(es), e, r);
    }
  }

  lemma {:induction false} OutcomeHistory(es: seq<Event>, r: ReqId)
    ensures OutcomeOk(es, r)
  {
    if es != [] {
      OutcomeHistory(es[..|es| - 1], r);
      OutcomeSnoc(es[..|es| - 1], es[|es| - 1], r);
      assert es == es[..|es| - 1] + [es[|es| - 1]];
    }
  }
}
