// Frames written by different calls never share bytes.
module BrokerSpans {
  import opened Options
  import opened BrokerModel
  import opened BrokerSafety
  import opened BrokerWire

  // Every finished frame of `q` ends at or before `x`.
  predicate EndsBy(q: Request, x: nat) {
    && (q.deliveredAt.Some? ==> q.deliveredAt.value + |q.frame| <= x)
    && (q.cancelledAt.Some? ==> q.cancelledAt.value + |q.cancel| <= x)
  }

  // No finished frame of `q` meets the bytes from `at` to `end`.
  predicate Clear(q: Request, at: nat, end: nat) {
    && (q.deliveredAt.Some? ==> q.deliveredAt.value + |q.frame| <= at || end <= q.deliveredAt.value)
    && (q.cancelledAt.Some? ==> q.cancelledAt.value + |q.cancel| <= at || end <= q.cancelledAt.value)
  }

  predicate Apart(q: Request, p: Request) {
    && (q.deliveredAt.Some? ==> Clear(p, q.deliveredAt.value, q.deliveredAt.value + |q.frame|))
    && (q.cancelledAt.Some? ==> Clear(p, q.cancelledAt.value, q.cancelledAt.value + |q.cancel|))
  }

  predicate PairOk(q: Request, p: Request) {
    && (IsWriting(q.stage) ==> EndsBy(p, q.stage.start))
    && Apart(q, p)
  }

  ghost predicate SpansInv(s: State) {
    forall r, k :: r in s.reqs && k in s.reqs && r != k && s.reqs[r].conn == s.reqs[k].conn ==> PairOk(s.reqs[r], s.reqs[k])
  }

  // What one event may do to one request, as far as its spans are concerned.
  predicate SpanStep(q: Request, p: Request) {
    && p.conn == q.conn && p.frame == q.frame && p.cancel == q.cancel
    && (q.deliveredAt == p.deliveredAt || (q.stage.Sending? && p.deliveredAt == Some(q.stage.start)))
    && (q.cancelledAt == p.cancelledAt || (q.stage.SendingCancel? && p.cancelledAt == Some(q.stage.start)))
    && (IsWriting(q.stage) && IsWriting(p.stage) ==> p.stage.start == q.stage.start)
  }

  lemma StepSpans(s: State, e: Event, k: ReqId)
    requires k in s.reqs && Enabled(s, e)
    ensures k in Apply(s, e).reqs && SpanStep(s.reqs[k], Apply(s, e).reqs[k])
  {
  }

  lemma WireBoundsSpans(s: State, k: ReqId)
    requires k in s.reqs && WireOk(s, k)
    ensures EndsBy(s.reqs[k], |s.wires[s.reqs[k].conn]|)
  {
  }

  // At most one of two requests changes its finished frames in one event.
  lemma ApartStep(q: Request, p: Request, q': Request, p': Request)
    requires SpanStep(q, q') && SpanStep(p, p')
    requires PairOk(q, p) && PairOk(p, q)
    requires !(IsWriting(q.stage) && IsWriting(p.stage))
    ensures Apart(q', p')
  {
  }

  lemma EndsByStep(s: State, e: Event, r: ReqId, k: ReqId)
    requires GateOk(s) && Enabled(s, e)
    requires r in s.reqs && k in s.reqs && r != k && s.reqs[r].conn == s.reqs[k].conn
    requires WireOk(s, k) && (IsWriting(s.reqs[r].stage) ==> EndsBy(s.reqs[k], s.reqs[r].stage.start))
    requires r in Apply(s, e).reqs && k in Apply(s, e).reqs && IsWriting(Apply(s, e).reqs[r].stage)
    ensures EndsBy(Apply(s, e).reqs[k], Apply(s, e).reqs[r].stage.start)
  {
    StepSpans(s, e, r);
    StepSpans(s, e, k);
    if IsWriting(s.reqs[r].stage) {
      assert Writing(s, r) && (Writing(s, k) ==> k == r);
    } else {
      assert e == TakeGate(r);
      WireBoundsSpans(s, k);
    }
  }

  lemma PairStep(s: State, e: Event, r: ReqId, k: ReqId)
    requires WireInv(s) && SpansInv(s) && Enabled(s, e)
    requires r in s.reqs && k in s.reqs && r != k && s.reqs[r].conn == s.reqs[k].conn
    ensures r in Apply(s, e).reqs && k in Apply(s, e).reqs && PairOk(Apply(s, e).reqs[r], Apply(s, e).reqs[k])
  {
    var t := Apply(s, e);
    StepSpans(s, e, r);
    StepSpans(s, e, k);
    assert PairOk(s.reqs[r], s.reqs[k]) && PairOk(s.reqs[k], s.reqs[r]);
    assert WireOk(s, k);
    assert Writing(s, r) && Writing(s, k) ==> r == k;
    ApartStep(s.reqs[r], s.reqs[k], t.reqs[r], t.reqs[k]);
    if IsWriting(t.reqs[r].stage) { EndsByStep(s, e, r, k); }
  }

  lemma StepKeepsSpans(s: State, e: Event)
    requires ChannelInv(s) && WireInv(s) && SpansInv(s)
    ensures SpansInv(Step(s, e))
  {
    if Enabled(s, e) {
      var t := Step(s, e);
      forall r, k | r in t.reqs && k in t.reqs && r != k && t.reqs[r].conn == t.reqs[k].conn
        ensures PairOk(t.reqs[r], t.reqs[k])
      {
        if r in s.reqs && k in s.reqs {
          StepSpans(s, e, r);
          StepSpans(s, e, k);
          PairStep(s, e, r, k);
        } else if k in s.reqs {
          assert e.Execute? && t.reqs[r].stage.Registered?;
        } else {
          assert e.Execute? && t.reqs[k].stage.Registered?;
        }
      }
    }
  }

  lemma {:induction false} RunKeepsSpans(es: seq<Event>)
    ensures SpansInv(Run(es))
  {
    if es != [] {
      RunKeepsSpans(es[..|es| - 1]);
      RunKeepsChannels(es[..|es| - 1]);
      RunKeepsWires(es[..|es| - 1]);
      StepKeepsSpans(Run(es[..|es| - 1]), es[|es| - 1]);
    }
  }
}
