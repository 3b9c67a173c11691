// What calls, exits, errors and timers of the supervisor do, told by events.
module SupervisorCalls {
  import opened Options
  import opened SupervisorModel
  import opened SupervisorSafety
  import opened SupervisorTheorems

  ghost predicate HappenedAt(es: seq<Event>, i: nat, e: Event) {
    i < |es| && es[i] == e && Enabled(Run(es[..i]), e)
  }

  ghost predicate Happened(es: seq<Event>, e: Event) {
    exists i: nat :: HappenedAt(es, i, e)
  }

  lemma HappenedEarlier(es: seq<Event>, e: Event, x: Event, i: nat)
    requires i < |es|
    ensures HappenedAt(es + [e], i, x) <==> HappenedAt(es, i, x)
  {
    assert (es + [e])[..i] == es[..i];
  }

  lemma HappenedSnoc(es: seq<Event>, e: Event, x: Event)
    ensures Happened(es + [e], x) <==> Happened(es, x) || (e == x && Enabled(Run(es), x))
  {
    var all := es + [e];
    assert all[..|es|] == es;
    assert HappenedAt(all, |es|, x) <==> e == x && Enabled(Run(es), x);
    if i: nat :| HappenedAt(all, i, x) {
      if i < |es| { HappenedEarlier(es, e, x, i); }
    }
    if i: nat :| HappenedAt(es, i, x) {
      HappenedEarlier(es, e, x, i);
    }
  }

  // With no child held and no start in flight, a start call, and a restart call
  // alike, begins one new start of the current epoch; with either, a start call
  // begins none.
  lemma StartBegins(es: seq<Event>, e: Event)
    requires e == StartCall || (e == RestartCall && Run(es).daemonProcess.None?)
    ensures var s, t := Run(es), Run(es + [e]);
      && (s.daemonProcess.None? && s.startPromise.None? <==> t.starts == s.starts + [Start(s.epoch, ShellEnv)])
      && (t.starts == s.starts || |t.starts| == |s.starts| + 1)
      && (s.daemonProcess.None? ==> t.startPromise.Some?)
      && t.epoch == s.epoch && t.daemonProcess == s.daemonProcess
  {
    RunSnoc(Init(), es, e);
  }

  // A child that exited or failed is not held any more and not being stopped if
  // it was held; a held child of another start stays held.
  lemma GoneChildIsNotHeld(es: seq<Event>, e: Event, c: Child)
    requires (e == Exit(c) || e == ChildError(c)) && Enabled(Run(es), e)
    ensures var s, t := Run(es), Run(es + [e]);
      && t.daemonProcess == (if s.daemonProcess == Some(c) then None else s.daemonProcess)
      && (s.daemonProcess == Some(c) ==> t.stoppingProcess != Some(c))
      && (s.daemonProcess != Some(c) ==> t.stoppingProcess == s.stoppingProcess)
      && (e.ChildError? ==> t.starts == s.starts && t.restartAfterExit == s.restartAfterExit)
  {
    RunSnoc(Init(), es, e);
    if e.Exit? { ExitIsClearThenStart(Run(es), c); }
  }

  // ---------- the five-second waits ----------

  ghost predicate WaitsOk(es: seq<Event>) {
    var s := Run(es);
    && (forall w: WaitId :: Happened(es, Timeout(w)) ==> w < |s.waits|)
    && (forall w: WaitId :: w < |s.waits| ==>
          (s.waits[w].open <==> !Happened(es, Timeout(w)) && s.waits[w].child !in s.gone))
    && (forall c: Child :: c in s.gone <==> Happened(es, Exit(c)))
  }

  lemma WaitsStep(s: State, e: Event, w: WaitId)
    requires StartInv(s) && w < |s.waits|
    ensures var t := Step(s, e);
      && w < |t.waits| && t.waits[w].child == s.waits[w].child
      && (t.waits[w].open <==> s.waits[w].open && !(e == Timeout(w) || (e == Exit(s.waits[w].child) && Enabled(s, e))))
  {
    if Enabled(s, e) && e.Exit? { ExitIsClearThenStart(s, e.c); }
  }

  lemma NewWait(s: State, e: Event, w: WaitId)
    requires StartInv(s) && |s.waits| <= w < |Step(s, e).waits|
    ensures e == RestartCall && s.daemonProcess.Some? && w == |s.waits|
    ensures Step(s, e).waits[w] == Wait(s.daemonProcess.value, true) && s.daemonProcess.value !in Step(s, e).gone
  {
    if Enabled(s, e) && e.Exit? { ExitIsClearThenStart(s, e.c); }
  }

  lemma GoneStep(s: State, e: Event, c: Child)
    ensures c in Step(s, e).gone <==> c in s.gone || (e == Exit(c) && Enabled(s, e))
  {
    if Enabled(s, e) && e.Exit? { ExitIsClearThenStart(s, e.c); }
  }

  lemma WaitsSnoc(es: seq<Event>, e: Event)
    requires WaitsOk(es)
    ensures WaitsOk(es + [e])
  {
    var s, all := Run(es), es + [e];
    var t := Run(all);
    RunKeepsStarts(es);
    RunSnoc(Init(), es, e);
    forall w: WaitId ensures Happened(all, Timeout(w)) ==> w < |t.waits| {
      HappenedSnoc(es, e, Timeout(w));
      if w < |s.waits| { WaitsStep(s, e, w); }
    }
    forall c: Child ensures c in t.gone <==> Happened(all, Exit(c)) {
      HappenedSnoc(es, e, Exit(c));
      GoneStep(s, e, c);
    }
    forall w: WaitId | w < |t.waits|
      ensures t.waits[w].open <==> !Happened(all, Timeout(w)) && t.waits[w].child !in t.gone
    {
      HappenedSnoc(es, e, Timeout(w));
      if w < |s.waits| {
        WaitsStep(s, e, w);
        GoneStep(s, e, s.waits[w].child);
      } else {
        NewWait(s, e, w);
      }
    }
  }

  lemma {:induction false} RunKeepsWaits(es: seq<Event>)
    ensures WaitsOk(es)
  {
    if es != [] {
      RunKeepsWaits(es[..|es| - 1]);
      WaitsSnoc(es[..|es| - 1], es[|es| - 1]);
      assert es == es[..|es| - 1] + [es[|es| - 1]];
    }
  }

  // A restart is still waiting exactly if neither its timer has fired nor its
  // child has exited.
  lemma WaitIsOpenIff(es: seq<Event>, w: WaitId)
    requires w < |Run(es).waits|
    ensures Run(es).waits[w].open <==> !Happened(es, Timeout(w)) && !Happened(es, Exit(Run(es).waits[w].child))
  {
    RunKeepsWaits(es);
  }

  // A restart of a held child stops it, waits on it and defers a restart to it.
  lemma RestartWaits(es: seq<Event>, c: Child)
    requires Run(es).daemonProcess == Some(c)
    ensures var s, t := Run(es), Run(es + [RestartCall]);
      && t.waits == s.waits + [Wait(c, true)] && t.restartAfterExit == Some(c) && t.stoppingProcess == Some(c)
      && t.daemonProcess == Some(c) && t.startPromise.None? && t.epoch > s.epoch && t.starts == s.starts
  {
    RunSnoc(Init(), es, RestartCall);
  }
}
