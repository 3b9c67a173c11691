// The supervisor's guarantees, stated for every sequence of events.
module SupervisorTheorems {
  import opened Options
  import opened SupervisorModel
  import opened SupervisorSafety

  lemma RunSnoc(s: State, es: seq<Event>, e: Event)
    ensures RunFrom(s, es + [e]) == Step(RunFrom(s, es), e)
  {
    assert (es + [e])[..|es|] == es;
  }

  lemma TimelySingle(es: seq<Event>)
    requires StopsAreTimely(Init(), es)
    ensures SingleInv(Run(es))
  {
    TimelyRunKeepsSingle(Init(), es);
  }

  // ---------- starts ----------

  // However stops land, at most one unfinished start belongs to the current epoch.
  lemma OneCurrentStart(es: seq<Event>, id: StartId, k: StartId)
    requires id < |Run(es).starts| && k < |Run(es).starts|
    requires Current(Run(es), id) && Current(Run(es), k)
    ensures id == k && Run(es).startPromise == Some(id)
  {
    RunKeepsStarts(es);
  }

  // A superseded start never clears the promise of a newer one, on any run; with
  // timely stops it does not spawn or touch the held handle either.
  lemma SupersededStartIsInert(es: seq<Event>, id: StartId, a: Answer)
    requires Enabled(Run(es), Resume(id, a)) && Run(es).starts[id].epoch != Run(es).epoch
    ensures Run(es + [Resume(id, a)]).startPromise == Run(es).startPromise
    ensures StopsAreTimely(Init(), es) ==>
      var t := Run(es + [Resume(id, a)]);
      t.spawned == Run(es).spawned && t.daemonProcess == Run(es).daemonProcess
  {
    RunSnoc(Init(), es, Resume(id, a));
    RunKeepsStarts(es);
    if StopsAreTimely(Init(), es) { TimelySingle(es); }
  }

  // With timely stops no held handle is ever overwritten, and a start that
  // spawns is the one the promise names, while no handle is held.
  lemma NoHandleIsOverwritten(es: seq<Event>, id: StartId)
    requires StopsAreTimely(Init(), es)
    ensures Run(es).overwritten == []
    ensures Enabled(Run(es), Resume(id, SpawnChild)) ==>
      Run(es).startPromise == Some(id) && Run(es).starts[id].epoch == Run(es).epoch && Run(es).daemonProcess.None?
  {
    TimelySingle(es);
    if Enabled(Run(es), Resume(id, SpawnChild)) {
      assert Current(Run(es), id);
    }
  }

  // A run that goes wrong: `id` was late when the stop landed and spawns first,
  // then the start made after the stop spawns over its handle.
  lemma OverrunStates(s: State, id: StartId, n: StartId)
    requires SingleInv(s) && id < |s.starts| && s.starts[id].pc == Late && n == |s.starts|
    ensures var s1 := Step(StopDaemon(s), StartCall);
            var s2 := Step(s1, Resume(n, Configured(true)));
            var s4 := Step(Step(s2, Resume(n, Found(NotFound))), Resume(n, Found(NotFound)));
            Step(Step(s4, Resume(id, SpawnChild)), Resume(n, SpawnChild)).overwritten != []
  {
    assert Current(s, id) && s.daemonProcess.None?;
    var s1 := Step(StopDaemon(s), StartCall);
    assert s1.starts[n] == Start(s1.epoch, ShellEnv) && s1.daemonProcess.None? && s1.starts[id].pc == Late;
    var s2 := Step(s1, Resume(n, Configured(true)));
    assert s2.starts[n] == Start(s2.epoch, Inspect) && s2.daemonProcess.None? && s2.starts[id].pc == Late;
    var s3 := Step(s2, Resume(n, Found(NotFound)));
    assert s3.starts[n] == Start(s3.epoch, PortProbe) && s3.daemonProcess.None? && s3.starts[id].pc == Late;
    var s4 := Step(s3, Resume(n, Found(NotFound)));
    assert s4.starts[n].pc == Late && s4.daemonProcess.None? && s4.starts[id].pc == Late;
    var s5 := Step(s4, Resume(id, SpawnChild));
    assert s5.starts[n].pc == Late && s5.daemonProcess.Some?;
  }

  lemma RunOfSix(s: State, a: Event, b: Event, c: Event, d: Event, e: Event, f: Event)
    ensures RunFrom(s, [a] + [b] + [c] + [d] + [e] + [f]) == Step(Step(Step(Step(Step(Step(s, a), b), c), d), e), f)
  {
    RunSnoc(s, [], a);
    assert [] + [a] == [a];
    RunSnoc(s, [a], b);
    RunSnoc(s, [a] + [b], c);
    RunSnoc(s, [a] + [b] + [c], d);
    RunSnoc(s, [a] + [b] + [c] + [d], e);
    RunSnoc(s, [a] + [b] + [c] + [d] + [e], f);
  }

  lemma NoStopIsTimely(s: State, es: seq<Event>)
    requires forall i :: 0 <= i < |es| ==> es[i] != StopCall
    ensures StopsAreTimely(s, es)
  {}

  lemma OverrunOverwrites(s: State, id: StartId, n: StartId)
    requires SingleInv(s) && id < |s.starts| && s.starts[id].pc == Late && n == |s.starts|
    ensures exists more :: StopsAreTimely(StopDaemon(s), more) && RunFrom(StopDaemon(s), more).overwritten != []
  {
    OverrunStates(s, id, n);
    var a, b, c, d, e := StartCall, Resume(n, Configured(true)), Resume(n, Found(NotFound)), Resume(id, SpawnChild), Resume(n, SpawnChild);
    var more := [a] + [b] + [c] + [c] + [d] + [e];
    NoStopIsTimely(StopDaemon(s), more);
    assert RunFrom(StopDaemon(s), more).overwritten != [] by { RunOfSix(StopDaemon(s), a, b, c, c, d, e); }
  }

  // When a stop may be called: every further run whose own stops are timely is
  // free of overwritten handles exactly if no start is late now.
  lemma StopIsSafeIffNoneLate(es: seq<Event>)
    requires StopsAreTimely(Init(), es)
    ensures NoneLate(Run(es)) <==>
      forall more :: StopsAreTimely(StopDaemon(Run(es)), more) ==> RunFrom(StopDaemon(Run(es)), more).overwritten == []
  {
    var s := Run(es);
    TimelySingle(es);
    if NoneLate(s) {
      StopKeeps(s);
      forall more | StopsAreTimely(StopDaemon(s), more)
        ensures RunFrom(StopDaemon(s), more).overwritten == []
      {
        TimelyRunKeepsSingle(StopDaemon(s), more);
      }
    } else {
      var id: StartId :| id < |s.starts| && s.starts[id].pc == Late;
      OverrunOverwrites(s, id, |s.starts|);
    }
  }

  // ---------- the deferred restart ----------

  // Event j asked for a restart while child c was held.
  predicate Arms(es: seq<Event>, j: nat, c: Child) {
    j < |es| && es[j] == RestartCall && Run(es[..j]).daemonProcess == Some(c)
  }

  // What ends the intent armed on c: an explicit stop, a newer restart of a held
  // child, or the exit of c itself while it is held.
  predicate Disarms(s: State, e: Event, c: Child) {
    || e == StopCall
    || (e == RestartCall && s.daemonProcess.Some?)
    || (e == Exit(c) && Enabled(s, e) && s.daemonProcess == Some(c))
  }

  ghost predicate ArmedFrom(es: seq<Event>, j: nat, c: Child) {
    Arms(es, j, c) && forall i :: j < i < |es| ==> !Disarms(Run(es[..i]), es[i], c)
  }

  ghost predicate Armed(es: seq<Event>, c: Child) {
    exists j: nat :: ArmedFrom(es, j, c)
  }

  lemma StepArms(s: State, e: Event, c: Child)
    requires StartInv(s)
    ensures Step(s, e).restartAfterExit == Some(c) <==>
      (e == RestartCall && s.daemonProcess == Some(c)) || (s.restartAfterExit == Some(c) && !Disarms(s, e, c))
  {
    if Enabled(s, e) && e.Exit? { ExitIsClearThenStart(s, e.c); }
  }

  lemma ArmedSnoc(es: seq<Event>, e: Event, c: Child)
    ensures Armed(es + [e], c) <==>
      (e == RestartCall && Run(es).daemonProcess == Some(c)) || (Armed(es, c) && !Disarms(Run(es), e, c))
  {
    var all := es + [e];
    forall j: nat | j <= |es|
      ensures all[..j] == es[..j]
    {
    }
    assert es[..|es|] == es;
    if e == RestartCall && Run(es).daemonProcess == Some(c) {
      assert ArmedFrom(all, |es|, c);
    }
    if Armed(es, c) && !Disarms(Run(es), e, c) {
      var j: nat :| ArmedFrom(es, j, c);
      assert ArmedFrom(all, j, c);
    }
    if Armed(all, c) {
      var j: nat :| ArmedFrom(all, j, c);
      if j < |es| {
        assert !Disarms(Run(all[..|es|]), all[|es|], c);
        assert ArmedFrom(es, j, c);
      }
    }
  }

  lemma {:induction false} ArmedIsRecorded(es: seq<Event>, c: Child)
    ensures Run(es).restartAfterExit == Some(c) <==> Armed(es, c)
  {
    if es != [] {
      var n := |es| - 1;
      ArmedIsRecorded(es[..n], c);
      RunKeepsStarts(es[..n]);
      StepArms(Run(es[..n]), es[n], c);
      ArmedSnoc(es[..n], es[n], c);
      assert es == es[..n] + [es[n]];
    }
  }

  // The exit handler restarts the daemon exactly when the exiting child is the
  // held one and the latest restart was armed on it and not ended since.
  lemma DeferredRestartFiresIff(es: seq<Event>, c: Child)
    requires Enabled(Run(es), Exit(c))
    ensures FiresDeferred(Run(es), c) <==> Run(es).daemonProcess == Some(c) && Armed(es, c)
  {
    RunKeepsStarts(es);
    ArmedIsRecorded(es, c);
  }

  lemma {:induction false} GoneGrows(s: State, es: seq<Event>)
    ensures s.gone <= RunFrom(s, es).gone
  {
    if es != [] {
      GoneGrows(s, es[..|es| - 1]);
      var t := RunFrom(s, es[..|es| - 1]);
      if Enabled(t, es[|es| - 1]) && es[|es| - 1].Exit? { ExitIsClearThenStart(t, es[|es| - 1].c); }
    }
  }

  lemma {:induction false} RunSplit(s: State, es: seq<Event>, more: seq<Event>)
    ensures RunFrom(s, es + more) == RunFrom(RunFrom(s, es), more)
  {
    if more == [] {
      assert es + more == es;
    } else {
      RunSplit(s, es, more[..|more| - 1]);
      assert (es + more)[..|es + more| - 1] == es + more[..|more| - 1];
    }
  }

  // A child exits once, so its deferred restart fires at most once.
  lemma ExitHappensOnce(es: seq<Event>, c: Child, more: seq<Event>)
    requires Enabled(Run(es), Exit(c))
    ensures !Enabled(Run(es + [Exit(c)] + more), Exit(c))
  {
    RunSnoc(Init(), es, Exit(c));
    RunSplit(Init(), es + [Exit(c)], more);
    ExitIsClearThenStart(Run(es), c);
    GoneGrows(Run(es + [Exit(c)]), more);
  }

  // The exit of a child makes at most one start, however many restarts wait on
  // it, and says exactly when it makes one.
  lemma ExitStartsIff(es: seq<Event>, c: Child)
    requires StopsAreTimely(Init(), es) && Enabled(Run(es), Exit(c))
    ensures var s := Run(es); var t := Run(es + [Exit(c)]);
      && (t.starts == s.starts || t.starts == s.starts + [Start(s.epoch, ShellEnv)])
      && t.spawned == s.spawned
      && (t.starts != s.starts <==>
            || (s.daemonProcess == Some(c) && (Armed(es, c) || OpenWaitOn(s, c)))
            || (s.daemonProcess.None? && s.startPromise.None? && OpenWaitOn(s, c)))
  {
    RunSnoc(Init(), es, Exit(c));
    TimelySingle(es);
    DeferredRestartFiresIff(es, c);
    ExitIsClearThenStart(Run(es), c);
  }

  // Whatever happens after, one start spawns at most one child: the handler and
  // the waiting continuations together make at most one replacement.
  lemma StartSpawnsAtMostOnce(es: seq<Event>, c: Child, d: Child)
    requires c < |Run(es).spawned| && d < |Run(es).spawned| && Run(es).spawned[c] == Run(es).spawned[d]
    ensures c == d
  {
    RunKeepsStarts(es);
  }

  lemma StopEndsEveryArm(es: seq<Event>, more: seq<Event>, c: Child)
    requires RestartCall !in more
    ensures !Armed(es + [StopCall] + more, c)
  {
    var all := es + [StopCall] + more;
    forall j: nat
      ensures !ArmedFrom(all, j, c)
    {
      if j < |es| {
        assert all[|es|] == StopCall;
      } else if j < |all| {
        assert all[j] == StopCall || all[j] in more;
      }
    }
  }

  // After a stop (and no newer restart) the exit of the held child starts a
  // replacement exactly if some restart is still inside its wait on that child.
  lemma StopCancelsOnlyDeferredRestarts(es: seq<Event>, more: seq<Event>, c: Child)
    requires RestartCall !in more
    requires StopsAreTimely(Init(), es + [StopCall] + more)
    requires Enabled(Run(es + [StopCall] + more), Exit(c)) && Run(es + [StopCall] + more).daemonProcess == Some(c)
    ensures var s := Run(es + [StopCall] + more); var t := Run(es + [StopCall] + more + [Exit(c)]);
      t.starts != s.starts <==> OpenWaitOn(s, c)
  {
    StopEndsEveryArm(es, more, c);
    ExitStartsIff(es + [StopCall] + more, c);
  }

  // So a stop inside the five-second wait does not stop the restart: restart,
  // stop, exit always starts the daemon again.
  lemma StopInsideTheWaitRestartsAnyway(es: seq<Event>, c: Child)
    requires StopsAreTimely(Init(), es) && Run(es).daemonProcess == Some(c)
    ensures Run(es + [RestartCall] + [StopCall] + [Exit(c)]).startPromise == Some(|Run(es).starts|)
  {
    TimelySingle(es);
    var s := Run(es);
    RunSnoc(Init(), es, RestartCall);
    RunSnoc(Init(), es + [RestartCall], StopCall);
    RunSnoc(Init(), es + [RestartCall] + [StopCall], Exit(c));
    var s2 := StopDaemon(RestartDaemon(s));
    assert s2.waits[|s.waits|] == Wait(c, true);
    ExitIsClearThenStart(s2, c);
  }
}
