// What runs of the supervisor keep.
module SupervisorSafety {
  import opened Options
  import opened SupervisorModel

  predicate Current(s: State, id: StartId)
    requires id < |s.starts|
  {
    s.starts[id].pc != Done && s.starts[id].epoch == s.epoch
  }

  // The promise is exactly the one unfinished start of the current epoch.
  predicate PromiseInv(s: State) {
    && (forall id: StartId :: id < |s.starts| ==> s.starts[id].epoch <= s.epoch && (Current(s, id) ==> s.startPromise == Some(id)))
    && (s.startPromise.Some? ==> s.startPromise.value < |s.starts| && Current(s, s.startPromise.value))
  }

  predicate ChildInv(s: State) {
    && (s.daemonProcess.Some? ==> s.daemonProcess.value < |s.spawned| && s.daemonProcess.value !in s.gone)
    && (s.stoppingProcess.Some? ==> s.stoppingProcess.value < |s.spawned|)
    && (s.restartAfterExit.Some? ==> s.restartAfterExit.value < |s.spawned|)
    && (s.restartAfterExit.Some? && s.daemonProcess == s.restartAfterExit ==> s.stoppingProcess == s.daemonProcess)
    && (forall w: WaitId :: w < |s.waits| ==> s.waits[w].child < |s.spawned| && (s.waits[w].open ==> s.waits[w].child !in s.gone))
    && (forall c :: c in s.gone ==> c < |s.spawned|)
  }

  // A start spawns at most once, and is over once it has.
  predicate SpawnInv(s: State) {
    && (forall c: Child :: c < |s.spawned| ==> s.spawned[c] < |s.starts| && s.starts[s.spawned[c]].pc == Done)
    && (forall c: Child, d: Child :: c < d < |s.spawned| ==> s.spawned[c] != s.spawned[d])
  }

  // Holds on every run, however stops land.
  predicate StartInv(s: State) {
    PromiseInv(s) && ChildInv(s) && SpawnInv(s)
  }

  // Holds as long as stops are timely.
  predicate SingleInv(s: State) {
    && StartInv(s)
    && (forall id: StartId :: id < |s.starts| && s.starts[id].pc == Late ==> s.starts[id].epoch == s.epoch)
    && (s.startPromise.Some? ==> s.daemonProcess.None?)
    && s.overwritten == []
  }

  lemma StartDaemonKeeps(s: State)
    requires StartInv(s)
    ensures StartInv(StartDaemon(s))
    ensures SingleInv(s) ==> SingleInv(StartDaemon(s))
  {
    var t := StartDaemon(s);
    forall id: StartId | id < |t.starts|
      ensures t.starts[id].epoch <= t.epoch && (Current(t, id) ==> t.startPromise == Some(id))
    {
      if id < |s.starts| { assert !Current(t, id) || Current(s, id); }
    }
  }

  lemma FinishKeeps(s: State, id: StartId)
    requires StartInv(s) && id < |s.starts|
    ensures StartInv(Finish(s, id))
    ensures SingleInv(s) ==> SingleInv(Finish(s, id))
  {
    var t := Finish(s, id);
    forall k: StartId | k < |t.starts|
      ensures t.starts[k].epoch <= t.epoch && (Current(t, k) ==> t.startPromise == Some(k))
    {
      assert s.starts[k].epoch <= s.epoch && (Current(s, k) ==> s.startPromise == Some(k));
    }
  }

  lemma GotoKeeps(s: State, id: StartId, pc: Pc)
    requires StartInv(s) && id < |s.starts| && pc != Done && s.starts[id].pc != Done
    ensures StartInv(Goto(s, id, pc))
    ensures SingleInv(s) && (pc == Late ==> s.starts[id].epoch == s.epoch) ==> SingleInv(Goto(s, id, pc))
  {
    var t := Goto(s, id, pc);
    forall k: StartId | k < |t.starts|
      ensures t.starts[k].epoch <= t.epoch && (Current(t, k) ==> t.startPromise == Some(k))
    {
      assert s.starts[k].epoch <= s.epoch && (Current(s, k) ==> s.startPromise == Some(k));
    }
  }

  lemma SpawnKeeps(s: State, id: StartId)
    requires StartInv(s) && id < |s.starts| && s.starts[id].pc == Late
    ensures StartInv(Finish(Spawn(s, id), id))
    ensures SingleInv(s) ==> SingleInv(Finish(Spawn(s, id), id))
  {
    var f := Finish(s, id);
    FinishKeeps(s, id);
    assert Current(s, id) || s.starts[id].epoch != s.epoch;
    var t := Finish(Spawn(s, id), id);
    assert t == Spawn(f, id);
    assert PromiseInv(t) by { assert forall k: StartId :: k < |t.starts| ==> Current(t, k) == Current(f, k); }
    assert SpawnInv(t);
    assert ChildInv(t);
  }

  lemma ResumeKeeps(s: State, id: StartId, a: Answer)
    requires StartInv(s) && id < |s.starts| && Answers(s.starts[id].pc, a)
    ensures StartInv(ResumeStart(s, id, a))
    ensures SingleInv(s) ==> SingleInv(ResumeStart(s, id, a))
  {
    var t := ResumeStart(s, id, a);
    if t == Finish(s, id) { FinishKeeps(s, id); }
    else if t == Finish(Spawn(s, id), id) && s.starts[id].pc == Late { SpawnKeeps(s, id); }
    else if t != s {
      GotoKeeps(s, id, t.starts[id].pc);
    }
  }

  // Clearing handles and closing waits keeps everything.
  lemma ClearKeeps(s: State, t: State)
    requires StartInv(s) && t.starts == s.starts && t.startPromise == s.startPromise && t.epoch == s.epoch && t.spawned == s.spawned
    requires t.overwritten == s.overwritten && (t.daemonProcess == s.daemonProcess || t.daemonProcess.None?)
    requires ChildInv(t)
    ensures StartInv(t)
    ensures SingleInv(s) ==> SingleInv(t)
  {
    forall id: StartId | id < |t.starts|
      ensures t.starts[id].epoch <= t.epoch && (Current(t, id) ==> t.startPromise == Some(id))
    {
      assert s.starts[id].epoch <= s.epoch && (Current(s, id) ==> s.startPromise == Some(id));
    }
  }

  // The state at the exit of `c` before any start is made.
  function Cleared(s: State, c: Child): State {
    s.(gone := s.gone + {c},
       daemonProcess := if s.daemonProcess == Some(c) then None else s.daemonProcess,
       stoppingProcess := if s.daemonProcess == Some(c) && s.stoppingProcess == Some(c) then None else s.stoppingProcess,
       restartAfterExit := if FiresDeferred(s, c) then None else s.restartAfterExit,
       waits := CloseWaits(s.waits, c))
  }

  // Starting twice in one macrotask is the same as starting once.
  lemma ExitIsClearThenStart(s: State, c: Child)
    ensures ChildExit(s, c) == if FiresDeferred(s, c) || OpenWaitOn(s, c) then StartDaemon(Cleared(s, c)) else Cleared(s, c)
  {
  }

  lemma ClearedKeeps(s: State, c: Child)
    requires StartInv(s) && c < |s.spawned|
    ensures StartInv(Cleared(s, c))
    ensures SingleInv(s) ==> SingleInv(Cleared(s, c))
  {
    ClearKeeps(s, Cleared(s, c));
  }

  lemma StopKeeps(s: State)
    requires StartInv(s)
    ensures StartInv(StopDaemon(s))
    ensures SingleInv(s) && NoneLate(s) ==> SingleInv(StopDaemon(s))
  {
    var t := StopDaemon(s);
    forall id: StartId | id < |t.starts| ensures t.starts[id].epoch < t.epoch { assert s.starts[id].epoch <= s.epoch; }
  }

  lemma HandleMeansNoneLate(s: State)
    requires SingleInv(s) && s.daemonProcess.Some?
    ensures NoneLate(s)
  {
    forall id: StartId | id < |s.starts|
      ensures s.starts[id].pc != Late
    {
      assert Current(s, id) ==> s.startPromise == Some(id);
    }
  }

  lemma RestartKeeps(s: State)
    requires StartInv(s) && s.daemonProcess.Some?
    ensures StartInv(RestartDaemon(s))
    ensures SingleInv(s) ==> SingleInv(RestartDaemon(s))
  {
    StopKeeps(s);
    if SingleInv(s) { HandleMeansNoneLate(s); }
    ClearKeeps(StopDaemon(s), RestartDaemon(s));
  }

  lemma StepKeepsStarts(s: State, e: Event)
    requires StartInv(s)
    ensures StartInv(Step(s, e))
    ensures SingleInv(s) && (e == StopCall ==> NoneLate(s)) ==> SingleInv(Step(s, e))
  {
    if Enabled(s, e) {
      match e
      case StartCall => StartDaemonKeeps(s);
      case Resume(id, a) => ResumeKeeps(s, id, a);
      case StopCall => StopKeeps(s);
      case RestartCall => if s.daemonProcess.None? { StartDaemonKeeps(s); } else { RestartKeeps(s); }
      case Timeout(w) => ClearKeeps(s, Step(s, e));
      case Exit(c) => ExitIsClearThenStart(s, c); ClearedKeeps(s, c); StartDaemonKeeps(Cleared(s, c));
      case ChildError(c) => ClearKeeps(s, Step(s, e));
    }
  }

  lemma {:induction false} RunKeepsStarts(es: seq<Event>)
    ensures StartInv(Run(es))
  {
    if es != [] {
      RunKeepsStarts(es[..|es| - 1]);
      StepKeepsStarts(Run(es[..|es| - 1]), es[|es| - 1]);
    }
  }

  lemma TimelyPrefix(s: State, es: seq<Event>, n: nat)
    requires StopsAreTimely(s, es) && n <= |es|
    ensures StopsAreTimely(s, es[..n])
  {
    forall i | 0 <= i < n && es[..n][i] == StopCall
      ensures NoneLate(RunFrom(s, es[..n][..i]))
    {
      assert es[i] == StopCall && es[..i] == es[..n][..i];
    }
  }

  lemma {:induction false} TimelyRunKeepsSingle(s: State, es: seq<Event>)
    requires SingleInv(s) && StopsAreTimely(s, es)
    ensures SingleInv(RunFrom(s, es))
  {
    if es != [] {
      var n := |es| - 1;
      TimelyPrefix(s, es, n);
      TimelyRunKeepsSingle(s, es[..n]);
      StepKeepsStarts(RunFrom(s, es[..n]), es[n]);
    }
  }
}
