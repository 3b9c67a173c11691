// The module-level variables of the supervisor and the code that changes them,
// one method for each stretch that runs without suspending.  `View` is the
// state that SupervisorModel steps through.
module SupervisorRuntime {
  import opened Options
  import opened SupervisorModel
  import opened SupervisorAnswers

  class Supervisor {
    var daemonProcess: Option<Child>
    var daemonStoppingProcess: Option<Child>
    var daemonRestartAfterExitProcess: Option<Child>
    var daemonStartPromise: Option<StartId>
    var daemonStartEpoch: nat
    // What the event loop remembers: suspended starts, restart waits, children.
    var starts: seq<Start>
    var waits: seq<Wait>
    var spawned: seq<StartId>
    ghost var gone: set<Child>
    ghost var overwritten: seq<Child>

    ghost function View(): State
      reads this
    {
      State(daemonProcess, daemonStoppingProcess, daemonRestartAfterExitProcess, daemonStartPromise, daemonStartEpoch,
            starts, waits, spawned, gone, overwritten)
    }

    constructor ()
      ensures View() == Init()
    {
      daemonProcess, daemonStoppingProcess, daemonRestartAfterExitProcess := None, None, None;
      daemonStartPromise, daemonStartEpoch := None, 0;
      starts, waits, spawned, gone, overwritten := [], [], [], {}, [];
    }

    method StartDaemon()
      modifies this
      ensures View() == SupervisorModel.StartDaemon(old(View()))
    {
      if daemonStartPromise.Some? {
        return;
      }
      if daemonProcess.Some? {
        return;  // the inner start returns at once and its promise settles in this macrotask
      }
      starts := starts + [Start(daemonStartEpoch, ShellEnv)];
      daemonStartPromise := Some(|starts| - 1);
    }

    // The `finally` of a start: it clears only its own promise.
    method FinishStart(id: StartId)
      requires id < |starts|
      modifies this
      ensures View() == Finish(old(View()), id)
    {
      starts := starts[id := starts[id].(pc := Done)];
      if daemonStartPromise == Some(id) {
        daemonStartPromise := None;
      }
    }

    method SuspendStart(id: StartId, pc: Pc)
      requires id < |starts|
      modifies this
      ensures View() == Goto(old(View()), id, pc)
    {
      starts := starts[id := starts[id].(pc := pc)];
    }

    method SpawnDaemon(id: StartId)
      modifies this
      ensures View() == Spawn(old(View()), id)
    {
      if daemonProcess.Some? {
        overwritten := overwritten + [daemonProcess.value];
      }
      daemonProcess := Some(|spawned|);
      spawned := spawned + [id];
    }

    // startDaemonInner from one await to the next.
    method ContinueStart(id: StartId, answer: Answer)
      requires id < |starts| && Answers(starts[id].pc, answer)
      modifies this
      ensures View() == ResumeStart(old(View()), id, answer)
      ensures Ends(answer) ==> starts[id].pc == Done && spawned == old(spawned) && daemonProcess == old(daemonProcess)
    {
      var startEpoch := starts[id].epoch;
      match starts[id].pc {
        case ShellEnv =>
          if !answer.launch {
            FinishStart(id);
            return;
          }
          SuspendStart(id, Inspect);
        case Inspect =>
          if startEpoch != daemonStartEpoch || answer.existing.Attach? {
            FinishStart(id);
            return;
          }
          SuspendStart(id, if answer.existing.Replace? then Replacing else PortProbe);
        case Replacing =>
          if !answer.ok {
            FinishStart(id);
            return;
          }
          SuspendStart(id, PortProbe);
        case PortProbe =>
          if startEpoch != daemonStartEpoch || answer.existing.Attach? {
            FinishStart(id);
            return;
          }
          SuspendStart(id, Late);
        case Late =>
          if answer.AwaitMore? {
            return;
          }
          if answer.SpawnChild? {
            SpawnDaemon(id);
          }
          FinishStart(id);
      }
    }

    method StopDaemon()
      modifies this
      ensures View() == SupervisorModel.StopDaemon(old(View()))
    {
      daemonStartEpoch := daemonStartEpoch + 1;
      daemonStartPromise := None;
      daemonRestartAfterExitProcess := None;
      if daemonProcess.None? {
        return;
      }
      daemonStoppingProcess := daemonProcess;
    }

    method RestartDaemon()
      modifies this
      ensures View() == SupervisorModel.RestartDaemon(old(View()))
    {
      var child := daemonProcess;
      if child.None? {
        StartDaemon();
        return;
      }
      waits := waits + [Wait(child.value, true)];
      StopDaemon();
      daemonRestartAfterExitProcess := child;
    }

    // The five-second timer of a restart fires first.
    method RestartTimeout(w: WaitId)
      requires w < |waits| && waits[w].open
      modifies this
      ensures View() == Step(old(View()), Timeout(w))
    {
      waits := waits[w := waits[w].(open := false)];
    }

    method RunExitHandler(c: Child)
      modifies this
      ensures View() == ExitHandler(old(View()), c)
    {
      if daemonProcess != Some(c) {
        return;
      }
      daemonProcess := None;
      if daemonStoppingProcess == Some(c) {
        daemonStoppingProcess := None;
        if daemonRestartAfterExitProcess == Some(c) {
          daemonRestartAfterExitProcess := None;
          StartDaemon();
        }
      }
    }

    // Every restart still waiting on the child resumes and starts the daemon.
    method ResumeWaits(c: Child)
      modifies this
      ensures View() == (if OpenWaitOn(old(View()), c) then SupervisorModel.StartDaemon(old(View())) else old(View()))
                        .(waits := CloseWaits(old(waits), c))
    {
      ghost var before := View();
      var i := 0;
      var anyOpen := false;
      while i < |waits|
        invariant i <= |waits| == |before.waits|
        invariant anyOpen <==> exists w :: 0 <= w < i && before.waits[w] == Wait(c, true)
        invariant forall w :: i <= w < |waits| ==> waits[w] == before.waits[w]
        invariant forall w :: 0 <= w < i ==> waits[w] == CloseWaits(before.waits, c)[w]
        invariant View() == (if anyOpen then SupervisorModel.StartDaemon(before) else before).(waits := waits)
      {
        if waits[i].child == c {
          var wasOpen := waits[i].open;
          waits := waits[i := waits[i].(open := false)];
          if wasOpen {
            StartDaemon();
            anyOpen := true;
          }
        }
        i := i + 1;
      }
      assert waits == CloseWaits(before.waits, c);
    }

    // The exit macrotask of a child.
    method OnExit(c: Child)
      requires c < |spawned| && c !in gone
      modifies this
      ensures View() == Step(old(View()), Exit(c))
    {
      gone := gone + {c};
      RunExitHandler(c);
      ResumeWaits(c);
    }

    method OnError(c: Child)
      requires c < |spawned|
      modifies this
      ensures View() == Step(old(View()), ChildError(c))
    {
      if daemonProcess != Some(c) {
        return;
      }
      daemonProcess := None;
      if daemonStoppingProcess == Some(c) {
        daemonStoppingProcess := None;
      }
    }
  }
}
