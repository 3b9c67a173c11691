// The desktop app's daemon supervisor (frontend/src/main.ts).  JavaScript runs
// one macrotask at a time and drains its microtasks before the next one, so one
// event here is one macrotask: a call, one continuation of a start after an
// await that really waits, a timer, or an event of a child process.  Between
// events anything may be interleaved.
//
// Starts, restart waits and children are named by their position in the
// sequences that record them; they are never removed.
module SupervisorModel {
  import opened Options

  type Child = nat
  type StartId = nat
  type WaitId = nat

  // Where a start is suspended.  The epoch is compared when Inspect and
  // PortProbe resume; every await after the second comparison is Late.
  datatype Pc = ShellEnv | Inspect | Replacing | PortProbe | Late | Done

  datatype Start = Start(epoch: nat, pc: Pc)
  datatype Wait = Wait(child: Child, open: bool)

  datatype Existing = NotFound | Attach | Replace
  datatype Answer =
    | Configured(launch: bool)      // the shell environment is ready; is a launch command resolved
    | Found(existing: Existing)     // a probe came back
    | Replaced(ok: bool)            // the takeover of a foreign daemon ended
    | AwaitMore                     // one more late await
    | GiveUp                        // return or throw without spawning
    | SpawnChild

  datatype State = State(
    daemonProcess: Option<Child>,
    stoppingProcess: Option<Child>,
    restartAfterExit: Option<Child>,
    startPromise: Option<StartId>,
    epoch: nat,
    starts: seq<Start>,
    waits: seq<Wait>,
    spawned: seq<StartId>,          // spawned[c] is the start that spawned child c
    gone: set<Child>,               // children whose exit event was delivered
    overwritten: seq<Child>)        // handles replaced while they were still held

  datatype Event =
    | StartCall
    | Resume(id: StartId, answer: Answer)
    | StopCall
    | RestartCall
    | Timeout(w: WaitId)
    | Exit(c: Child)
    | ChildError(c: Child)

  function Init(): State {
    State(None, None, None, None, 0, [], [], [], {}, [])
  }

  // startDaemon.  With a handle held the inner start returns at once and its
  // promise is cleared again before the next macrotask.
  function StartDaemon(s: State): State {
    if s.startPromise.Some? || s.daemonProcess.Some? then s
    else s.(starts := s.starts + [Start(s.epoch, ShellEnv)], startPromise := Some(|s.starts|))
  }

  function Finish(s: State, id: StartId): State
    requires id < |s.starts|
  {
    s.(starts := s.starts[id := s.starts[id].(pc := Done)],
       startPromise := if s.startPromise == Some(id) then None else s.startPromise)
  }

  function Goto(s: State, id: StartId, pc: Pc): State
    requires id < |s.starts|
  {
    s.(starts := s.starts[id := s.starts[id].(pc := pc)])
  }

  function Spawn(s: State, id: StartId): State {
    s.(spawned := s.spawned + [id],
       daemonProcess := Some(|s.spawned|),
       overwritten := if s.daemonProcess.Some? then s.overwritten + [s.daemonProcess.value] else s.overwritten)
  }

  predicate Answers(pc: Pc, a: Answer) {
    match pc
    case ShellEnv => a.Configured?
    case Inspect => a.Found?
    case Replacing => a.Replaced?
    case PortProbe => a.Found?
    case Late => a.AwaitMore? || a.GiveUp? || a.SpawnChild?
    case Done => false
  }

  // One continuation of startDaemonInner.
  function ResumeStart(s: State, id: StartId, a: Answer): State
    requires id < |s.starts| && Answers(s.starts[id].pc, a)
  {
    var superseded := s.starts[id].epoch != s.epoch;
    match s.starts[id].pc
    case ShellEnv => if a.launch then Goto(s, id, Inspect) else Finish(s, id)
    case Inspect =>
      if superseded then Finish(s, id)
      else (match a.existing
            case NotFound => Goto(s, id, PortProbe)
            case Attach => Finish(s, id)
            case Replace => Goto(s, id, Replacing))
    case Replacing => if a.ok then Goto(s, id, PortProbe) else Finish(s, id)
    case PortProbe =>
      if superseded then Finish(s, id)
      else if a.existing.Attach? then Finish(s, id)
      else Goto(s, id, Late)
    case Late =>
      if a.AwaitMore? then s else if a.GiveUp? then Finish(s, id) else Finish(Spawn(s, id), id)
  }

  function StopDaemon(s: State): State {
    s.(epoch := s.epoch + 1, startPromise := None, restartAfterExit := None,
       stoppingProcess := if s.daemonProcess.Some? then s.daemonProcess else s.stoppingProcess)
  }

  function RestartDaemon(s: State): State {
    if s.daemonProcess.None? then StartDaemon(s)
    else StopDaemon(s).(restartAfterExit := s.daemonProcess, waits := s.waits + [Wait(s.daemonProcess.value, true)])
  }

  predicate OpenWaitOn(s: State, c: Child) {
    exists w :: 0 <= w < |s.waits| && s.waits[w] == Wait(c, true)
  }

  function CloseWaits(waits: seq<Wait>, c: Child): seq<Wait> {
    seq(|waits|, i requires 0 <= i < |waits| => if waits[i].child == c then waits[i].(open := false) else waits[i])
  }

  predicate FiresDeferred(s: State, c: Child) {
    s.daemonProcess == Some(c) && s.stoppingProcess == Some(c) && s.restartAfterExit == Some(c)
  }

  // The exit listener that startDaemonInner installed on child c.
  function ExitHandler(s: State, c: Child): State {
    if s.daemonProcess != Some(c) then s
    else if s.stoppingProcess != Some(c) then s.(daemonProcess := None)
    else if s.restartAfterExit != Some(c) then s.(daemonProcess := None, stoppingProcess := None)
    else StartDaemon(s.(daemonProcess := None, stoppingProcess := None, restartAfterExit := None))
  }

  // The whole exit macrotask: the handler, then every restart still waiting on
  // the child resumes as a microtask and starts the daemon too.
  function ChildExit(s: State, c: Child): State {
    var t := ExitHandler(s.(gone := s.gone + {c}), c).(waits := CloseWaits(s.waits, c));
    if OpenWaitOn(s, c) then StartDaemon(t) else t
  }

  function ChildErrored(s: State, c: Child): State {
    if s.daemonProcess != Some(c) then s
    else s.(daemonProcess := None, stoppingProcess := if s.stoppingProcess == Some(c) then None else s.stoppingProcess)
  }

  predicate Enabled(s: State, e: Event) {
    match e
    case Resume(id, a) => id < |s.starts| && Answers(s.starts[id].pc, a)
    case Timeout(w) => w < |s.waits| && s.waits[w].open
    case Exit(c) => c < |s.spawned| && c !in s.gone
    case ChildError(c) => c < |s.spawned|
    case _ => true
  }

  function Apply(s: State, e: Event): State
    requires Enabled(s, e)
  {
    match e
    case StartCall => StartDaemon(s)
    case Resume(id, a) => ResumeStart(s, id, a)
    case StopCall => StopDaemon(s)
    case RestartCall => RestartDaemon(s)
    case Timeout(w) => s.(waits := s.waits[w := s.waits[w].(open := false)])
    case Exit(c) => ChildExit(s, c)
    case ChildError(c) => ChildErrored(s, c)
  }

  function Step(s: State, e: Event): State {
    if Enabled(s, e) then Apply(s, e) else s
  }

  function RunFrom(s: State, es: seq<Event>): State {
    if es == [] then s else Step(RunFrom(s, es[..|es| - 1]), es[|es| - 1])
  }

  function Run(es: seq<Event>): State {
    RunFrom(Init(), es)
  }

  // No start has passed its second epoch check and not yet spawned.
  predicate NoneLate(s: State) {
    forall id :: 0 <= id < |s.starts| ==> s.starts[id].pc != Late
  }

  // No explicit stop in `es` lands between a start's second check and its spawn.
  predicate StopsAreTimely(s: State, es: seq<Event>) {
    forall i :: 0 <= i < |es| && es[i] == StopCall ==> NoneLate(RunFrom(s, es[..i]))
  }
}
