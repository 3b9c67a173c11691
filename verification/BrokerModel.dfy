// The browser command broker (backend/internal/browserruntime/broker.go) as a
// state machine.  One event is one critical section, one chunk handed to the
// connection, or one channel operation; goroutines interleave between events.
//
// `Request` is an Execute call.  It makes its own one-slot channel, so the
// channel is named by the request: `slot` is its buffer, `sent` counts every
// value ever put into it, and `owed` lists the values that some goroutine has
// already taken responsibility for (it removed the channel from `pending`) but
// has not sent yet.
module BrokerModel {
  import opened Options

  type ConnId = nat
  type ReqId = nat
  newtype byte = x: int | 0 <= x < 256
  type Bytes = seq<byte>

  datatype CommandError = CommandError(code: string, message: string)
  // Absent stands for no result and for a null one.
  datatype Body = Absent | Malformed | Json(text: string)
  datatype ResultMessage = ResultMessage(requestId: ReqId, ok: bool, error: Option<CommandError>, body: Body)
  datatype Reply = Value(text: string) | Failed(error: CommandError) | Undecodable | Unavailable

  // What resolve puts on the channel for a result frame.
  function ReplyOf(msg: ResultMessage): Reply {
    if !msg.ok then
      Failed(if msg.error.Some? then msg.error.value
             else CommandError("BROWSER_COMMAND_FAILED", "Browser command failed"))
    else match msg.body
      case Absent => Value("{}")
      case Malformed => Undecodable
      case Json(text) => Value(text)
  }

  // ---------- the fields behind the mutex ----------

  datatype Core = Core(conn: Option<ConnId>, pending: set<ReqId>)

  function Register(c: Core, r: ReqId): Core {
    if c.conn.None? then c else c.(pending := c.pending + {r})
  }

  function Forget(c: Core, r: ReqId): Core {
    c.(pending := c.pending - {r})
  }

  function Adopt(c: Core, conn: ConnId): Core {
    Core(Some(conn), {})
  }

  function Disconnect(c: Core, conn: ConnId): Core {
    if c.conn == Some(conn) then Core(None, {}) else c
  }

  // The channels a disconnect takes out of the map and must fail.
  function TakenByDisconnect(c: Core, conn: ConnId): set<ReqId> {
    if c.conn == Some(conn) then c.pending else {}
  }

  // ---------- Execute calls ----------

  datatype Outcome = Cancelled | Answered(reply: Reply) | NoRuntime

  datatype Stage =
    | Registered                          // in pending, write not holding the gate
    | Sending(start: nat, done: nat)      // holds the gate, `done` bytes accepted
    | SendFailed                          // write returned an error
    | Withdrawn                           // removePending after the failed write
    | Waiting                             // in the select
    | CancelChosen                        // the select took ctx.Done
    | CancelReady                         // removePending done, cancel write begins
    | SendingCancel(start: nat, done: nat)
    | Returned(outcome: Outcome)

  datatype Request = Request(
    conn: ConnId, frame: Bytes, cancel: Bytes, stage: Stage,
    owed: seq<Reply>, sent: nat, slot: seq<Reply>,
    deliveredAt: Option<nat>,             // where the command frame starts, once write returned nil
    cancelTried: bool,                    // the cancel write was called
    cancelFrom: Option<nat>,              // where the cancel write began, once it held the gate
    cancelledAt: Option<nat>)             // where the cancel frame starts, once that write returned nil

  datatype State = State(
    core: Core,
    gate: nat,                            // tokens in writeGate
    reqs: map<ReqId, Request>,
    wires: map<ConnId, Bytes>)            // bytes accepted by every connection ever adopted

  datatype Event =
    | Execute(r: ReqId, frame: Bytes, cancel: Bytes)
    | TakeGate(r: ReqId)
    | WriteChunk(r: ReqId, n: nat)
    | WriteDone(r: ReqId)
    | WriteFail(r: ReqId)
    | RemovePending(r: ReqId)
    | FailReturn(r: ReqId, ctxErr: bool)
    | CtxDone(r: ReqId)
    | Receive(r: ReqId)
    | ReadResult(msg: ResultMessage)
    | AdoptConn(c: ConnId)
    | ReaderGone(c: ConnId)
    | Deliver(r: ReqId, i: nat)

  function Init(): State {
    State(Core(None, {}), 1, map[], map[])
  }

  // Everything in `taken` is now owed `reply` by the goroutine that took it.
  function Owe(reqs: map<ReqId, Request>, taken: set<ReqId>, reply: Reply): map<ReqId, Request> {
    map r | r in reqs :: if r in taken then reqs[r].(owed := reqs[r].owed + [reply]) else reqs[r]
  }

  function Drop(s: State, conn: ConnId): State {
    s.(core := Disconnect(s.core, conn),
       reqs := Owe(s.reqs, TakenByDisconnect(s.core, conn), Unavailable))
  }

  function At(s: State, r: ReqId, q: Request): State {
    s.(reqs := s.reqs[r := q])
  }

  predicate IsWriting(stage: Stage) {
    stage.Sending? || stage.SendingCancel?
  }

  // The bytes the active writer still has to hand over.
  function Outgoing(q: Request): Bytes
    requires IsWriting(q.stage)
  {
    if q.stage.Sending? then q.frame else q.cancel
  }

  predicate Enabled(s: State, e: Event) {
    match e
    case Execute(r, _, _) => r !in s.reqs
    case AdoptConn(c) => c !in s.wires
    case ReaderGone(_) => true
    case ReadResult(_) => true
    case TakeGate(r) =>
      && r in s.reqs && s.gate > 0 && s.reqs[r].conn in s.wires
      && (s.reqs[r].stage.Registered? || s.reqs[r].stage.CancelReady?)
    case WriteChunk(r, n) =>
      && r in s.reqs && IsWriting(s.reqs[r].stage) && s.reqs[r].conn in s.wires
      && 0 < n <= |Outgoing(s.reqs[r])| - s.reqs[r].stage.done
    case WriteDone(r) => r in s.reqs && IsWriting(s.reqs[r].stage) && s.reqs[r].stage.done == |Outgoing(s.reqs[r])|
    case WriteFail(r) => r in s.reqs && (IsWriting(s.reqs[r].stage) || s.reqs[r].stage.Registered? || s.reqs[r].stage.CancelReady?)
    case RemovePending(r) => r in s.reqs && (s.reqs[r].stage.SendFailed? || s.reqs[r].stage.CancelChosen?)
    case FailReturn(r, _) => r in s.reqs && s.reqs[r].stage.Withdrawn?
    case CtxDone(r) => r in s.reqs && s.reqs[r].stage.Waiting?
    case Receive(r) => r in s.reqs && s.reqs[r].stage.Waiting? && s.reqs[r].slot != []
    case Deliver(r, i) => r in s.reqs && i < |s.reqs[r].owed| && |s.reqs[r].slot| < 1
  }

  function Apply(s: State, e: Event): State
    requires Enabled(s, e)
  {
    match e
    case Execute(r, frame, cancel) =>
      if s.core.conn.None? then s
      else
        var q := Request(s.core.conn.value, frame, cancel, Registered, [], 0, [], None, false, None, None);
        At(s, r, q).(core := Register(s.core, r))
    case AdoptConn(c) =>
      s.(core := Adopt(s.core, c), reqs := Owe(s.reqs, s.core.pending, Unavailable), wires := s.wires[c := []])
    case ReaderGone(c) => Drop(s, c)
    case ReadResult(msg) =>
      var r := msg.requestId;
      s.(core := Forget(s.core, r), reqs := Owe(s.reqs, s.core.pending * {r}, ReplyOf(msg)))
    case TakeGate(r) =>
      var q := s.reqs[r];
      var at := |s.wires[q.conn]|;
      (if q.stage.Registered? then At(s, r, q.(stage := Sending(at, 0)))
       else At(s, r, q.(stage := SendingCancel(at, 0), cancelFrom := Some(at)))).(gate := s.gate - 1)
    case WriteChunk(r, n) =>
      var q := s.reqs[r];
      var done := q.stage.done;
      At(s, r, q.(stage := if q.stage.Sending? then Sending(q.stage.start, done + n) else SendingCancel(q.stage.start, done + n)))
      .(wires := s.wires[q.conn := s.wires[q.conn] + Outgoing(q)[done..done + n]])
    case WriteDone(r) =>
      var q := s.reqs[r];
      (if q.stage.Sending? then At(s, r, q.(stage := Waiting, deliveredAt := Some(q.stage.start)))
       else At(s, r, q.(stage := Returned(Cancelled), cancelledAt := Some(q.stage.start)))).(gate := s.gate + 1)
    case WriteFail(r) =>
      var q := s.reqs[r];
      At(s, r, q.(stage := if q.stage.Sending? || q.stage.Registered? then SendFailed else Returned(Cancelled)))
      .(gate := if IsWriting(q.stage) then s.gate + 1 else s.gate)
    case RemovePending(r) =>
      var q := s.reqs[r];
      (if q.stage.SendFailed? then At(s, r, q.(stage := Withdrawn))
       else At(s, r, q.(stage := CancelReady, cancelTried := true))).(core := Forget(s.core, r))
    case FailReturn(r, ctxErr) =>
      var q := s.reqs[r];
      if ctxErr then At(s, r, q.(stage := Returned(Cancelled)))
      else At(Drop(s, q.conn), r, Drop(s, q.conn).reqs[r].(stage := Returned(NoRuntime)))
    case CtxDone(r) => At(s, r, s.reqs[r].(stage := CancelChosen))
    case Receive(r) =>
      var q := s.reqs[r];
      At(s, r, q.(stage := Returned(Answered(q.slot[0])), slot := q.slot[1..]))
    case Deliver(r, i) =>
      var q := s.reqs[r];
      At(s, r, q.(owed := q.owed[..i] + q.owed[i + 1..], slot := q.slot + [q.owed[i]], sent := q.sent + 1))
  }

  // An event that cannot happen in a state leaves it alone, so every sequence
  // of events is a run.
  function Step(s: State, e: Event): State {
    if Enabled(s, e) then Apply(s, e) else s
  }

  function Run(es: seq<Event>): State {
    if es == [] then Init() else Step(Run(es[..|es| - 1]), es[|es| - 1])
  }
}
