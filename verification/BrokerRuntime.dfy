// The broker object itself: the critical sections of its methods, the loop that
// fails a taken map, and the loop over partial writes.  `View` is the mutex-
// protected state that BrokerModel steps through.
module BrokerRuntime {
  import opened Options
  import opened BrokerModel

  const MAX_RUNTIME_FRAME_BYTES := 0x80_0000
  const NEWLINE: byte := 10

  // A channel with room for one value.
  class ResultChan {
    var buffer: Option<Reply>

    constructor ()
      ensures buffer.None?
    {
      buffer := None;
    }

    method Send(x: Reply)
      requires buffer.None?
      modifies this
      ensures buffer == Some(x)
    {
      buffer := Some(x);
    }
  }

  class Broker {
    var conn: Option<ConnId>
    var connectedAt: nat                 // 0 stands for the zero time
    var pending: map<ReqId, ResultChan>

    ghost predicate Valid()
      reads this, pending.Values
    {
      && (conn.None? ==> connectedAt == 0 && pending == map[])
      && (forall r, k :: r in pending && k in pending && r != k ==> pending[r] != pending[k])
      && (forall r :: r in pending ==> pending[r].buffer.None?)
    }

    ghost function View(): Core
      reads this
    {
      Core(conn, pending.Keys)
    }

    constructor ()
      ensures Valid() && View() == Init().core
    {
      conn, connectedAt, pending := None, 0, map[];
    }

    method Status() returns (connected: bool, at: nat)
      requires Valid()
      ensures connected <==> View().conn.Some?
      ensures !connected ==> at == 0
    {
      connected, at := conn.Some?, connectedAt;
    }

    // Execute up to the write: register a fresh request on the current connection.
    method RegisterRequest(r: ReqId) returns (on: Option<ConnId>, ch: ResultChan)
      requires Valid() && r !in pending
      modifies this`pending
      ensures Valid() && fresh(ch) && ch.buffer.None?
      ensures View() == Register(old(View()), r) && on == conn
      ensures on.Some? ==> pending == old(pending)[r := ch]
    {
      ch := new ResultChan();
      on := conn;
      if on.Some? {
        pending := pending[r := ch];
      }
    }

    method RemovePending(r: ReqId)
      requires Valid()
      modifies this`pending
      ensures Valid() && View() == Forget(old(View()), r)
      ensures pending == old(pending) - {r}
    {
      pending := pending - {r};
    }

    method TakePending() returns (taken: map<ReqId, ResultChan>)
      modifies this`pending
      ensures taken == old(pending) && pending == map[]
    {
      taken := pending;
      pending := map[];
    }

    // serveConn after a valid hello: replace the connection, take what was
    // pending on the old one and fail it.
    method AdoptConnection(c: ConnId, now: nat) returns (previous: Option<ConnId>)
      requires Valid()
      modifies this, pending.Values
      ensures Valid() && View() == Adopt(old(View()), c) && connectedAt == now
      ensures previous == old(conn)
      ensures forall r :: r in old(pending) ==> old(pending)[r].buffer == Some(Unavailable)
    {
      previous := conn;
      conn, connectedAt := Some(c), now;
      var taken := TakePending();
      FailPending(taken, Unavailable);
    }

    method DisconnectConnection(c: ConnId)
      requires Valid()
      modifies this, pending.Values
      ensures Valid() && View() == Disconnect(old(View()), c)
      ensures forall r :: r in old(pending) ==>
        old(pending)[r].buffer == (if r in TakenByDisconnect(old(View()), c) then Some(Unavailable) else None)
      ensures old(conn) != Some(c) ==> pending == old(pending) && connectedAt == old(connectedAt)
    {
      if conn != Some(c) {
        return;
      }
      conn, connectedAt := None, 0;
      var taken := TakePending();
      FailPending(taken, Unavailable);
    }

    // A result frame: the named request alone is answered, at most once.
    method Resolve(msg: ResultMessage)
      requires Valid()
      modifies this`pending, pending.Values
      ensures Valid() && View() == Forget(old(View()), msg.requestId)
      ensures forall r :: r in old(pending) ==>
        old(pending)[r].buffer == (if r == msg.requestId then Some(ReplyOf(msg)) else None)
    {
      var r := msg.requestId;
      if r !in pending {
        return;
      }
      var ch := pending[r];
      pending := pending - {r};
      ch.Send(ReplyOf(msg));
    }
  }

  method FailPending(pending: map<ReqId, ResultChan>, reply: Reply)
    requires forall r, k :: r in pending && k in pending && r != k ==> pending[r] != pending[k]
    requires forall r :: r in pending ==> pending[r].buffer.None?
    modifies pending.Values
    ensures forall r :: r in pending ==> pending[r].buffer == Some(reply)
  {
    var left := pending.Keys;
    while left != {}
      invariant left <= pending.Keys
      invariant forall r :: r in pending ==> pending[r].buffer == (if r in left then None else Some(reply))
      decreases left
    {
      var r :| r in left;
      pending[r].Send(reply);
      left := left - {r};
    }
  }

  // A net.Conn accepts any prefix of what it is given, with or without an
  // error.  `faults` counts the writes that reported an error or took nothing.
  class Connection {
    var sent: Bytes
    ghost var faults: nat

    method Write(p: Bytes) returns (n: nat, failed: bool)
      requires p != []
      modifies this
      ensures n <= |p| && sent == old(sent) + p[..n]
      ensures faults == old(faults) + if failed || n == 0 then 1 else 0
    {
      n :| 0 <= n <= |p|;
      failed := *;
      sent := sent + p[..n];
      faults := faults + if failed || n == 0 then 1 else 0;
    }
  }

  // The body of write, once it holds the gate.  It always comes back, it
  // succeeds exactly if the frame is not too long and the connection showed no
  // fault, and success means that the whole frame and its newline went out in
  // one piece.
  method WriteFrame(conn: Connection, payload: Bytes) returns (ok: bool)
    modifies conn
    ensures ok <==> |payload| + 1 <= MAX_RUNTIME_FRAME_BYTES && conn.faults == old(conn.faults)
    ensures ok ==> conn.sent == old(conn.sent) + payload + [NEWLINE]
    ensures !ok ==> exists n :: 0 <= n <= |payload| + 1 && conn.sent == old(conn.sent) + (payload + [NEWLINE])[..n]
    ensures |payload| + 1 > MAX_RUNTIME_FRAME_BYTES ==> conn.sent == old(conn.sent) && conn.faults == old(conn.faults)
    ensures conn.faults <= old(conn.faults) + 1
  {
    if |payload| + 1 > MAX_RUNTIME_FRAME_BYTES {
      assert conn.sent == old(conn.sent) + (payload + [NEWLINE])[..0];
      return false;
    }
    var whole := payload + [NEWLINE];
    var rest := whole;
    var failed := false;
    while |rest| > 0 && !failed
      invariant |rest| <= |whole| && rest == whole[|whole| - |rest|..]
      invariant conn.sent == old(conn.sent) + whole[..|whole| - |rest|]
      invariant conn.faults == old(conn.faults) + if failed then 1 else 0
      decreases |rest| + if failed then 0 else 1
    {
      var written;
      ghost var before := |whole| - |rest|;
      written, failed := conn.Write(rest);
      assert whole[..before] + rest[..written] == whole[..before + written];
      if written == 0 && !failed {
        failed := true;
        break;
      }
      rest := rest[written..];
    }
    ok := !failed && |rest| == 0;
    if ok {
      assert whole[..|whole|] == whole;
    }
  }
}
