/** The calls a worker makes, in the source's own form: loops and objects updated in place. Each
    method is proved against a function on values, and that function is what the step system
    does when one worker runs undisturbed. */
module RouterCalls {
  import opened Text
  import opened Transport
  import R = Registry
  import O = SessionsObject
  import Q = SignalingQueue
  import M = RouterMessage
  import opened RouterSystem

  const RECV_BUFF_SIZE := 32 * 3000

  /** What a reader works on while it holds a session's mutex. */
  datatype Io = Io(reg: R.Registry, tape: Tape, writeQ: seq<Task>)

  // ---------------------------------------------------------------- the calls as functions

  function Handshake(io: Io, sock: int): (Io, int)
    requires io.reg.Typed()
  {
    var r := ReadN(io.tape, ID_SIZE);
    var io1 := io.(tape := r.rest);
    if r.code == ID_SIZE then (io1.(reg := R.AddNode(io.reg, sock, M.IdOf(r.got))), r.code)
    else (io1, r.code)
  }

  function Message(io: Io, sock: int): (Io, int)
    requires io.reg.Typed()
  {
    var r := ReadN(io.tape, FRAME_SIZE);
    ReadNConsumes(io.tape, FRAME_SIZE);
    var io1 := io.(tape := r.rest);
    if r.code == FRAME_SIZE then
      match R.FindById(io.reg, M.DstOf(r.got))
      case Null => (io1, 0)
      case Ref(d) => (io1.(writeQ := io.writeQ + [Task(io.reg.cells[d].socket, r.got)]), r.code)
    else (io1, r.code)
  }

  /** One turn of the loop: which message is expected depends on whether the session has an id. */
  function Turn(io: Io, sock: int, h: nat): (Io, int)
    requires io.reg.Typed() && h < |io.reg.cells|
  {
    if io.reg.cells[h].id == R.NONE then Handshake(io, sock) else Message(io, sock)
  }

  /** A turn that reports bytes has taken some; that is why the loop ends. */
  lemma TurnConsumes(io: Io, sock: int, h: nat)
    requires io.reg.Typed() && h < |io.reg.cells|
    ensures var (io1, code) := Turn(io, sock, h);
      && io1.reg.Typed() && |io1.reg.cells| == |io.reg.cells|
      && -1 <= code
      && (code > 0 ==> |Stream(io1.tape)| < |Stream(io.tape)|)
  {
    var n := if io.reg.cells[h].id == R.NONE then ID_SIZE else FRAME_SIZE;
    ReadNConsumes(io.tape, n);
    hide ReadN, Stream, M.IdOf, M.DstOf;
  }

  /** The loop of `do_reads`, with the code it ended on. */
  function Drain(io: Io, sock: int, h: nat): (r: (Io, int))
    requires io.reg.Typed() && h < |io.reg.cells|
    ensures r.0.reg.Typed()
    ensures r.1 == 0 || r.1 == SOCKET_ERROR
    decreases |Stream(io.tape)|
  {
    TurnConsumes(io, sock, h);
    var (io1, code) := Turn(io, sock, h);
    if code > 0 then Drain(io1, sock, h)
    else if code == SOCKET_ERROR then (io1.(reg := R.Remove(io1.reg, sock)), code)
    else (io1, code)
  }

  /** `b` is what is left of `a` when bytes have been taken from its front. */
  predicate EndOf(b: Bytes, a: Bytes) { |b| <= |a| && b == a[|a| - |b|..] }

  lemma EndOfEnd(c: Bytes, b: Bytes, a: Bytes)
    requires EndOf(c, b) && EndOf(b, a)
    ensures EndOf(c, a)
  {
  }

  /** If the loop ends in an error the socket is gone from both views; if it ends quietly the
      socket has its session still. Bytes are only ever taken from the front of the stream, and
      tasks only ever added to the back of the queue. */
  lemma {:induction false} DrainOutcome(io: Io, sock: int, h: nat)
    requires R.Consistent(io.reg) && R.FindBySocket(io.reg, sock) == R.Ref(h)
    ensures var (out, code) := Drain(io, sock, h);
      && R.Consistent(out.reg)
      && (code == SOCKET_ERROR ==> sock !in out.reg.bySocket && sock !in out.reg.accepted)
      && (code == 0 ==> R.FindBySocket(out.reg, sock) == R.Ref(h) && out.reg.bySocket == io.reg.bySocket)
      && io.writeQ <= out.writeQ
      && EndOf(Stream(out.tape), Stream(io.tape))
    decreases |Stream(io.tape)|
  {
    TurnConsumes(io, sock, h);
    TurnOutcome(io, sock, h);
    var (io1, code) := Turn(io, sock, h);
    hide Turn, Stream, R.Consistent, EndOf;
    if code > 0 {
      DrainOutcome(io1, sock, h);
      EndOfEnd(Stream(Drain(io1, sock, h).0.tape), Stream(io1.tape), Stream(io.tape));
    } else if code == SOCKET_ERROR {
      R.RemoveKeeps(io1.reg, sock);
    }
  }

  lemma TurnOutcome(io: Io, sock: int, h: nat)
    requires R.Consistent(io.reg) && R.FindBySocket(io.reg, sock) == R.Ref(h)
    ensures var (io1, code) := Turn(io, sock, h);
      && R.Consistent(io1.reg) && R.FindBySocket(io1.reg, sock) == R.Ref(h)
      && io1.reg.bySocket == io.reg.bySocket
      && io.writeQ <= io1.writeQ
      && EndOf(Stream(io1.tape), Stream(io.tape))
  {
    var n := if io.reg.cells[h].id == R.NONE then ID_SIZE else FRAME_SIZE;
    ReadNConsumes(io.tape, n);
    var r := ReadN(io.tape, n);
    if n == ID_SIZE && r.code == ID_SIZE { R.FirstClaim(io.reg, sock, M.IdOf(r.got)); }
    hide ReadN, Stream, M.IdOf, M.DstOf;
  }

  /** `do_writes` as a function of what `send` reports: the registry it leaves and how the task
      ends. */
  function Deliver(reg: R.Registry, task: Task, bytesSent: int): (R.Registry, Fate)
    requires reg.Typed()
  {
    if task.socket !in reg.bySocket then (reg, NoSession)
    else if bytesSent == FRAME_SIZE then (reg, Sent)
    else (R.Remove(reg, task.socket), SendFailed)
  }

  // ---------------------------------------------------------------- the calls as methods

  /** The buffer is terminated behind the id message and parsed as a string. */
  method ParseId(recvBuffer: array<Byte>, ghost got: Bytes) returns (id: int)
    requires recvBuffer.Length == RECV_BUFF_SIZE && |got| == ID_SIZE && recvBuffer[..ID_SIZE] == got
    modifies recvBuffer
    ensures id == M.IdOf(got)
  {
    recvBuffer[ID_SIZE] := NUL;
    ghost var stale := recvBuffer[ID_SIZE + 1..];
    assert recvBuffer[..] == got + [NUL] + stale;
    M.SrcParseIsSliceParse(got, stale);
    id := M.ExtractSrcId(recvBuffer[..], ID_SIZE).id;
  }

  /** The buffer is terminated behind the frame and parsed from the destination field on. */
  method ParseDestination(recvBuffer: array<Byte>, ghost got: Frame) returns (id: int)
    requires recvBuffer.Length == RECV_BUFF_SIZE && recvBuffer[..FRAME_SIZE] == got
    modifies recvBuffer
    ensures id == M.DstOf(got) && recvBuffer[..FRAME_SIZE] == got
  {
    recvBuffer[FRAME_SIZE] := NUL;
    ghost var stale := recvBuffer[FRAME_SIZE + 1..];
    assert recvBuffer[..] == got + [NUL] + stale;
    M.DstParseIsSliceParse(got, stale);
    id := M.ExtractDstId(recvBuffer[..], FRAME_SIZE).id;
  }

  class Router {
    const sessions: O.Sessions
    const writeQueue: Q.Queue<Task>

    constructor (sessions: O.Sessions, writeQueue: Q.Queue<Task>)
      ensures this.sessions == sessions && this.writeQueue == writeQueue
    {
      this.sessions := sessions;
      this.writeQueue := writeQueue;
    }

    ghost function View(client: Connection): Io
      reads this, sessions, sessions.all, writeQueue, client
      requires sessions.Valid()
    {
      Io(sessions.View(), client.tape, writeQueue.items)
    }

    /** `forward`. */
    method Forward(dstSession: O.Session, msg: Frame)
      modifies writeQueue
      ensures writeQueue.items == old(writeQueue.items) + [Task(dstSession.socket, msg)]
    {
      writeQueue.Push(Task(dstSession.socket, msg), false);
    }

    /** `handle_handshake`. */
    method HandleHandshake(socket: int, client: Connection, recvBuffer: array<Byte>) returns (bytesRead: int)
      requires sessions.Valid() && recvBuffer.Length == RECV_BUFF_SIZE
      modifies sessions, sessions.all, client, recvBuffer
      ensures sessions.Valid() && sessions.all == old(sessions.all)
      ensures (View(client), bytesRead) == Handshake(old(View(client)), socket)
    {
      ghost var before := View(client);
      ReadNConsumes(client.tape, ID_SIZE);
      hide ReadN, M.IdOf;
      bytesRead := ReadAsync(client, recvBuffer, ID_SIZE);
      assert sessions.View() == before.reg;
      if bytesRead == ID_SIZE {
        var srcId := ParseId(recvBuffer, ReadN(before.tape, ID_SIZE).got);
        sessions.AddNode(socket, srcId);
      }
    }

    /** The part of `process_message` behind a complete read. */
    method Dispatch(recvBuffer: array<Byte>, ghost got: Frame) returns (known: bool)
      requires sessions.Valid() && recvBuffer.Length == RECV_BUFF_SIZE && recvBuffer[..FRAME_SIZE] == got
      modifies recvBuffer, writeQueue
      ensures sessions.Valid() && sessions.View() == old(sessions.View())
      ensures known <==> R.FindById(sessions.View(), M.DstOf(got)).Ref?
      ensures !known ==> writeQueue.items == old(writeQueue.items)
      ensures known ==>
        var d := R.FindById(sessions.View(), M.DstOf(got)).handle;
        && d < |sessions.View().cells|
        && writeQueue.items == old(writeQueue.items) + [Task(sessions.View().cells[d].socket, got)]
    {
      hide M.DstOf, O.Sessions.Cells, O.Sessions.BySocket, O.Sessions.ById;
      var dstId := ParseDestination(recvBuffer, got);
      var dstSession := sessions.FindSessionById(dstId);
      known := dstSession != null;
      if known {
        Forward(dstSession, recvBuffer[..FRAME_SIZE]);
      }
    }

    /** `process_message`. */
    method ProcessMessage(socket: int, client: Connection, recvBuffer: array<Byte>) returns (bytesRead: int)
      requires sessions.Valid() && recvBuffer.Length == RECV_BUFF_SIZE
      modifies client, recvBuffer, writeQueue
      ensures sessions.Valid()
      ensures (View(client), bytesRead) == Message(old(View(client)), socket)
    {
      ghost var before := View(client);
      ReadNConsumes(client.tape, FRAME_SIZE);
      hide ReadN, M.DstOf;
      bytesRead := ReadAsync(client, recvBuffer, FRAME_SIZE);
      assert sessions.View() == before.reg;
      if bytesRead == FRAME_SIZE {
        hide O.Sessions.View, O.Sessions.Valid;
        var known := Dispatch(recvBuffer, ReadN(before.tape, FRAME_SIZE).got);
        if !known {
          return 0;
        }
      }
    }

    /** `do_reads` run to completion: the loop runs until a call reports no more bytes, and then removes the session
        if the last call reported an error. The lookup repeated under the mutex matters only
        between threads; the step system has it. */
    method DoReads(socket: int, client: Connection, recvBuffer: array<Byte>)
      requires sessions.Valid() && recvBuffer.Length == RECV_BUFF_SIZE
      modifies sessions, sessions.all, client, recvBuffer, writeQueue
      ensures sessions.Valid() && sessions.all == old(sessions.all)
      ensures match R.FindBySocket(old(View(client)).reg, socket)
        case Null => View(client) == old(View(client))
        case Ref(h) => h < |old(View(client)).reg.cells| && View(client) == Drain(old(View(client)), socket, h).0
    {
      hide Turn, Stream, O.Sessions.Cells, O.Sessions.BySocket, O.Sessions.ById;
      var srcSession := sessions.FindSessionBySocket(socket);
      if srcSession == null {
        return;
      }
      ghost var h := srcSession.handle;
      ghost var goal := Drain(View(client), socket, h);
      var bytesRead := 0;
      while true
        invariant sessions.Valid() && sessions.all == old(sessions.all)
        invariant h < |sessions.all| && sessions.all[h] == srcSession
        invariant Drain(View(client), socket, h) == goal
        decreases |Stream(client.tape)|
      {
        ghost var io := View(client);
        TurnConsumes(io, socket, h);
        var sessionId := srcSession.id;
        assert io.reg.cells[h].id == sessionId;
        if sessionId == R.NONE {
          bytesRead := HandleHandshake(socket, client, recvBuffer);
        } else {
          bytesRead := ProcessMessage(socket, client, recvBuffer);
        }
        assert (View(client), bytesRead) == Turn(io, socket, h) by { TurnIs(io, socket, h); }
        if bytesRead <= 0 { break; }
      }
      if bytesRead == SOCKET_ERROR {
        sessions.RemoveSession(socket);
      }
    }

    lemma TurnIs(io: Io, sock: int, h: nat)
      requires io.reg.Typed() && h < |io.reg.cells|
      ensures Turn(io, sock, h) == if io.reg.cells[h].id == R.NONE then Handshake(io, sock) else Message(io, sock)
    {
    }

    /** `do_writes`; `bytesSent` is what `send` is going to report. Whatever is not a complete send
        ends the session, so the third outcome the source logs cannot occur. */
    method DoWrites(task: Task, bytesSent: int) returns (fate: Fate)
      requires sessions.Valid()
      modifies sessions
      ensures sessions.Valid() && sessions.all == old(sessions.all)
      ensures fate == (if task.socket !in old(sessions.View()).bySocket then NoSession
                       else if bytesSent == |task.msg| then Sent else SendFailed)
      ensures fate != SendFailed ==> sessions.View() == old(sessions.View())
      ensures fate == SendFailed && R.SocketsAgree(old(sessions.View())) ==>
        sessions.View() == R.Remove(old(sessions.View()), task.socket)
      ensures R.SocketsAgree(old(sessions.View())) ==>
        (sessions.View(), fate) == Deliver(old(sessions.View()), task, bytesSent)
    {
      var dstSession := sessions.FindSessionBySocket(task.socket);
      if dstSession != null {
        var sentByte := SendToClient(|task.msg|, bytesSent);
        if sentByte == |task.msg| {
          fate := Sent;
        } else {
          fate := SendFailed;
          assert R.SocketsAgree(sessions.View()) ==> sessions.View().cells[dstSession.handle].socket == task.socket;
          sessions.RemoveSession(dstSession.socket);
        }
      } else {
        fate := NoSession;
      }
    }
  }
}
