/** The two accounts of `do_reads` agree: when one worker runs undisturbed, the step system takes
    it through exactly the effect of the sequential call. */
module RouterSolo {
  import opened Text
  import opened Transport
  import opened Registry
  import opened RouterSystem
  import opened RouterCore
  import M = RouterMessage
  import C = RouterCalls

  ghost predicate Looping(s: System, t: nat, sock: int, h: nat) {
    t < |s.workers| && s.workers[t] == ReadLoop(sock, h, h)
  }

  ghost function IoOf(s: System, sock: int): C.Io
    requires sock in s.conns
  {
    C.Io(s.reg, s.conns[sock].rest, s.writeQ)
  }

  /** Where a worker stands after a turn that reported `code`. */
  function After(code: int, sock: int, h: nat): Pc {
    if code > 0 then ReadLoop(sock, h, h) else if code == 0 then ReadUnlock(h) else ReadRemove(sock, h)
  }

  /** What a reader in its loop leaves alone: mutexes, listener, read queue, and the writers'
      record. */
  ghost predicate Beside(s: System, s': System) {
    && s'.locks == s.locks && s'.listener == s.listener && s'.open == s.open && s'.readQ == s.readQ
    && s'.log.popped == s.log.popped && s'.log.done == s.log.done
  }

  ghost predicate Turned(s: System, s': System, t: nat, sock: int, h: nat, io: C.Io, code: int) {
    && t < |s.workers| && s'.workers == s.workers[t := After(code, sock, h)]
    && sock in s'.conns && IoOf(s', sock) == io && Beside(s, s')
  }

  lemma LoopEnabled(s: System, t: nat, sock: int, h: nat)
    requires Core(s) && Looping(s, t, sock, h)
    ensures s.reg.Typed() && sock in s.conns && h < |s.reg.cells| && FindBySocket(s.reg, sock) == Ref(h)
    ensures Enabled(s, Work(t, true))
    ensures Apply(s, Work(t, true)) == Receive(s, t, sock, h, h)
  {
    assert PcOk(s.reg, s.workers[t]);
  }

  /** The read of a turn. */
  lemma ReadApplies(s: System, t: nat, sock: int, h: nat)
    requires t < |s.workers| && sock in s.conns && h < |s.reg.cells|
    ensures var want := if s.reg.cells[h].id != NONE then FRAME_SIZE else ID_SIZE;
      var r := ReadN(s.conns[sock].rest, want);
      var s1 := Receive(s, t, sock, h, h);
      && sock in s1.conns && IoOf(s1, sock) == C.Io(s.reg, r.rest, s.writeQ) && Beside(s, s1)
      && r.code <= want && (r.code == want ==> |r.got| == want)
      && (r.code != want ==> s1.workers == s.workers[t := After(r.code, sock, h)])
      && (r.code == want == ID_SIZE ==> s1.workers == s.workers[t := ReadClaim(sock, h, h, r.got)])
      && (r.code == want == FRAME_SIZE ==> s1.workers == s.workers[t := ReadRoute(sock, h, h, r.got)])
  {
    ReadNConsumes(s.conns[sock].rest, if s.reg.cells[h].id != NONE then FRAME_SIZE else ID_SIZE);
    hide ReadN;
  }

  lemma ClaimApplies(s: System, t: nat, sock: int, h: nat, b: seq<Byte>)
    requires t < |s.workers| && s.workers[t] == ReadClaim(sock, h, h, b) && s.reg.Typed() && sock in s.conns
    ensures Enabled(s, Work(t, true))
    ensures var q := Apply(s, Work(t, true));
      && q.workers == s.workers[t := ReadLoop(sock, h, h)] && sock in q.conns && Beside(s, q)
      && IoOf(q, sock) == IoOf(s, sock).(reg := AddNode(s.reg, sock, M.IdOf(b)))
  {
    hide AddNode, M.IdOf;
  }

  /** A turn while the session has no id: read, then register. */
  lemma HandshakeTurn(s: System, t: nat, sock: int, h: nat) returns (steps: seq<Step>)
    requires Core(s) && Looping(s, t, sock, h)
    requires sock in s.conns && s.reg.Typed() && h < |s.reg.cells| && s.reg.cells[h].id == NONE
    ensures ValidRun(s, steps)
    ensures var (io, code) := C.Handshake(IoOf(s, sock), sock);
      Turned(s, Run(s, steps), t, sock, h, io, code)
  {
    var step := Work(t, true);
    LoopEnabled(s, t, sock, h);
    ReadApplies(s, t, sock, h);
    var s1 := Receive(s, t, sock, h, h);
    var r := ReadN(s.conns[sock].rest, ID_SIZE);
    hide Core, Apply, Enabled, Receive, Run, ValidRun, ReadN, M.IdOf, AddNode, Registry.Typed;
    if r.code == ID_SIZE {
      ClaimApplies(s1, t, sock, h, r.got);
      RunTwo(s, step, step);
      steps := [step, step];
      assert s1.workers[t := After(ID_SIZE, sock, h)] == s.workers[t := After(ID_SIZE, sock, h)];
    } else {
      RunOne(s, step);
      steps := [step];
    }
  }

  /** A turn of a registered session: read, look up, forward. */
  lemma MessageTurn(s: System, t: nat, sock: int, h: nat) returns (steps: seq<Step>)
    requires Core(s) && Looping(s, t, sock, h)
    requires sock in s.conns && s.reg.Typed() && h < |s.reg.cells| && s.reg.cells[h].id != NONE
    ensures ValidRun(s, steps)
    ensures var (io, code) := C.Message(IoOf(s, sock), sock);
      Turned(s, Run(s, steps), t, sock, h, io, code)
  {
    var step := Work(t, true);
    LoopEnabled(s, t, sock, h);
    ReadApplies(s, t, sock, h);
    var s1 := Receive(s, t, sock, h, h);
    var r := ReadN(s.conns[sock].rest, FRAME_SIZE);
    hide Core, Apply, Enabled, Receive, Run, ValidRun, ReadN, M.DstOf, Registry.Typed, FindById;
    RunOne(s, step);
    if r.code == FRAME_SIZE {
      var more := FrameRouted(s1, t, sock, h, r.got);
      RunAppend(s, [step], more);
      steps := [step] + more;
      assert s1.workers[t := After(0, sock, h)] == s.workers[t := After(0, sock, h)];
      assert s1.workers[t := After(FRAME_SIZE, sock, h)] == s.workers[t := After(FRAME_SIZE, sock, h)];
    } else {
      steps := [step];
    }
  }

  lemma FrameRouted(s: System, t: nat, sock: int, h: nat, frame: Frame) returns (steps: seq<Step>)
    requires t < |s.workers| && s.workers[t] == ReadRoute(sock, h, h, frame) && s.reg.Typed() && sock in s.conns
    ensures ValidRun(s, steps)
    ensures match FindById(s.reg, M.DstOf(frame))
      case Null => Turned(s, Run(s, steps), t, sock, h, IoOf(s, sock), 0)
      case Ref(d) =>
        && d < |s.reg.cells|
        && var io := IoOf(s, sock).(writeQ := s.writeQ + [Task(s.reg.cells[d].socket, frame)]);
           Turned(s, Run(s, steps), t, sock, h, io, FRAME_SIZE)
  {
    RouteTurn(s, t, sock, h, frame);
    hide Run, ValidRun, M.DstOf, Registry.Typed, FindById;
    var step := Work(t, true);
    steps := if FindById(s.reg, M.DstOf(frame)).Ref? then [step, step] else [step];
  }

  lemma RouteTurn(s: System, t: nat, sock: int, h: nat, frame: Frame)
    requires t < |s.workers| && s.workers[t] == ReadRoute(sock, h, h, frame) && s.reg.Typed()
    ensures var step := Work(t, true);
      match FindById(s.reg, M.DstOf(frame))
      case Null =>
        && ValidRun(s, [step])
        && var q := Run(s, [step]);
           && q.workers == s.workers[t := ReadUnlock(h)] && Beside(s, q)
           && q.reg == s.reg && q.conns == s.conns && q.writeQ == s.writeQ
      case Ref(d) =>
        && ValidRun(s, [step, step]) && d < |s.reg.cells|
        && var q := Run(s, [step, step]);
           && q.workers == s.workers[t := ReadLoop(sock, h, h)] && Beside(s, q)
           && q.reg == s.reg && q.conns == s.conns
           && q.writeQ == s.writeQ + [Task(s.reg.cells[d].socket, frame)]
  {
    hide M.DstOf;
    var step := Work(t, true);
    if FindById(s.reg, M.DstOf(frame)).Ref? {
      var d := FindById(s.reg, M.DstOf(frame)).handle;
      RouteApplies(s, t, sock, h, frame);
      var s1 := Apply(s, step);
      ForwardApplies(s1, t, sock, h, frame, d);
      hide Apply, Enabled, Run, ValidRun;
      RunTwo(s, step, step);
      assert s.workers[t := s1.workers[t]][t := ReadLoop(sock, h, h)] == s.workers[t := ReadLoop(sock, h, h)];
    } else {
      RunOne(s, step);
      hide Run, ValidRun;
    }
  }

  lemma RouteApplies(s: System, t: nat, sock: int, h: nat, frame: Frame)
    requires t < |s.workers| && s.workers[t] == ReadRoute(sock, h, h, frame) && s.reg.Typed()
    requires FindById(s.reg, M.DstOf(frame)).Ref?
    ensures Enabled(s, Work(t, true))
    ensures Apply(s, Work(t, true)) ==
      s.(workers := s.workers[t := ReadForward(sock, h, h, frame, FindById(s.reg, M.DstOf(frame)).handle)])
  {
    hide M.DstOf;
  }

  lemma ForwardApplies(s: System, t: nat, sock: int, h: nat, frame: Frame, d: nat)
    requires t < |s.workers| && s.workers[t] == ReadForward(sock, h, h, frame, d)
    requires s.reg.Typed() && d < |s.reg.cells|
    ensures Enabled(s, Work(t, true))
    ensures var q := Apply(s, Work(t, true));
      && q.workers == s.workers[t := ReadLoop(sock, h, h)] && q.reg == s.reg && q.conns == s.conns
      && Beside(s, q)
      && q.writeQ == s.writeQ + [Task(s.reg.cells[d].socket, frame)]
  {
  }

  lemma RemovalTurn(s: System, t: nat, sock: int, h: nat)
    requires t < |s.workers| && s.workers[t] == ReadRemove(sock, h) && s.reg.Typed()
    ensures ValidRun(s, [Work(t, true)])
    ensures var q := Run(s, [Work(t, true)]);
      && q.workers == s.workers[t := ReadUnlock(h)] && q.reg == Remove(s.reg, sock)
      && q.conns == s.conns && q.writeQ == s.writeQ && Beside(s, q)
  {
    RunOne(s, Work(t, true));
    hide Run, ValidRun, Remove;
  }

  lemma OneTurn(s: System, t: nat, sock: int, h: nat) returns (steps: seq<Step>)
    requires Core(s) && Looping(s, t, sock, h)
    ensures sock in s.conns && s.reg.Typed() && h < |s.reg.cells| && ValidRun(s, steps)
    ensures var (io, code) := C.Turn(IoOf(s, sock), sock, h);
      Turned(s, Run(s, steps), t, sock, h, io, code)
  {
    LoopEnabled(s, t, sock, h);
    hide Run, ValidRun, C.Message, C.Handshake, Turned;
    if s.reg.cells[h].id == NONE {
      steps := HandshakeTurn(s, t, sock, h);
    } else {
      steps := MessageTurn(s, t, sock, h);
    }
  }

  /** From the head of the loop, a worker that is left alone reaches the release of the mutex with
      registry, stream and write queue as the sequential loop leaves them; the other workers
      have not moved, and mutexes, listener, read queue and the writers' record are as they were. */
  lemma {:induction false} LoopRefinesDrain(s: System, t: nat, sock: int, h: nat) returns (steps: seq<Step>)
    requires Core(s) && Looping(s, t, sock, h)
    ensures sock in s.conns && s.reg.Typed() && h < |s.reg.cells| && ValidRun(s, steps)
    ensures var q := Run(s, steps);
      && q.workers == s.workers[t := ReadUnlock(h)] && Beside(s, q)
      && sock in q.conns && IoOf(q, sock) == C.Drain(IoOf(s, sock), sock, h).0
    decreases if sock in s.conns then |Stream(s.conns[sock].rest)| else 0
  {
    LoopEnabled(s, t, sock, h);
    var io := IoOf(s, sock);
    C.TurnConsumes(io, sock, h);
    var first := OneTurn(s, t, sock, h);
    RunKeepsCore(s, first);
    var s1 := Run(s, first);
    var (io1, code) := C.Turn(io, sock, h);
    hide Core, Run, ValidRun, C.Turn, Stream, Enabled, Apply, Receive;
    if code > 0 {
      var rest := LoopRefinesDrain(s1, t, sock, h);
      RunAppend(s, first, rest);
      steps := first + rest;
      assert s1.workers[t := ReadUnlock(h)] == s.workers[t := ReadUnlock(h)];
    } else if code == SOCKET_ERROR {
      assert s1.workers[t] == ReadRemove(sock, h);
      RemovalTurn(s1, t, sock, h);
      RunAppend(s, first, [Work(t, true)]);
      steps := first + [Work(t, true)];
      assert s1.workers[t := ReadUnlock(h)] == s.workers[t := ReadUnlock(h)];
    } else {
      steps := first;
    }
  }

  // ---------------------------------------------------------------- a reader from pop to pop

  /** What one call of `do_reads` does when nobody interferes. */
  ghost predicate ReadDone(s: System, q: System) {
    && s.readQ != [] && q.workers == s.workers && Beside(s.(readQ := s.readQ[1..]), q)
    && var sock := s.readQ[0];
       match FindBySocket(s.reg, sock)
       case Null => q == s.(readQ := s.readQ[1..])
       case Ref(h) =>
         && sock in s.conns && sock in q.conns && s.reg.Typed() && h < |s.reg.cells|
         && IoOf(q, sock) == C.Drain(IoOf(s, sock), sock, h).0
  }

  lemma PopsSocket(s: System, t: nat)
    requires s.reg.Typed() && t < |s.workers| && s.workers[t] == ReadIdle && s.readQ != []
    ensures Enabled(s, Work(t, true))
    ensures Apply(s, Work(t, true)) == s.(readQ := s.readQ[1..], workers := s.workers[t := ReadLookup(s.readQ[0])])
  {
  }

  lemma LooksUpSocket(s: System, t: nat, sock: int)
    requires s.reg.Typed() && t < |s.workers| && s.workers[t] == ReadLookup(sock)
    ensures Enabled(s, Work(t, true))
    ensures Apply(s, Work(t, true)) ==
      match FindBySocket(s.reg, sock)
      case Null => s.(workers := s.workers[t := ReadIdle])
      case Ref(h) => s.(workers := s.workers[t := ReadWant(sock, h)])
  {
  }

  lemma LocksSession(s: System, t: nat, sock: int, h: nat)
    requires s.reg.Typed() && t < |s.workers| && s.workers[t] == ReadWant(sock, h) && h !in s.locks
    ensures Enabled(s, Work(t, true))
    ensures Apply(s, Work(t, true)) == s.(locks := s.locks[h := t], workers := s.workers[t := ReadCheck(sock, h)])
  {
  }

  /** The lookup repeated under the mutex. */
  lemma ChecksSession(s: System, t: nat, sock: int, h: nat)
    requires s.reg.Typed() && t < |s.workers| && s.workers[t] == ReadCheck(sock, h)
    ensures Enabled(s, Work(t, true))
    ensures Apply(s, Work(t, true)) ==
      match FindBySocket(s.reg, sock)
      case Null => s.(workers := s.workers[t := ReadUnlock(h)])
      case Ref(x) => s.(workers := s.workers[t := ReadLoop(sock, h, x)])
  {
  }

  lemma UnlocksSession(s: System, t: nat, h: nat)
    requires s.reg.Typed() && t < |s.workers| && s.workers[t] == ReadUnlock(h)
    ensures Enabled(s, Work(t, true))
    ensures Apply(s, Work(t, true)) == s.(locks := s.locks - {h}, workers := s.workers[t := ReadIdle])
  {
  }

  /** From the lookup to the head of the loop. */
  lemma ComesToLoop(s: System, t: nat, sock: int, h: nat)
    requires s.reg.Typed() && t < |s.workers| && s.workers[t] == ReadLookup(sock)
    requires FindBySocket(s.reg, sock) == Ref(h) && h !in s.locks
    ensures var steps := [Work(t, true), Work(t, true)] + [Work(t, true)];
      && ValidRun(s, steps)
      && Run(s, steps) == s.(locks := s.locks[h := t], workers := s.workers[t := ReadLoop(sock, h, h)])
  {
    hide Apply, Enabled, Run, ValidRun, Registry.Typed, FindBySocket;
    var step := Work(t, true);
    LooksUpSocket(s, t, sock);
    var s1 := Apply(s, step);
    LocksSession(s1, t, sock, h);
    var s2 := Apply(s1, step);
    ChecksSession(s2, t, sock, h);
    RunTwo(s, step, step);
    RunOne(s2, step);
    RunAppend(s, [step, step], [step]);
    assert s.workers[t := ReadWant(sock, h)][t := ReadCheck(sock, h)][t := ReadLoop(sock, h, h)]
      == s.workers[t := ReadLoop(sock, h, h)];
  }

  /** A reader that is left alone, with a socket to read whose session is free or gone, comes back
      to `pop` and has done exactly what the sequential call does. */
  lemma ReaderRefinesDoReads(s: System, t: nat) returns (steps: seq<Step>)
    requires Core(s) && t < |s.workers| && s.workers[t] == ReadIdle && s.readQ != []
    requires forall h :: FindBySocket(s.reg, s.readQ[0]) == Ref(h) ==> h !in s.locks
    ensures ValidRun(s, steps) && ReadDone(s, Run(s, steps))
  {
    var step, sock := Work(t, true), s.readQ[0];
    TypedRegistry(s);
    PopsSocket(s, t);
    RunOne(s, step);
    RunKeepsCore(s, [step]);
    var s1 := Apply(s, step);
    match FindBySocket(s.reg, sock)
    case Null =>
      LooksUpSocket(s1, t, sock);
      hide Core, Apply, Enabled, Run, ValidRun, Registry.Typed, FindBySocket;
      RunTwo(s, step, step);
      steps := [step, step];
      assert s.workers[t := ReadLookup(sock)][t := ReadIdle] == s.workers;
    case Ref(h) =>
      hide Core, Apply, Enabled, Run, ValidRun, Registry.Typed, FindBySocket, C.Drain;
      var rest := ServesSocket(s1, t, sock, h);
      RunAppend(s, [step], rest);
      steps := [step] + rest;
      assert s.workers[t := ReadLookup(sock)][t := ReadIdle] == s.workers;
  }

  lemma TypedRegistry(s: System)
    requires Core(s)
    ensures s.reg.Typed()
  {
  }

  lemma ServesSocket(s: System, t: nat, sock: int, h: nat) returns (steps: seq<Step>)
    requires Core(s) && s.reg.Typed() && t < |s.workers| && s.workers[t] == ReadLookup(sock)
    requires FindBySocket(s.reg, sock) == Ref(h) && h !in s.locks
    ensures ValidRun(s, steps) && sock in s.conns && h < |s.reg.cells|
    ensures var q := Run(s, steps);
      && q.workers == s.workers[t := ReadIdle] && Beside(s, q)
      && sock in q.conns && IoOf(q, sock) == C.Drain(IoOf(s, sock), sock, h).0
  {
    hide Core, Apply, Enabled, Run, ValidRun, Registry.Typed, FindBySocket, C.Drain;
    var step := Work(t, true);
    var approach := [step, step] + [step];
    ComesToLoop(s, t, sock, h);
    RunKeepsCore(s, approach);
    var s1 := Run(s, approach);
    var loop := LoopRefinesDrain(s1, t, sock, h);
    RunKeepsCore(s1, loop);
    var s2 := Run(s1, loop);
    TypedRegistry(s2);
    UnlocksSession(s2, t, h);
    RunOne(s2, step);
    RunAppend(s1, loop, [step]);
    RunAppend(s, approach, loop + [step]);
    steps := approach + (loop + [step]);
    assert s1.workers[t := ReadUnlock(h)][t := ReadIdle] == s.workers[t := ReadIdle];
    assert s.locks[h := t] - {h} == s.locks;
  }

  // ---------------------------------------------------------------- a writer from pop to pop

  /** What one call of `do_writes` does when nobody interferes: the whole new state. */
  ghost function WriteDone(s: System, bytesSent: int): System
    requires s.reg.Typed() && s.writeQ != []
  {
    var task := s.writeQ[0];
    var (reg, fate) := C.Deliver(s.reg, task, bytesSent);
    s.(reg := reg, writeQ := s.writeQ[1..],
       log := s.log.(popped := s.log.popped + [task], done := s.log.done + [Done(task, fate)]))
  }

  lemma PopsTask(s: System, t: nat, ok: bool)
    requires s.reg.Typed() && t < |s.workers| && s.workers[t] == WriteIdle && s.writeQ != []
    ensures Enabled(s, Work(t, ok))
    ensures Apply(s, Work(t, ok)) ==
      s.(writeQ := s.writeQ[1..], log := s.log.(popped := s.log.popped + [s.writeQ[0]]),
         workers := s.workers[t := WriteLookup(s.writeQ[0])])
  {
  }

  lemma LooksUpTask(s: System, t: nat, ok: bool, task: Task)
    requires s.reg.Typed() && t < |s.workers| && s.workers[t] == WriteLookup(task)
    ensures Enabled(s, Work(t, ok))
    ensures Apply(s, Work(t, ok)) ==
      match FindBySocket(s.reg, task.socket)
      case Null =>
        s.(log := s.log.(done := s.log.done + [Done(task, NoSession)]), workers := s.workers[t := WriteIdle])
      case Ref(h) => s.(workers := s.workers[t := WriteWant(task, h)])
  {
  }

  lemma LocksTarget(s: System, t: nat, ok: bool, task: Task, h: nat)
    requires s.reg.Typed() && t < |s.workers| && s.workers[t] == WriteWant(task, h) && h !in s.locks
    ensures Enabled(s, Work(t, ok))
    ensures Apply(s, Work(t, ok)) == s.(locks := s.locks[h := t], workers := s.workers[t := WriteSend(task, h)])
  {
  }

  lemma Sends(s: System, t: nat, ok: bool, task: Task, h: nat)
    requires s.reg.Typed() && t < |s.workers| && s.workers[t] == WriteSend(task, h)
    ensures Enabled(s, Work(t, ok))
    ensures Apply(s, Work(t, ok)) ==
      if ok then
        s.(log := s.log.(done := s.log.done + [Done(task, Sent)]), workers := s.workers[t := WriteUnlock(h)])
      else
        s.(log := s.log.(done := s.log.done + [Done(task, SendFailed)]), workers := s.workers[t := WriteRemove(task, h)])
  {
  }

  lemma RemovesTarget(s: System, t: nat, ok: bool, task: Task, h: nat)
    requires s.reg.Typed() && t < |s.workers| && s.workers[t] == WriteRemove(task, h) && Owns(s.reg, task.socket, h)
    ensures Enabled(s, Work(t, ok))
    ensures Apply(s, Work(t, ok)) ==
      s.(reg := Remove(s.reg, task.socket), workers := s.workers[t := WriteUnlock(h)])
  {
    hide Remove;
  }

  lemma UnlocksTarget(s: System, t: nat, ok: bool, h: nat)
    requires s.reg.Typed() && t < |s.workers| && s.workers[t] == WriteUnlock(h)
    ensures Enabled(s, Work(t, ok))
    ensures Apply(s, Work(t, ok)) == s.(locks := s.locks - {h}, workers := s.workers[t := WriteIdle])
  {
  }

  /** From the lookup to the send. */
  lemma ComesToSend(s: System, t: nat, ok: bool, task: Task, h: nat)
    requires s.reg.Typed() && t < |s.workers| && s.workers[t] == WriteLookup(task)
    requires FindBySocket(s.reg, task.socket) == Ref(h) && h !in s.locks
    ensures var steps := [Work(t, ok), Work(t, ok)];
      && ValidRun(s, steps)
      && Run(s, steps) == s.(locks := s.locks[h := t], workers := s.workers[t := WriteSend(task, h)])
  {
    hide Apply, Enabled, Run, ValidRun, Registry.Typed, FindBySocket;
    LooksUpTask(s, t, ok, task);
    LocksTarget(Apply(s, Work(t, ok)), t, ok, task, h);
    RunTwo(s, Work(t, ok), Work(t, ok));
    assert s.workers[t := WriteWant(task, h)][t := WriteSend(task, h)] == s.workers[t := WriteSend(task, h)];
  }

  /** From the send back to `pop`, through the removal when the send has failed. */
  lemma SendEnds(s: System, t: nat, ok: bool, task: Task, h: nat) returns (steps: seq<Step>)
    requires s.reg.Typed() && t < |s.workers| && s.workers[t] == WriteSend(task, h) && Owns(s.reg, task.socket, h)
    ensures ValidRun(s, steps)
    ensures Run(s, steps) ==
      s.(reg := if ok then s.reg else Remove(s.reg, task.socket), locks := s.locks - {h},
         log := s.log.(done := s.log.done + [Done(task, if ok then Sent else SendFailed)]),
         workers := s.workers[t := WriteIdle])
  {
    var step := Work(t, ok);
    RemovalTyped(s.reg, task.socket);
    hide Apply, Enabled, Run, ValidRun, Registry.Typed, Remove;
    Sends(s, t, ok, task, h);
    var s1 := Apply(s, step);
    if ok {
      UnlocksTarget(s1, t, ok, h);
      RunTwo(s, step, step);
      steps := [step, step];
      assert s.workers[t := WriteUnlock(h)][t := WriteIdle] == s.workers[t := WriteIdle];
    } else {
      RemovesTarget(s1, t, ok, task, h);
      var s2 := Apply(s1, step);
      UnlocksTarget(s2, t, ok, h);
      RunOne(s, step);
      RunTwo(s1, step, step);
      RunAppend(s, [step], [step, step]);
      steps := [step] + [step, step];
      assert s.workers[t := WriteRemove(task, h)][t := WriteUnlock(h)][t := WriteIdle] == s.workers[t := WriteIdle];
    }
  }

  lemma RemovalTyped(r: Registry, s: int)
    requires r.Typed()
    ensures Remove(r, s).Typed() && Remove(r, s).cells == r.cells
  {
  }

  /** The call from the lookup on. */
  lemma TaskServed(s: System, t: nat, bytesSent: int, task: Task) returns (steps: seq<Step>)
    requires Core(s) && s.reg.Typed() && t < |s.workers| && s.workers[t] == WriteLookup(task)
    requires forall h :: FindBySocket(s.reg, task.socket) == Ref(h) ==> h !in s.locks
    ensures ValidRun(s, steps)
    ensures var (reg, fate) := C.Deliver(s.reg, task, bytesSent);
      Run(s, steps) == s.(reg := reg, workers := s.workers[t := WriteIdle],
                          log := s.log.(done := s.log.done + [Done(task, fate)]))
  {
    var ok := bytesSent == FRAME_SIZE;
    var step := Work(t, ok);
    if task.socket !in s.reg.bySocket {
      LooksUpTask(s, t, ok, task);
      hide Core, Apply, Enabled, Run, ValidRun, Registry.Typed, Remove;
      RunOne(s, step);
      steps := [step];
    } else {
      var h := s.reg.bySocket[task.socket];
      assert FindBySocket(s.reg, task.socket) == Ref(h);
      OwnerFound(s, task.socket, h);
      hide Core, Apply, Enabled, Run, ValidRun, Registry.Typed, Remove, FindBySocket;
      ComesToSend(s, t, ok, task, h);
      var s1 := Run(s, [step, step]);
      var rest := SendEnds(s1, t, ok, task, h);
      RunAppend(s, [step, step], rest);
      steps := [step, step] + rest;
      assert s.workers[t := WriteSend(task, h)][t := WriteIdle] == s.workers[t := WriteIdle];
      assert s.locks[h := t] - {h} == s.locks;
    }
  }

  /** A writer that is left alone, with a task whose session is free or gone, comes back to `pop`,
      and the state is exactly what the sequential call makes of it: for a complete send, a failed
      one, and a session that is not there. */
  lemma WriterRefinesDoWrites(s: System, t: nat, bytesSent: int) returns (steps: seq<Step>)
    requires Core(s) && t < |s.workers| && s.workers[t] == WriteIdle && s.writeQ != []
    requires forall h :: FindBySocket(s.reg, s.writeQ[0].socket) == Ref(h) ==> h !in s.locks
    ensures s.reg.Typed() && ValidRun(s, steps) && Run(s, steps) == WriteDone(s, bytesSent)
  {
    var step, task := Work(t, true), s.writeQ[0];
    TypedRegistry(s);
    hide Core, Apply, Enabled, Run, ValidRun, Registry.Typed, FindBySocket, C.Deliver;
    PopsTask(s, t, true);
    RunOne(s, step);
    RunKeepsCore(s, [step]);
    var s1 := Apply(s, step);
    var rest := TaskServed(s1, t, bytesSent, task);
    RunAppend(s, [step], rest);
    steps := [step] + rest;
    assert s.workers[t := WriteLookup(task)][t := WriteIdle] == s.workers;
  }

  lemma OwnerFound(s: System, sock: int, h: nat)
    requires Core(s) && FindBySocket(s.reg, sock) == Ref(h)
    ensures Owns(s.reg, sock, h) && sock in s.reg.bySocket
  {
  }
}
