/** The router as a step system: any number of reader and writer threads and one listener,
    interleaved at the granularity of critical sections. A worker is a program counter; the
    session mutexes are explicit, the registry and queue mutexes are taken and released inside
    one step. */
module RouterSystem {
  import opened Options
  import opened Text
  import opened Transport
  import opened Registry
  import M = RouterMessage
  import Q = SignalingQueue

  type Frame = f: Bytes | |f| == FRAME_SIZE witness Zeros(FRAME_SIZE)

  /** What a reader leaves for the writers: a socket and the bytes to send. */
  datatype Task = Task(socket: int, msg: Frame)

  /** Where a worker stands. `h` is the session whose mutex it is after or holds; `x` is the
      session found by the second lookup in `do_reads`. */
  datatype Pc =
    | ReadIdle
    | ReadLookup(sock: int)
    | ReadWant(sock: int, h: nat)
    | ReadCheck(sock: int, h: nat)
    | ReadLoop(sock: int, h: nat, x: nat)
    | ReadClaim(sock: int, h: nat, x: nat, idBytes: Bytes)
    | ReadRoute(sock: int, h: nat, x: nat, frame: Frame)
    | ReadForward(sock: int, h: nat, x: nat, frame: Frame, dst: nat)
    | ReadRemove(sock: int, h: nat)
    | ReadUnlock(h: nat)
    | WriteIdle
    | WriteLookup(task: Task)
    | WriteWant(task: Task, h: nat)
    | WriteSend(task: Task, h: nat)
    | WriteRemove(task: Task, h: nat)
    | WriteUnlock(h: nat)

  /** The event loop; `ListenStuck` is the accept that waits for its own mutex. */
  datatype ListenerPc =
    | ListenIdle
    | ListenSelect(snapshot: seq<int>)
    | ListenAccept(ready: seq<int>)
    | ListenPush(ready: seq<int>)
    | ListenStuck

  /** What `recv` reports on a socket over its whole life, and what is left of it. */
  datatype Conn = Conn(whole: Tape, rest: Tape)

  datatype Read = Read(src: int, frame: Frame)
  datatype Routed = Routed(src: int, frame: Frame, target: Option<int>)
  datatype Fate = Sent | SendFailed | NoSession
  datatype Done = Done(task: Task, fate: Fate)

  /** What has happened: frames read, what routing decided, tasks popped, how they ended. */
  datatype Log = Log(received: seq<Read>, routed: seq<Routed>, popped: seq<Task>, done: seq<Done>)

  datatype System = System(
    reg: Registry,
    locks: map<nat, nat>,
    workers: seq<Pc>,
    listener: ListenerPc,
    open: set<int>,
    conns: map<int, Conn>,
    readQ: seq<int>,
    writeQ: seq<Task>,
    log: Log)

  predicate Initial(s: System) {
    && s.reg == EMPTY && s.locks == map[] && s.listener == ListenIdle
    && s.conns == map[] && s.readQ == [] && s.writeQ == []
    && s.log == Log([], [], [], [])
    && forall t :: 0 <= t < |s.workers| ==> s.workers[t] == ReadIdle || s.workers[t] == WriteIdle
  }

  datatype Step =
    | Work(t: nat, sendOk: bool)
    | Snapshot
    | SelectFails
    | SelectReady(serverReady: bool, ready: seq<int>)
    | AcceptFails
    | AcceptGives(fd: int, tape: Tape)
    | PushNext

  // ---------------------------------------------------------------- when a step can be taken

  /** A worker proceeds unless it pops from an empty queue or wants a mutex that is taken. */
  ghost predicate CanWork(s: System, t: nat) {
    t < |s.workers| &&
    match s.workers[t]
    case ReadIdle => s.readQ != []
    case WriteIdle => s.writeQ != []
    case ReadWant(_, h) => h !in s.locks
    case WriteWant(_, h) => h !in s.locks
    case _ => true
  }

  /** The handles and sockets a worker uses exist; no reachable state violates this. */
  ghost predicate Meaningful(s: System, pc: Pc) {
    s.reg.Typed() &&
    match pc
    case ReadLoop(sock, _, x) => sock in s.conns && x < |s.reg.cells|
    case ReadForward(_, _, _, _, dst) => dst < |s.reg.cells|
    case WriteRemove(_, h) => h < |s.reg.cells|
    case _ => true
  }

  ghost predicate Enabled(s: System, step: Step) {
    match step
    case Work(t, _) => CanWork(s, t) && Meaningful(s, s.workers[t])
    case Snapshot => s.listener.ListenIdle?
    case SelectFails => s.listener.ListenSelect?
    case SelectReady(_, ready) =>
      s.listener.ListenSelect? && forall i :: 0 <= i < |ready| ==> ready[i] in s.listener.snapshot
    case AcceptFails => s.listener.ListenAccept?
    case AcceptGives(fd, _) => s.listener.ListenAccept? && fd !in s.open
    case PushNext => s.listener.ListenPush?
  }

  // ---------------------------------------------------------------- the steps

  function At(s: System, t: nat, pc: Pc): System
    requires t < |s.workers|
  {
    s.(workers := s.workers[t := pc])
  }

  /** One turn of the loop in `do_reads` up to the end of `read_async`: three bytes while the
      session has no id, a frame afterwards. A partial read is dropped and the loop goes on. */
  function Receive(s: System, t: nat, sock: int, h: nat, x: nat): System
    requires t < |s.workers| && sock in s.conns && x < |s.reg.cells|
  {
    var registered := s.reg.cells[x].id != NONE;
    var want := if registered then FRAME_SIZE else ID_SIZE;
    var r := ReadN(s.conns[sock].rest, want);
    ReadNConsumes(s.conns[sock].rest, want);
    var s1 := s.(conns := s.conns[sock := s.conns[sock].(rest := r.rest)]);
    if r.code == SOCKET_ERROR then At(s1, t, ReadRemove(sock, h))
    else if r.code == 0 then At(s1, t, ReadUnlock(h))
    else if r.code != want then At(s1, t, ReadLoop(sock, h, x))
    else if registered then
      At(s1.(log := s.log.(received := s.log.received + [Read(sock, r.got)])), t, ReadRoute(sock, h, x, r.got))
    else At(s1, t, ReadClaim(sock, h, x, r.got))
  }

  /** The lookup of the destination: unknown ends the call, known goes on to `forward`. */
  function Route(s: System, t: nat, sock: int, h: nat, x: nat, frame: Frame): System
    requires t < |s.workers|
  {
    match FindById(s.reg, M.DstOf(frame))
    case Null =>
      At(s.(log := s.log.(routed := s.log.routed + [Routed(sock, frame, None)])), t, ReadUnlock(h))
    case Ref(dst) => At(s, t, ReadForward(sock, h, x, frame, dst))
  }

  function Forward(s: System, t: nat, sock: int, h: nat, x: nat, frame: Frame, dst: nat): System
    requires t < |s.workers| && dst < |s.reg.cells|
  {
    var target := s.reg.cells[dst].socket;
    At(s.(writeQ := Q.Offer(s.writeQ, Task(target, frame), false),
          log := s.log.(routed := s.log.routed + [Routed(sock, frame, Some(target))])),
       t, ReadLoop(sock, h, x))
  }

  function ReaderStep(s: System, t: nat): System
    requires CanWork(s, t) && Meaningful(s, s.workers[t])
  {
    match s.workers[t]
    case ReadIdle => At(s.(readQ := s.readQ[1..]), t, ReadLookup(s.readQ[0]))
    case ReadLookup(sock) =>
      (match FindBySocket(s.reg, sock)
       case Null => At(s, t, ReadIdle)
       case Ref(h) => At(s, t, ReadWant(sock, h)))
    case ReadWant(sock, h) => At(s.(locks := s.locks[h := t]), t, ReadCheck(sock, h))
    case ReadCheck(sock, h) =>
      (match FindBySocket(s.reg, sock)
       case Null => At(s, t, ReadUnlock(h))
       case Ref(x) => At(s, t, ReadLoop(sock, h, x)))
    case ReadLoop(sock, h, x) => Receive(s, t, sock, h, x)
    case ReadClaim(sock, h, x, b) =>
      At(s.(reg := AddNode(s.reg, sock, M.IdOf(b))), t, ReadLoop(sock, h, x))
    case ReadRoute(sock, h, x, frame) => Route(s, t, sock, h, x, frame)
    case ReadForward(sock, h, x, frame, dst) => Forward(s, t, sock, h, x, frame, dst)
    case ReadRemove(sock, h) => At(s.(reg := Remove(s.reg, sock)), t, ReadUnlock(h))
    case ReadUnlock(h) => At(s.(locks := s.locks - {h}), t, ReadIdle)
    case _ => s
  }

  function WriterStep(s: System, t: nat, sendOk: bool): System
    requires CanWork(s, t) && Meaningful(s, s.workers[t])
  {
    match s.workers[t]
    case WriteIdle =>
      At(s.(writeQ := s.writeQ[1..], log := s.log.(popped := s.log.popped + [s.writeQ[0]])),
         t, WriteLookup(s.writeQ[0]))
    case WriteLookup(task) =>
      (match FindBySocket(s.reg, task.socket)
       case Null => At(s.(log := s.log.(done := s.log.done + [Done(task, NoSession)])), t, WriteIdle)
       case Ref(h) => At(s, t, WriteWant(task, h)))
    case WriteWant(task, h) => At(s.(locks := s.locks[h := t]), t, WriteSend(task, h))
    case WriteSend(task, h) =>
      if sendOk then At(s.(log := s.log.(done := s.log.done + [Done(task, Sent)])), t, WriteUnlock(h))
      else At(s.(log := s.log.(done := s.log.done + [Done(task, SendFailed)])), t, WriteRemove(task, h))
    case WriteRemove(task, h) =>
      At(s.(reg := Remove(s.reg, s.reg.cells[h].socket)), t, WriteUnlock(h))
    case WriteUnlock(h) => At(s.(locks := s.locks - {h}), t, WriteIdle)
    case _ => s
  }

  predicate IsWriter(pc: Pc) {
    pc.WriteIdle? || pc.WriteLookup? || pc.WriteWant? || pc.WriteSend? || pc.WriteRemove? || pc.WriteUnlock?
  }

  function Accepting(s: System, fd: int, tape: Tape): System
    requires s.listener.ListenAccept?
  {
    match Accept(s.reg, fd)
    case SelfLocked => s.(listener := ListenStuck, open := s.open + {fd})
    case Registered(r) =>
      s.(reg := r, open := s.open + {fd}, conns := s.conns[fd := Conn(tape, tape)],
         listener := ListenPush(s.listener.ready))
  }

  function ListenerStep(s: System, step: Step): System
    requires Enabled(s, step) && !step.Work?
  {
    match step
    case Snapshot => s.(listener := ListenSelect(s.reg.accepted))
    case SelectFails => s.(listener := ListenIdle)
    case SelectReady(serverReady, ready) =>
      s.(listener := if serverReady then ListenAccept(ready) else ListenPush(ready))
    case AcceptFails => s.(listener := ListenIdle)
    case AcceptGives(fd, tape) => Accepting(s, fd, tape)
    case PushNext =>
      var ready := s.listener.ready;
      if ready == [] then s.(listener := ListenIdle)
      else s.(readQ := Q.Offer(s.readQ, ready[0], true), listener := ListenPush(ready[1..]))
  }

  function Apply(s: System, step: Step): System
    requires Enabled(s, step)
  {
    if step.Work? then
      if IsWriter(s.workers[step.t]) then WriterStep(s, step.t, step.sendOk) else ReaderStep(s, step.t)
    else ListenerStep(s, step)
  }

  ghost predicate ValidRun(s: System, steps: seq<Step>)
    decreases |steps|
  {
    steps == [] || (Enabled(s, steps[0]) && ValidRun(Apply(s, steps[0]), steps[1..]))
  }

  ghost function Run(s: System, steps: seq<Step>): System
    requires ValidRun(s, steps)
    decreases |steps|
  {
    if steps == [] then s else Run(Apply(s, steps[0]), steps[1..])
  }

  lemma RunOne(s: System, a: Step)
    requires Enabled(s, a)
    ensures ValidRun(s, [a]) && Run(s, [a]) == Apply(s, a)
  {
    var s1 := Apply(s, a);
    hide Apply, Enabled;
    assert ValidRun(s1, []) && Run(s1, []) == s1;
    assert [a][1..] == [];
  }

  lemma RunTwo(s: System, a: Step, b: Step)
    requires Enabled(s, a) && Enabled(Apply(s, a), b)
    ensures ValidRun(s, [a, b]) && Run(s, [a, b]) == Apply(Apply(s, a), b)
  {
    var s1 := Apply(s, a);
    var s2 := Apply(s1, b);
    hide Apply, Enabled;
    assert ValidRun(s2, []) && Run(s2, []) == s2;
    assert [b][1..] == [] && ValidRun(s1, [b]) && Run(s1, [b]) == s2;
    assert [a, b][1..] == [b];
  }

  lemma {:induction false} RunAppend(s: System, xs: seq<Step>, ys: seq<Step>)
    requires ValidRun(s, xs) && ValidRun(Run(s, xs), ys)
    ensures ValidRun(s, xs + ys) && Run(s, xs + ys) == Run(Run(s, xs), ys)
    decreases |xs|
  {
    hide Apply, Enabled;
    if xs == [] {
      assert xs + ys == ys;
    } else {
      assert (xs + ys)[1..] == xs[1..] + ys;
      RunAppend(Apply(s, xs[0]), xs[1..], ys);
    }
  }
}
