/** Runs that exist: from every initial system, what a single connection can bring about. They
    show that the conditions in the theorems about all runs are needed. */
module RouterScenarios {
  import opened Text
  import opened Transport
  import opened Registry
  import opened RouterSystem
  import opened RouterCore
  import opened RouterLedger
  import opened RouterInvariant
  import opened RouterOutcomes
  import M = RouterMessage
  import N = NodeMessage
  import C = RouterCalls
  import S = RouterSolo

  predicate IsReader(s: System, r: nat) { r < |s.workers| && !IsWriter(s.workers[r]) }

  // ---------------------------------------------------------------- one connection is served

  /** There is always a descriptor to hand out. */
  lemma {:induction false} FreshDescriptor(open: set<int>) returns (fd: int)
    ensures forall x :: x in open ==> x < fd
  {
    if x :| x in open {
      var above := FreshDescriptor(open - {x});
      fd := if above > x then above else x + 1;
      forall y | y in open ensures y < fd {
        assert y == x || y in open - {x};
      }
    } else {
      fd := 0;
    }
  }

  /** The system when one connection has been accepted, by the registry alone. */
  function Joined(fd: int): Registry { Registry([Session(fd, NONE)], map[fd := 0], map[], [fd]) }

  /** The event loop accepts the first connection. */
  lemma Joins(s: System, fd: int, tape: Tape) returns (steps: seq<Step>)
    requires Initial(s) && fd !in s.open
    ensures ValidRun(s, steps)
    ensures Run(s, steps) == s.(reg := Joined(fd), open := s.open + {fd},
                                conns := map[fd := Conn(tape, tape)], listener := ListenPush([]))
  {
    var s1 := s.(listener := ListenSelect([]));
    var s2 := s.(listener := ListenAccept([]));
    assert Apply(s, Snapshot) == s1;
    assert Apply(s1, SelectReady(true, [])) == s2;
    assert Accept(EMPTY, fd) == Registered(Joined(fd));
    var give := AcceptGives(fd, tape);
    assert Apply(s2, give) == s.(reg := Joined(fd), open := s.open + {fd},
                                 conns := map[fd := Conn(tape, tape)], listener := ListenPush([]));
    hide Apply, Enabled, Run, ValidRun;
    RunTwo(s, Snapshot, SelectReady(true, []));
    RunOne(s2, give);
    RunAppend(s, [Snapshot, SelectReady(true, [])], [give]);
    steps := [Snapshot, SelectReady(true, [])] + [give];
  }

  /** The event loop finds it ready and hands it to the readers. */
  lemma Dispatched(s: System, fd: int) returns (steps: seq<Step>)
    requires s.listener == ListenPush([]) && s.reg == Joined(fd) && s.readQ == []
    ensures ValidRun(s, steps) && Run(s, steps) == s.(readQ := [fd], listener := ListenPush([]))
  {
    var ready := SelectReady(false, [fd]);
    var s1 := s.(listener := ListenIdle);
    var s2 := s.(listener := ListenSelect([fd]));
    var s3 := s.(listener := ListenPush([fd]));
    assert Apply(s, PushNext) == s1 && Apply(s1, Snapshot) == s2;
    assert Apply(s2, ready) == s3;
    assert Apply(s3, PushNext) == s.(readQ := [fd], listener := ListenPush([]));
    hide Apply, Enabled, Run, ValidRun;
    RunTwo(s, PushNext, Snapshot);
    RunTwo(s2, ready, PushNext);
    RunAppend(s, [PushNext, Snapshot], [ready, PushNext]);
    steps := [PushNext, Snapshot] + [ready, PushNext];
  }

  /** A reader picks it up and comes to the loop. */
  lemma PickedUp(s: System, r: nat, fd: int) returns (steps: seq<Step>)
    requires r < |s.workers| && s.workers[r] == ReadIdle && s.readQ == [fd] && s.reg == Joined(fd) && s.locks == map[]
    ensures ValidRun(s, steps)
    ensures Run(s, steps) == s.(readQ := [], locks := map[0 := r], workers := s.workers[r := ReadLoop(fd, 0, 0)])
  {
    assert s.reg.Typed() && FindBySocket(s.reg, fd) == Ref(0);
    hide Joined, Registry.Typed, FindBySocket;
    var step := Work(r, true);
    var s1 := s.(readQ := [], workers := s.workers[r := ReadLookup(fd)]);
    var s2 := s.(readQ := [], workers := s.workers[r := ReadWant(fd, 0)]);
    var s3 := s.(readQ := [], locks := map[0 := r], workers := s.workers[r := ReadCheck(fd, 0)]);
    var s4 := s.(readQ := [], locks := map[0 := r], workers := s.workers[r := ReadLoop(fd, 0, 0)]);
    assert Apply(s, step) == s1;
    assert s1.workers[r := ReadWant(fd, 0)] == s2.workers;
    assert Apply(s1, step) == s2;
    assert s2.workers[r := ReadCheck(fd, 0)] == s3.workers;
    assert Apply(s2, step) == s3;
    assert s3.workers[r := ReadLoop(fd, 0, 0)] == s4.workers;
    assert Apply(s3, step) == s4;
    hide Apply, Enabled, Run, ValidRun;
    RunTwo(s, step, step);
    RunTwo(s2, step, step);
    RunAppend(s, [step, step], [step, step]);
    steps := [step, step] + [step, step];
  }

  /** What a connection does to a router in which nothing has happened yet. */
  ghost function Outcome(fd: int, tape: Tape): C.Io {
    C.Drain(C.Io(Joined(fd), tape, []), fd, 0).0
  }

  /** All workers are back where they started, no mutex is held, and registry and write queue are
      what the sequential loop makes of the connection. */
  ghost predicate Served(s: System, q: System, fd: int, tape: Tape) {
    && q.workers == s.workers && q.locks == map[]
    && q.reg == Outcome(fd, tape).reg && q.writeQ == Outcome(fd, tape).writeQ
    && q.log.done == [] && Pushed(q.log.routed) == q.writeQ
  }

  lemma Approached(s: System, r: nat, fd: int, tape: Tape) returns (steps: seq<Step>)
    requires Initial(s) && IsReader(s, r) && fd !in s.open
    ensures ValidRun(s, steps)
    ensures var q := Run(s, steps);
      && q.workers == s.workers[r := ReadLoop(fd, 0, 0)] && q.locks == map[0 := r] && q.reg == Joined(fd)
      && q.conns == map[fd := Conn(tape, tape)] && q.writeQ == [] && q.log == Log([], [], [], [])
  {
    var one := Joins(s, fd, tape);
    var s1 := Run(s, one);
    hide Run, ValidRun;
    var two := Dispatched(s1, fd);
    var s2 := Run(s1, two);
    var three := PickedUp(s2, r, fd);
    RunAppend(s1, two, three);
    RunAppend(s, one, two + three);
    steps := one + (two + three);
  }

  /** The last step of a reader. */
  lemma Released(s: System, r: nat, h: nat)
    requires r < |s.workers| && s.workers[r] == ReadUnlock(h) && s.reg.Typed()
    ensures Enabled(s, Work(r, true))
    ensures Apply(s, Work(r, true)) == s.(locks := s.locks - {h}, workers := s.workers[r := ReadIdle])
  {
  }

  /** From every initial system with a reader, for every stream: a connection can be accepted and
      served to its end by that reader. */
  lemma OneConnection(s: System, r: nat, fd: int, tape: Tape) returns (steps: seq<Step>)
    requires Initial(s) && IsReader(s, r) && fd !in s.open
    ensures ValidRun(s, steps) && Served(s, Run(s, steps), fd, tape)
  {
    assert s.workers[r] == ReadIdle;
    var one := Approached(s, r, fd, tape);
    InitialIsCore(s);
    hide Run, ValidRun, Core, Initial, Apply, Enabled, C.Drain;
    RunKeepsCore(s, one);
    var s1 := Run(s, one);
    var two := S.LoopRefinesDrain(s1, r, fd, 0);
    var s2 := Run(s1, two);
    Released(s2, r, 0);
    RunOne(s2, Work(r, true));
    RunAppend(s1, two, [Work(r, true)]);
    RunAppend(s, one, two + [Work(r, true)]);
    steps := one + (two + [Work(r, true)]);
    var q := Run(s, steps);
    assert s1.workers[r := ReadUnlock(0)][r := ReadIdle] == s.workers;
    QueueOnRecord(s, steps);
    assert q.log.popped + q.writeQ == q.writeQ;
  }

  lemma QueueOnRecord(s: System, steps: seq<Step>)
    requires Initial(s) && ValidRun(s, steps)
    ensures Run(s, steps).log.popped + Run(s, steps).writeQ == Pushed(Run(s, steps).log.routed)
  {
    hide Run, ValidRun, Core, Initial, Ordered, Pushed;
    Reachable(s, steps);
  }

  // ---------------------------------------------------------------- the loop on whole messages

  lemma IdArrives(io: C.Io, sock: int, h: nat, b: Bytes, rest: Tape)
    requires io.reg.Typed() && h < |io.reg.cells| && io.reg.cells[h].id == NONE
    requires |b| == ID_SIZE && io.tape == [Data(b)] + rest
    ensures var next := C.Io(AddNode(io.reg, sock, M.IdOf(b)), rest, io.writeQ);
      next.reg.Typed() && h < |next.reg.cells| && C.Drain(io, sock, h) == C.Drain(next, sock, h)
  {
    ReadNStep(io.tape, ID_SIZE);
    C.TurnConsumes(io, sock, h);
    assert ([Data(b)] + rest)[1..] == rest;
    hide ReadN, M.IdOf, Stream;
    assert C.Turn(io, sock, h) == (C.Io(AddNode(io.reg, sock, M.IdOf(b)), rest, io.writeQ), ID_SIZE);
  }

  lemma FrameArrives(io: C.Io, sock: int, h: nat, f: Frame, rest: Tape, d: nat)
    requires io.reg.Typed() && h < |io.reg.cells| && io.reg.cells[h].id != NONE
    requires io.tape == [Data(f)] + rest && FindById(io.reg, M.DstOf(f)) == Ref(d) && d < |io.reg.cells|
    ensures C.Drain(io, sock, h)
         == C.Drain(C.Io(io.reg, rest, io.writeQ + [Task(io.reg.cells[d].socket, f)]), sock, h)
  {
    ReadNStep(io.tape, FRAME_SIZE);
    C.TurnConsumes(io, sock, h);
    assert ([Data(f)] + rest)[1..] == rest;
    hide ReadN, M.DstOf, Stream;
    assert C.Turn(io, sock, h) == (C.Io(io.reg, rest, io.writeQ + [Task(io.reg.cells[d].socket, f)]), FRAME_SIZE);
  }

  lemma NothingArrives(io: C.Io, sock: int, h: nat)
    requires io.reg.Typed() && h < |io.reg.cells| && io.tape == []
    ensures C.Drain(io, sock, h) == (io, 0)
  {
    ReadNStep([], ID_SIZE);
    ReadNStep([], FRAME_SIZE);
    hide ReadN, M.DstOf, M.IdOf, Stream;
    assert C.Turn(io, sock, h) == (io, 0);
  }

  // ---------------------------------------------------------------- every node can register

  lemma NodeIds(id: int)
    requires 0 <= id <= 999
    ensures |N.BuildIdMessage(id)| == 3 && M.IdOf(N.BuildIdMessage(id)) == id
  {
    N.FirstMessageRoundTrip(id, id, []);
    M.SrcParseIsSliceParse(N.BuildIdMessage(id), []);
  }

  /** In numbers: the id message of every node from 0 to 998 names a session that has no name yet
      and enters it in the index; that of node 999 changes nothing. */
  lemma NodesAreNamed(r: Registry, s: int, id: int)
    requires r.Typed() && s in r.bySocket && r.cells[r.bySocket[s]].id == -1 && 0 <= id <= 999
    ensures var h, q := r.bySocket[s], AddNode(r, s, M.IdOf(N.BuildIdMessage(id)));
      if id == 999 then q == r
      else
        && q == r.(cells := q.cells, byId := q.byId) && |q.cells| == |r.cells|
        && q.cells[h] == Session(r.cells[h].socket, id) && FindById(q, id) == Ref(h)
        && (forall g :: 0 <= g < |r.cells| && g != h ==> q.cells[g] == r.cells[g])
        && (forall i :: i != id ==> FindById(q, i) == FindById(r, i))
  {
    NodeIds(id);
  }

  /** And they can do so in the running router: from every initial system with a reader, each node
      from 0 to 998 has a run after which it is registered; node 999 stays nameless. */
  lemma EveryNodeRegisters(s: System, r: nat, id: int) returns (steps: seq<Step>, fd: int)
    requires Initial(s) && IsReader(s, r) && 0 <= id <= 999
    ensures ValidRun(s, steps)
    ensures var q := Run(s, steps);
      && q.workers == s.workers && q.locks == map[] && FindBySocket(q.reg, fd) == Ref(0)
      && q.reg.cells == [Session(fd, if id == 999 then -1 else id)]
      && FindById(q.reg, id) == (if id == 999 then Null else Ref(0))
  {
    hide M.IdOf, Initial, Run, ValidRun, C.Drain, N.BuildIdMessage;
    fd := FreshDescriptor(s.open);
    NodeIds(id);
    var b: Bytes := N.BuildIdMessage(id);
    var tape: Tape := [Data(b)];
    steps := OneConnection(s, r, fd, tape);
    var next := AddNode(Joined(fd), fd, M.IdOf(b));
    assert tape == [Data(b)] + [];
    IdArrives(C.Io(Joined(fd), tape, []), fd, 0, b, []);
    NothingArrives(C.Io(next, [], []), fd, 0);
    assert Run(s, steps).reg == next;
  }

  // ---------------------------------------------------------------- overtaking

  /** A node that registers and sends itself two frames, the second announcing another source. */
  function SelfTalk(i: int): Bytes { N.BuildFirstMessage(i, 5) }

  lemma SelfTalkFrames()
    ensures |SelfTalk(1)| == FRAME_SIZE && |SelfTalk(2)| == FRAME_SIZE && SelfTalk(1) != SelfTalk(2)
    ensures M.DstOf(SelfTalk(1)) == 5 && M.DstOf(SelfTalk(2)) == 5
    ensures |N.BuildIdMessage(5)| == ID_SIZE && M.IdOf(N.BuildIdMessage(5)) == 5
  {
    N.FirstMessageRoundTrip(1, 5, []);
    N.FirstMessageRoundTrip(2, 5, []);
    N.FirstMessageRoundTrip(5, 5, []);
    M.DstParseIsSliceParse(SelfTalk(1), []);
    M.DstParseIsSliceParse(SelfTalk(2), []);
    M.SrcParseIsSliceParse(N.BuildIdMessage(5), []);
    hide Stoi, M.DstOf, M.IdOf, N.BuildFirstMessage, N.BuildIdMessage, M.ExtractDstId, M.ExtractSrcId;
  }

  /** Registering and then naming itself twice as the destination leaves two tasks for it. */
  lemma SelfTalkOutcome(fd: int, b: Bytes, f: Frame, g: Frame)
    requires |b| == ID_SIZE && 0 <= M.IdOf(b) < MAX_CLIENTS_COUNT
    requires M.DstOf(f) == M.IdOf(b) && M.DstOf(g) == M.IdOf(b)
    ensures var io := Outcome(fd, [Data(b), Data(f), Data(g)]);
      && io.writeQ == [Task(fd, f), Task(fd, g)] && FindBySocket(io.reg, fd) == Ref(0)
  {
    hide M.IdOf, M.DstOf, C.Drain;
    var id := M.IdOf(b);
    var r := AddNode(Joined(fd), fd, id);
    assert r == Registry([Session(fd, id)], map[fd := 0], map[id := Ref(0)], [fd]);
    var io0 := C.Io(Joined(fd), [Data(b), Data(f), Data(g)], []);
    assert io0.tape == [Data(b)] + [Data(f), Data(g)] && [Data(f), Data(g)] == [Data(f)] + [Data(g)];
    assert [Data(g)] == [Data(g)] + [];
    assert [] + [Task(fd, f)] == [Task(fd, f)] && [Task(fd, f)] + [Task(fd, g)] == [Task(fd, f), Task(fd, g)];
    IdArrives(io0, fd, 0, b, [Data(f), Data(g)]);
    FrameArrives(C.Io(r, [Data(f), Data(g)], []), fd, 0, f, [Data(g)], 0);
    FrameArrives(C.Io(r, [Data(g)], [Task(fd, f)]), fd, 0, g, [], 0);
    NothingArrives(C.Io(r, [], [Task(fd, f), Task(fd, g)]), fd, 0);
  }

  /** Tasks end in the order in which they were queued. */
  ghost predicate EndsInPushOrder(q: System) { DoneTasks(q.log.done) <= Pushed(q.log.routed) }

  ghost predicate AlwaysInPushOrder(s: System) {
    forall steps :: ValidRun(s, steps) ==> EndsInPushOrder(Run(s, steps))
  }

  ghost predicate AtMostOneWriter(s: System) {
    forall v, w :: 0 <= v < w < |s.workers| ==> !(IsWriter(s.workers[v]) && IsWriter(s.workers[w]))
  }

  /** A node can queue two frames for itself. */
  lemma QueuesTwo(s: System, r: nat, b: Bytes, f: Frame, g: Frame) returns (steps: seq<Step>, fd: int)
    requires Initial(s) && IsReader(s, r)
    requires |b| == ID_SIZE && 0 <= M.IdOf(b) < MAX_CLIENTS_COUNT
    requires M.DstOf(f) == M.IdOf(b) && M.DstOf(g) == M.IdOf(b)
    ensures ValidRun(s, steps) && Core(Run(s, steps))
    ensures var q := Run(s, steps);
      && q.workers == s.workers && q.locks == map[] && FindBySocket(q.reg, fd) == Ref(0)
      && q.writeQ == [Task(fd, f), Task(fd, g)] && q.log.done == [] && Pushed(q.log.routed) == q.writeQ
  {
    hide M.IdOf, M.DstOf, Initial, Run, ValidRun, Outcome, Core, FindBySocket, Pushed;
    fd := FreshDescriptor(s.open);
    SelfTalkOutcome(fd, b, f, g);
    steps := OneConnection(s, r, fd, [Data(b), Data(f), Data(g)]);
    InitialIsCore(s);
    RunKeepsCore(s, steps);
  }

  /** A run of every initial system with a reader and two writers in which they do not. */
  lemma TwoWritersOvertake(s: System, r: nat, v: nat, w: nat) returns (steps: seq<Step>)
    requires Initial(s) && IsReader(s, r) && v < |s.workers| && w < |s.workers| && v != w
    requires IsWriter(s.workers[v]) && IsWriter(s.workers[w])
    ensures ValidRun(s, steps) && !EndsInPushOrder(Run(s, steps))
  {
    assert s.workers[v] == WriteIdle && s.workers[w] == WriteIdle;
    SelfTalkFrames();
    hide SelfTalk, N.BuildIdMessage, M.IdOf, M.DstOf, Initial, Run, ValidRun, Core, FindBySocket, Pushed, EndsInPushOrder;
    var one, fd := QueuesTwo(s, r, N.BuildIdMessage(5), SelfTalk(1), SelfTalk(2));
    var s1 := Run(s, one);
    TwoWritersCanReorder(s1, v, w, 0);
    var two :| Overtakes(s1, two, v);
    RunAppend(s, one, two);
    steps := one + two;
    SecondFirst(Run(s, steps), Task(fd, SelfTalk(1)), Task(fd, SelfTalk(2)));
  }

  lemma SecondFirst(q: System, first: Task, second: Task)
    requires first != second && Pushed(q.log.routed) == [first, second] && q.log.done == [Done(second, Sent)]
    ensures !EndsInPushOrder(q)
  {
    assert DoneTasks(q.log.done) == [second] && Pushed(q.log.routed)[0] != second;
  }

  /** Exactly when frames leave in the order in which they were queued: for every initial system
      with a reader, all its runs end tasks in push order if and only if it has at most one
      writer. */
  lemma PushOrderIffOneWriter(s: System, r: nat)
    requires Initial(s) && IsReader(s, r)
    ensures AlwaysInPushOrder(s) <==> AtMostOneWriter(s)
  {
    hide Run, ValidRun, Initial, EndsInPushOrder;
    if AtMostOneWriter(s) {
      forall steps | ValidRun(s, steps) ensures EndsInPushOrder(Run(s, steps)) {
        OneWriterInOrder(s, r, steps);
      }
    } else {
      var v, w :| 0 <= v < w < |s.workers| && IsWriter(s.workers[v]) && IsWriter(s.workers[w]);
      var steps := TwoWritersOvertake(s, r, v, w);
    }
  }

  lemma OneWriterInOrder(s: System, r: nat, steps: seq<Step>)
    requires Initial(s) && IsReader(s, r) && AtMostOneWriter(s) && ValidRun(s, steps)
    ensures EndsInPushOrder(Run(s, steps))
  {
    hide Run, ValidRun, Initial, Pushed, DoneTasks;
    var w: nat := r;
    if u: nat :| u < |s.workers| && IsWriter(s.workers[u]) { w := u; }
    assert OnlyWriter(s, w);
    SingleWriterOrder(s, steps, w);
    var q := Run(s, steps);
    var rest := AsSeq(InHand(q.workers[w])) + q.writeQ;
    assert Pushed(q.log.routed) == DoneTasks(q.log.done) + rest;
  }

  // ---------------------------------------------------------------- a frame that goes astray

  /** A connection that first announces something that is no number, then a proper id, and then
      sends a frame whose destination is no number either. */
  lemma AstrayOutcome(fd: int, junk: Bytes, b: Bytes, f: Frame)
    requires |junk| == ID_SIZE && M.IdOf(junk) == NONE
    requires |b| == ID_SIZE && 0 <= M.IdOf(b) < MAX_CLIENTS_COUNT && M.DstOf(f) == NONE
    ensures var io := Outcome(fd, [Data(junk), Data(b), Data(f)]);
      && io.writeQ == [Task(fd, f)] && FindBySocket(io.reg, fd) == Ref(0)
      && io.reg.cells == [Session(fd, M.IdOf(b))]
  {
    hide M.IdOf, M.DstOf, C.Drain;
    var id := M.IdOf(b);
    var r := AddNode(Joined(fd), fd, NONE);
    assert r == Registry([Session(fd, NONE)], map[fd := 0], map[NONE := Ref(0)], [fd]);
    var r' := AddNode(r, fd, id);
    assert r' == Registry([Session(fd, id)], map[fd := 0], map[NONE := Ref(0), id := Ref(0)], [fd]);
    var io0 := C.Io(Joined(fd), [Data(junk), Data(b), Data(f)], []);
    assert io0.tape == [Data(junk)] + [Data(b), Data(f)] && [Data(b), Data(f)] == [Data(b)] + [Data(f)];
    assert [Data(f)] == [Data(f)] + [] && [] + [Task(fd, f)] == [Task(fd, f)];
    IdArrives(io0, fd, 0, junk, [Data(b), Data(f)]);
    IdArrives(C.Io(r, [Data(b), Data(f)], []), fd, 0, b, [Data(f)]);
    FrameArrives(C.Io(r', [Data(f)], []), fd, 0, f, [], 0);
    NothingArrives(C.Io(r', [], [Task(fd, f)]), fd, 0);
  }

  /** The task is on record, its only session carries `id`, and `id` is not its destination. */
  ghost predicate Astray(q: System, task: Task, id: int) {
    && task in Pushed(q.log.routed) && Owns(q.reg, task.socket, 0)
    && q.reg.cells[0].id == id && id != M.DstOf(task.msg)
  }

  /** Such a frame can be queued for a node that is not its destination. */
  lemma QueuesAstray(s: System, r: nat, junk: Bytes, b: Bytes, f: Frame) returns (steps: seq<Step>, task: Task)
    requires Initial(s) && IsReader(s, r)
    requires |junk| == ID_SIZE && M.IdOf(junk) == NONE
    requires |b| == ID_SIZE && 0 <= M.IdOf(b) < MAX_CLIENTS_COUNT && M.DstOf(f) == NONE
    ensures task.msg == f && ValidRun(s, steps) && Core(Run(s, steps))
    ensures Astray(Run(s, steps), task, M.IdOf(b))
    ensures var q := Run(s, steps);
      && q.workers == s.workers && q.locks == map[] && FindBySocket(q.reg, task.socket) == Ref(0)
      && q.writeQ == [task] && q.log.done == []
  {
    hide M.IdOf, M.DstOf, Initial, Run, ValidRun, Outcome, Core, FindBySocket, Pushed;
    var fd := FreshDescriptor(s.open);
    task := Task(fd, f);
    AstrayOutcome(fd, junk, b, f);
    steps := OneConnection(s, r, fd, [Data(junk), Data(b), Data(f)]);
    InitialIsCore(s);
    RunKeepsCore(s, steps);
    assert task in Pushed(Run(s, steps).log.routed);
  }

  lemma StaysAstray(s: System, q: System, task: Task, id: int)
    requires Astray(s, task, id) && q.log.routed == s.log.routed && q.reg == s.reg
    ensures Astray(q, task, id)
  {
  }

  /** Routing safety stops at destinations that do not parse: every initial system with a reader
      and a writer has a run in which such a frame is sent to a properly registered node, which
      is not its destination, and which throws on it. */
  lemma FramesGoAstray(s: System, r: nat, w: nat, junk: Bytes, b: Bytes, f: Frame) returns (steps: seq<Step>, task: Task)
    requires Initial(s) && IsReader(s, r) && w < |s.workers| && IsWriter(s.workers[w])
    requires |junk| == ID_SIZE && M.IdOf(junk) == NONE
    requires |b| == ID_SIZE && 0 <= M.IdOf(b) < MAX_CLIENTS_COUNT && Stoi(N.Dst(f)).InvalidArgument?
    ensures task.msg == f && ValidRun(s, steps)
    ensures Astray(Run(s, steps), task, M.IdOf(b)) && Run(s, steps).log.done == [Done(task, Sent)]
    ensures N.ProcessMessage(M.IdOf(b), f).Throws?
  {
    assert s.workers[w] == WriteIdle;
    assert M.DstOf(f) == NONE by { assert N.Dst(f) == M.DstField(f); }
    N.ReplyExactly(M.IdOf(b), f);
    hide M.IdOf, M.DstOf, Initial, Run, ValidRun, Core, N.ProcessMessage, Stoi, N.Dst, FindBySocket, Astray;
    var one;
    one, task := QueuesAstray(s, r, junk, b, f);
    var s1 := Run(s, one);
    CoreTyped(s1);
    WriterServes(s1, w, 0);
    RunAppend(s, one, FourSteps(w));
    steps := one + FourSteps(w);
    StaysAstray(s1, Run(s, steps), task, M.IdOf(b));
  }

  const ABC: Bytes := [97, 98, 99]
  const FIVE: Bytes := [48, 48, 53]
  const XYZ: Bytes := [120, 121, 122]

  /** Such messages: "abc", "005", and a frame that ends in "xyz". */
  lemma AstrayMessages()
    ensures M.IdOf(ABC) == NONE && M.IdOf(FIVE) == 5
    ensures |Zeros(29) + XYZ| == FRAME_SIZE && Stoi(N.Dst(Zeros(29) + XYZ)).InvalidArgument?
  {
    assert N.Dst(Zeros(29) + XYZ) == XYZ;
    StoiOfDigits(FIVE);
    hide Stoi;
    assert FIVE[..2] == [48, 48] && [48, 48][..1] == [48] && [48][..0] == [];
    assert Value([48]) == 0 && Value([48, 48]) == 0 && Value(FIVE) == 5;
  }
}
