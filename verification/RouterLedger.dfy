/** Bookkeeping over whole runs: where every frame that was read has gone, and in which order. */
module RouterLedger {
  import opened Options
  import opened Transport
  import opened Registry
  import opened RouterSystem
  import opened RouterCore
  import M = RouterMessage

  // ---------------------------------------------------------------- what a worker has in hand

  /** A frame read but not yet routed. */
  function Carried(pc: Pc): Option<Frame> {
    match pc
    case ReadRoute(_, _, _, f) => Some(f)
    case ReadForward(_, _, _, f, _) => Some(f)
    case _ => None
  }

  /** A task popped but not yet brought to an end. */
  function InHand(pc: Pc): Option<Task> {
    match pc
    case WriteLookup(task) => Some(task)
    case WriteWant(task, _) => Some(task)
    case WriteSend(task, _) => Some(task)
    case _ => None
  }

  function MessageInHand(pc: Pc): Option<Frame> {
    if InHand(pc).Some? then Some(InHand(pc).value.msg) else None
  }

  // ---------------------------------------------------------------- the kinds of worker steps

  datatype Effect =
    | Quiet
    | Got(frame: Frame)
    | Dropped(frame: Frame)
    | Queued(frame: Frame, target: int)
    | Took(task: Task)
    | Ended(task: Task, fate: Fate)

  /** What a step by a worker going from `pc` to `next` records, and what it hands over. `src` is
      the socket it serves when it touches a frame. */
  ghost predicate Records(s: System, s': System, pc: Pc, next: Pc, src: int, e: Effect) {
    match e
    case Quiet =>
      && s'.log == s.log && s'.writeQ == s.writeQ
      && Carried(next) == Carried(pc) && InHand(next) == InHand(pc)
    case Got(f) =>
      && s'.log == s.log.(received := s.log.received + [Read(src, f)]) && s'.writeQ == s.writeQ
      && Carried(pc).None? && Carried(next) == Some(f) && InHand(next) == InHand(pc)
    case Dropped(f) =>
      && s'.log == s.log.(routed := s.log.routed + [Routed(src, f, None)]) && s'.writeQ == s.writeQ
      && Carried(pc) == Some(f) && Carried(next).None? && InHand(next) == InHand(pc)
    case Queued(f, target) =>
      && s'.log == s.log.(routed := s.log.routed + [Routed(src, f, Some(target))])
      && s'.writeQ == s.writeQ + [Task(target, f)]
      && Carried(pc) == Some(f) && Carried(next).None? && InHand(next) == InHand(pc)
    case Took(task) =>
      && s'.log == s.log.(popped := s.log.popped + [task]) && s.writeQ == [task] + s'.writeQ
      && Carried(next) == Carried(pc) && InHand(pc).None? && InHand(next) == Some(task)
    case Ended(task, fate) =>
      && s'.log == s.log.(done := s.log.done + [Done(task, fate)]) && s'.writeQ == s.writeQ
      && Carried(next) == Carried(pc) && InHand(pc) == Some(task) && InHand(next).None?
  }

  ghost predicate Touches(e: Effect) { e.Got? || e.Dropped? || e.Queued? }

  predicate Tended(r: Registry, pc: Pc, next: Pc, src: int) {
    Held(pc).Some? && Held(next) == Held(pc) && Owns(r, src, Held(pc).value)
  }

  /** Every worker step is of one of these kinds; when it touches a frame, the worker holds the
      mutex of the session `src` belongs to, before and after. */
  ghost predicate Moves(s: System, s': System, t: nat, next: Pc, src: int, e: Effect) {
    && t < |s.workers| && s'.workers == s.workers[t := next]
    && LockMove(s.locks, s'.locks, t, s.workers[t], next)
    && Records(s, s', s.workers[t], next, src, e)
    && IsWriter(next) == IsWriter(s.workers[t])
    && (Touches(e) ==> Tended(s.reg, s.workers[t], next, src))
  }

  lemma ReceiveMoves(s: System, t: nat) returns (next: Pc, src: int, e: Effect)
    requires CanWork(s, t) && s.workers[t].ReadLoop? && Meaningful(s, s.workers[t])
    requires PcOk(s.reg, s.workers[t])
    ensures Moves(s, ReaderStep(s, t), t, next, src, e)
  {
    hide ReadN;
    var pc := s.workers[t];
    var s' := ReaderStep(s, t);
    next, src := s'.workers[t], pc.sock;
    e := if next.ReadRoute? then Got(next.frame) else Quiet;
  }

  lemma RouteMoves(s: System, t: nat) returns (next: Pc, src: int, e: Effect)
    requires CanWork(s, t) && s.workers[t].ReadRoute? && Meaningful(s, s.workers[t])
    requires PcOk(s.reg, s.workers[t])
    ensures Moves(s, ReaderStep(s, t), t, next, src, e)
  {
    var pc := s.workers[t];
    hide M.DstOf;
    next, src := ReaderStep(s, t).workers[t], pc.sock;
    e := if next.ReadUnlock? then Dropped(pc.frame) else Quiet;
  }

  lemma ForwardMoves(s: System, t: nat) returns (next: Pc, src: int, e: Effect)
    requires CanWork(s, t) && s.workers[t].ReadForward? && Meaningful(s, s.workers[t])
    requires PcOk(s.reg, s.workers[t])
    ensures Moves(s, ReaderStep(s, t), t, next, src, e)
  {
    var pc := s.workers[t];
    next, src := ReadLoop(pc.sock, pc.h, pc.x), pc.sock;
    e := Queued(pc.frame, s.reg.cells[pc.dst].socket);
  }

  lemma RegistryMoves(s: System, t: nat) returns (next: Pc, src: int, e: Effect)
    requires CanWork(s, t) && (s.workers[t].ReadClaim? || s.workers[t].ReadRemove?)
    requires Meaningful(s, s.workers[t])
    ensures Moves(s, ReaderStep(s, t), t, next, src, e)
  {
    hide AddNode, Remove, M.IdOf;
    next, src, e := ReaderStep(s, t).workers[t], 0, Quiet;
  }

  lemma OtherReaderMoves(s: System, t: nat) returns (next: Pc, src: int, e: Effect)
    requires CanWork(s, t) && Meaningful(s, s.workers[t])
    requires var pc := s.workers[t];
      pc.ReadIdle? || pc.ReadLookup? || pc.ReadWant? || pc.ReadCheck? || pc.ReadUnlock?
    ensures Moves(s, ReaderStep(s, t), t, next, src, e)
  {
    next, src, e := ReaderStep(s, t).workers[t], 0, Quiet;
  }

  lemma ReaderMoves(s: System, t: nat) returns (next: Pc, src: int, e: Effect)
    requires Core(s) && CanWork(s, t) && !IsWriter(s.workers[t]) && Meaningful(s, s.workers[t])
    ensures Moves(s, ReaderStep(s, t), t, next, src, e)
  {
    hide ReaderStep, Moves, Meaningful, Consistent, PcOk;
    assert PcOk(s.reg, s.workers[t]);
    match s.workers[t]
    case ReadLoop(_, _, _) => next, src, e := ReceiveMoves(s, t);
    case ReadRoute(_, _, _, _) => next, src, e := RouteMoves(s, t);
    case ReadForward(_, _, _, _, _) => next, src, e := ForwardMoves(s, t);
    case ReadClaim(_, _, _, _) => next, src, e := RegistryMoves(s, t);
    case ReadRemove(_, _) => next, src, e := RegistryMoves(s, t);
    case _ => next, src, e := OtherReaderMoves(s, t);
  }

  lemma WriterMoves(s: System, t: nat, sendOk: bool) returns (next: Pc, src: int, e: Effect)
    requires CanWork(s, t) && IsWriter(s.workers[t]) && Meaningful(s, s.workers[t])
    ensures Moves(s, WriterStep(s, t, sendOk), t, next, src, e)
  {
    var pc := s.workers[t];
    hide Remove;
    next, src := WriterStep(s, t, sendOk).workers[t], 0;
    e := match pc
      case WriteIdle => Took(s.writeQ[0])
      case WriteSend(task, _) => Ended(task, if sendOk then Sent else SendFailed)
      case WriteLookup(task) => if next.WriteIdle? then Ended(task, NoSession) else Quiet
      case _ => Quiet;
  }

  // ---------------------------------------------------------------- conservation

  function Bag<X>(workers: seq<Pc>, f: Pc -> Option<X>): multiset<X> {
    if workers == [] then multiset{}
    else Bag(workers[1..], f) + One(f(workers[0]))
  }

  function One<X>(o: Option<X>): multiset<X> {
    if o.Some? then multiset{o.value} else multiset{}
  }

  lemma {:induction false} BagSame<X>(workers: seq<Pc>, f: Pc -> Option<X>, t: nat, next: Pc)
    requires t < |workers| && f(next) == f(workers[t])
    ensures Bag(workers[t := next], f) == Bag(workers, f)
  {
    if t > 0 {
      assert workers[t := next][1..] == workers[1..][t - 1 := next];
      BagSame(workers[1..], f, t - 1, next);
    } else {
      assert workers[t := next][1..] == workers[1..];
    }
  }

  lemma {:induction false} BagGains<X>(workers: seq<Pc>, f: Pc -> Option<X>, t: nat, next: Pc)
    requires t < |workers| && f(workers[t]).None? && f(next).Some?
    ensures Bag(workers[t := next], f) == Bag(workers, f) + multiset{f(next).value}
  {
    if t > 0 {
      assert workers[t := next][1..] == workers[1..][t - 1 := next];
      BagGains(workers[1..], f, t - 1, next);
      var b, a, x := Bag(workers[1..], f), One(f(workers[0])), multiset{f(next).value};
      assert (b + x) + a == (b + a) + x;
    } else {
      assert workers[t := next][1..] == workers[1..];
    }
  }

  lemma BagLoses<X>(workers: seq<Pc>, f: Pc -> Option<X>, t: nat, next: Pc)
    requires t < |workers| && f(workers[t]).Some? && f(next).None?
    ensures Bag(workers, f) == Bag(workers[t := next], f) + multiset{f(workers[t]).value}
  {
    assert workers[t := next][t := workers[t]] == workers;
    BagGains(workers[t := next], f, t, workers[t]);
  }

  function ReceivedBag(log: seq<Read>): multiset<Frame> {
    if log == [] then multiset{} else ReceivedBag(log[..|log| - 1]) + multiset{log[|log| - 1].frame}
  }

  function RoutedBag(log: seq<Routed>): multiset<Frame> {
    if log == [] then multiset{} else RoutedBag(log[..|log| - 1]) + multiset{log[|log| - 1].frame}
  }

  /** The tasks that were ever pushed on the write queue, in order. */
  function Pushed(log: seq<Routed>): seq<Task> {
    if log == [] then []
    else
      var last := log[|log| - 1];
      Pushed(log[..|log| - 1]) + (if last.target.Some? then [Task(last.target.value, last.frame)] else [])
  }

  function DoneTasks(log: seq<Done>): seq<Task> {
    if log == [] then [] else DoneTasks(log[..|log| - 1]) + [log[|log| - 1].task]
  }

  function Contents(tasks: seq<Task>): seq<Frame> { seq(|tasks|, i requires 0 <= i < |tasks| => tasks[i].msg) }

  /** The frames in tasks, as a multiset. */
  function Messages(tasks: seq<Task>): multiset<Frame> { multiset(Contents(tasks)) }

  lemma MessagesAppend(a: seq<Task>, b: seq<Task>)
    ensures Messages(a + b) == Messages(a) + Messages(b)
  {
    assert Contents(a + b) == Contents(a) + Contents(b);
  }

  lemma MessagesPush(tasks: seq<Task>, x: Task)
    ensures Messages(tasks + [x]) == Messages(tasks) + multiset{x.msg}
  {
    assert Contents([x]) == [x.msg];
    MessagesAppend(tasks, [x]);
  }

  lemma {:induction false} ReceivedAppend(log: seq<Read>, r: Read)
    ensures ReceivedBag(log + [r]) == ReceivedBag(log) + multiset{r.frame}
  {
    assert (log + [r])[..|log|] == log;
  }

  lemma {:induction false} RoutedAppend(log: seq<Routed>, q: Routed)
    ensures RoutedBag(log + [q]) == RoutedBag(log) + multiset{q.frame}
  {
    assert (log + [q])[..|log|] == log;
  }

  lemma {:induction false} PushedAppend(log: seq<Routed>, q: Routed)
    ensures Pushed(log + [q]) ==
      Pushed(log) + (if q.target.Some? then [Task(q.target.value, q.frame)] else [])
  {
    assert (log + [q])[..|log|] == log;
  }

  lemma {:induction false} DoneAppend(log: seq<Done>, d: Done)
    ensures DoneTasks(log + [d]) == DoneTasks(log) + [d.task]
  {
    assert (log + [d])[..|log|] == log;
  }

  /** Pushes against pops and the queue. */
  ghost predicate QueueBalanced(s: System) { s.log.popped + s.writeQ == Pushed(s.log.routed) }

  /** Frames read against routing decisions and frames in readers' hands. */
  ghost predicate FramesBalanced(s: System) {
    ReceivedBag(s.log.received) == RoutedBag(s.log.routed) + Bag(s.workers, Carried)
  }

  /** Tasks popped against endings and tasks in writers' hands. */
  ghost predicate TasksBalanced(s: System) {
    multiset(s.log.popped) == multiset(DoneTasks(s.log.done)) + Bag(s.workers, InHand)
  }

  /** The same for the frames in those tasks. */
  ghost predicate MessagesBalanced(s: System) {
    Messages(s.log.popped) == Messages(DoneTasks(s.log.done)) + Bag(s.workers, MessageInHand)
  }

  ghost predicate Balanced(s: System) {
    QueueBalanced(s) && FramesBalanced(s) && TasksBalanced(s) && MessagesBalanced(s)
  }

  lemma MovesKeepQueueBalance(s: System, s': System, pc: Pc, next: Pc, src: int, e: Effect)
    requires Records(s, s', pc, next, src, e) && QueueBalanced(s)
    ensures QueueBalanced(s')
  {
    hide Pushed, Carried, InHand;
    match e
    case Dropped(f) => PushedAppend(s.log.routed, Routed(src, f, None));
    case Queued(f, target) =>
      PushedAppend(s.log.routed, Routed(src, f, Some(target)));
      assert s.log.popped + (s.writeQ + [Task(target, f)]) == (s.log.popped + s.writeQ) + [Task(target, f)];
    case Took(task) =>
      assert (s.log.popped + [task]) + s'.writeQ == s.log.popped + ([task] + s'.writeQ);
    case _ =>
  }

  lemma MovesKeepFrameBalance(s: System, s': System, t: nat, next: Pc, src: int, e: Effect)
    requires t < |s.workers| && s'.workers == s.workers[t := next]
    requires Records(s, s', s.workers[t], next, src, e) && FramesBalanced(s)
    ensures FramesBalanced(s')
  {
    hide Bag, ReceivedBag, RoutedBag, InHand;
    match e
    case Got(f) =>
      BagGains(s.workers, Carried, t, next);
      ReceivedAppend(s.log.received, Read(src, f));
    case Dropped(f) =>
      BagLoses(s.workers, Carried, t, next);
      RoutedAppend(s.log.routed, Routed(src, f, None));
    case Queued(f, target) =>
      BagLoses(s.workers, Carried, t, next);
      RoutedAppend(s.log.routed, Routed(src, f, Some(target)));
    case _ =>
      BagSame(s.workers, Carried, t, next);
  }

  lemma MovesKeepTaskBalance(s: System, s': System, t: nat, next: Pc, src: int, e: Effect)
    requires t < |s.workers| && s'.workers == s.workers[t := next]
    requires Records(s, s', s.workers[t], next, src, e) && TasksBalanced(s)
    ensures TasksBalanced(s')
  {
    hide Bag, DoneTasks, Carried;
    match e
    case Took(task) =>
      BagGains(s.workers, InHand, t, next);
    case Ended(task, fate) =>
      BagLoses(s.workers, InHand, t, next);
      DoneAppend(s.log.done, Done(task, fate));
    case _ =>
      BagSame(s.workers, InHand, t, next);
  }

  lemma MovesKeepMessageBalance(s: System, s': System, t: nat, next: Pc, src: int, e: Effect)
    requires t < |s.workers| && s'.workers == s.workers[t := next]
    requires Records(s, s', s.workers[t], next, src, e) && MessagesBalanced(s)
    ensures MessagesBalanced(s')
  {
    hide Bag, DoneTasks, Carried, Messages;
    match e
    case Took(task) =>
      BagGains(s.workers, MessageInHand, t, next);
      MessagesPush(s.log.popped, task);
    case Ended(task, fate) =>
      BagLoses(s.workers, MessageInHand, t, next);
      DoneAppend(s.log.done, Done(task, fate));
      MessagesPush(DoneTasks(s.log.done), task);
    case _ =>
      BagSame(s.workers, MessageInHand, t, next);
  }

  lemma MovesKeepBalance(s: System, s': System, t: nat, next: Pc, src: int, e: Effect)
    requires Moves(s, s', t, next, src, e) && Balanced(s)
    ensures Balanced(s')
  {
    hide QueueBalanced, FramesBalanced, TasksBalanced, MessagesBalanced, LockMove, Records;
    MovesKeepQueueBalance(s, s', s.workers[t], next, src, e);
    MovesKeepFrameBalance(s, s', t, next, src, e);
    MovesKeepTaskBalance(s, s', t, next, src, e);
    MovesKeepMessageBalance(s, s', t, next, src, e);
  }

  // ---------------------------------------------------------------- order

  /** The frames of one source, in the order they were read. */
  function ReadFrom(log: seq<Read>, src: int): seq<Frame> {
    if log == [] then []
    else ReadFrom(log[..|log| - 1], src) + (if log[|log| - 1].src == src then [log[|log| - 1].frame] else [])
  }

  /** The frames of one source, in the order in which routing disposed of them. */
  function RoutedFrom(log: seq<Routed>, src: int): seq<Frame> {
    if log == [] then []
    else RoutedFrom(log[..|log| - 1], src) + (if log[|log| - 1].src == src then [log[|log| - 1].frame] else [])
  }

  /** The worker that holds a session's mutex. */
  function Holder(s: System, h: nat): Pc {
    if h in s.locks && s.locks[h] < |s.workers| then s.workers[s.locks[h]] else ReadIdle
  }

  function AsSeq<X>(o: Option<X>): seq<X> { if o.Some? then [o.value] else [] }

  ghost predicate InOrder(s: System, h: nat)
    requires h < |s.reg.cells|
  {
    var sock := s.reg.cells[h].socket;
    ReadFrom(s.log.received, sock) == RoutedFrom(s.log.routed, sock) + AsSeq(Carried(Holder(s, h)))
  }

  /** Nothing is on record for a descriptor that was never accepted. */
  ghost predicate Unheard(s: System, sock: int) {
    ReadFrom(s.log.received, sock) == [] && RoutedFrom(s.log.routed, sock) == []
  }

  ghost predicate Ordered(s: System) {
    && (forall h :: 0 <= h < |s.reg.cells| ==> InOrder(s, h))
    && (forall sock :: sock !in s.conns ==> Unheard(s, sock))
    && s.conns.Keys <= s.open
  }

  lemma {:induction false} OrderAppends(log: Log, r: Read, q: Routed, src: int)
    ensures ReadFrom(log.received + [r], src) ==
      ReadFrom(log.received, src) + (if r.src == src then [r.frame] else [])
    ensures RoutedFrom(log.routed + [q], src) ==
      RoutedFrom(log.routed, src) + (if q.src == src then [q.frame] else [])
  {
    assert (log.received + [r])[..|log.received|] == log.received;
    assert (log.routed + [q])[..|log.routed|] == log.routed;
  }

  /** Who holds a mutex after a worker has moved: nothing changes but at the moving worker. */
  lemma HolderAfterMove(s: System, s': System, t: nat, next: Pc, h: nat)
    requires LocksOk(s) && t < |s.workers| && s'.workers == s.workers[t := next]
    requires LockMove(s.locks, s'.locks, t, s.workers[t], next)
    ensures Held(s.workers[t]) == Some(h) ==> Holder(s, h) == s.workers[t]
    ensures Held(next) == Some(h) ==> Holder(s', h) == next
    ensures Held(next) == Some(h) && Held(s.workers[t]).None? ==> Holder(s, h) == ReadIdle
    ensures Held(s.workers[t]) == Some(h) && Held(next).None? ==> Holder(s', h) == ReadIdle
    ensures Held(s.workers[t]) != Some(h) && Held(next) != Some(h) ==> Holder(s', h) == Holder(s, h)
  {
  }

  /** The mutex of a session is with the moving worker exactly when it moves for that session. */
  lemma CarriedAfterMove(s: System, s': System, t: nat, next: Pc, h: nat)
    requires LocksOk(s) && t < |s.workers| && s'.workers == s.workers[t := next]
    requires LockMove(s.locks, s'.locks, t, s.workers[t], next)
    ensures Held(s.workers[t]) == Some(h) ==> Carried(Holder(s, h)) == Carried(s.workers[t])
    ensures Held(s.workers[t]) == Some(h) ==> Carried(Holder(s', h)) == Carried(next)
    ensures Held(s.workers[t]) != Some(h) ==> Carried(Holder(s', h)) == Carried(Holder(s, h)) || Held(next) == Some(h)
    ensures Held(s.workers[t]) != Some(h) && Held(next) == Some(h) ==>
      Carried(Holder(s, h)).None? && Carried(s.workers[t]).None? && Carried(Holder(s', h)) == Carried(next)
  {
    HolderAfterMove(s, s', t, next, h);
    hide Holder, LocksOk;
  }

  lemma QuietKeepsOrderOf(s: System, s': System, t: nat, next: Pc, h: nat)
    requires LocksOk(s) && t < |s.workers| && s'.workers == s.workers[t := next]
    requires LockMove(s.locks, s'.locks, t, s.workers[t], next) && Carried(next) == Carried(s.workers[t])
    requires h < |s.reg.cells| <= |s'.reg.cells| && s'.reg.cells[h].socket == s.reg.cells[h].socket
    requires s'.log.received == s.log.received && s'.log.routed == s.log.routed
    requires InOrder(s, h)
    ensures InOrder(s', h)
  {
    CarriedAfterMove(s, s', t, next, h);
    hide Holder, ReadFrom, RoutedFrom, LockMove, LocksOk, Carried;
  }

  /** The account of one source when a worker touches a frame of some source. */
  lemma TouchKeepsAccount(log: Log, log': Log, sock: int, src: int, e: Effect,
                          before: Option<Frame>, after: Option<Frame>)
    requires ReadFrom(log.received, sock) == RoutedFrom(log.routed, sock) + AsSeq(before)
    requires src != sock ==> after == before
    requires match e
      case Got(f) =>
        && log' == log.(received := log.received + [Read(src, f)])
        && (src == sock ==> before == None && after == Some(f))
      case Dropped(f) =>
        && log' == log.(routed := log.routed + [Routed(src, f, None)])
        && (src == sock ==> before == Some(f) && after == None)
      case Queued(f, target) =>
        && log' == log.(routed := log.routed + [Routed(src, f, Some(target))])
        && (src == sock ==> before == Some(f) && after == None)
      case _ => false
    ensures ReadFrom(log'.received, sock) == RoutedFrom(log'.routed, sock) + AsSeq(after)
  {
    hide ReadFrom, RoutedFrom;
    match e
    case Got(f) => OrderAppends(log, Read(src, f), Routed(src, f, None), sock);
    case Dropped(f) => OrderAppends(log, Read(src, f), Routed(src, f, None), sock);
    case Queued(f, target) => OrderAppends(log, Read(src, f), Routed(src, f, Some(target)), sock);
  }

  lemma TouchKeepsOrderOf(s: System, s': System, t: nat, next: Pc, src: int, e: Effect, h: nat)
    requires Moves(s, s', t, next, src, e) && Touches(e) && LocksOk(s)
    requires h < |s.reg.cells| <= |s'.reg.cells| && s'.reg.cells[h].socket == s.reg.cells[h].socket
    requires InOrder(s, h) && Distinct(s.reg)
    ensures InOrder(s', h)
  {
    var sock := s.reg.cells[h].socket;
    CarriedAfterMove(s, s', t, next, h);
    assert Held(next) == Some(h) <==> src == sock;
    hide Holder, ReadFrom, RoutedFrom, LockMove, LocksOk, Carried, Held;
    TouchKeepsAccount(s.log, s'.log, sock, src, e, Carried(Holder(s, h)), Carried(Holder(s', h)));
  }

  lemma MovesKeepOrderOf(s: System, s': System, t: nat, next: Pc, src: int, e: Effect, h: nat)
    requires Moves(s, s', t, next, src, e) && LocksOk(s)
    requires h < |s.reg.cells| <= |s'.reg.cells| && s'.reg.cells[h].socket == s.reg.cells[h].socket
    requires InOrder(s, h) && Distinct(s.reg)
    ensures InOrder(s', h)
  {
    hide InOrder, LocksOk, LockMove, Carried, InHand;
    if Touches(e) {
      TouchKeepsOrderOf(s, s', t, next, src, e, h);
    } else {
      QuietKeepsOrderOf(s, s', t, next, h);
    }
  }

  lemma MovesKeepUnheard(s: System, s': System, t: nat, next: Pc, src: int, e: Effect, sock: int)
    requires Moves(s, s', t, next, src, e) && SocketsOpen(s)
    requires sock !in s.conns && Unheard(s, sock)
    ensures Unheard(s', sock)
  {
    hide ReadFrom, RoutedFrom, LockMove;
    match e
    case Got(f) => OrderAppends(s.log, Read(src, f), Routed(src, f, None), sock);
    case Dropped(f) => OrderAppends(s.log, Read(src, f), Routed(src, f, None), sock);
    case Queued(f, target) => OrderAppends(s.log, Read(src, f), Routed(src, f, Some(target)), sock);
    case _ =>
  }

  // ---------------------------------------------------------------- a single writer

  ghost predicate OnlyWriter(s: System, w: nat) {
    w < |s.workers| && forall t :: 0 <= t < |s.workers| && t != w ==> !IsWriter(s.workers[t])
  }

  /** One writer ends tasks in the order in which it popped them. */
  ghost predicate EndsInOrder(s: System, w: nat) {
    OnlyWriter(s, w) && s.log.popped == DoneTasks(s.log.done) + AsSeq(InHand(s.workers[w]))
  }

  lemma MovesKeepEndOrder(s: System, s': System, t: nat, next: Pc, src: int, e: Effect, w: nat)
    requires Moves(s, s', t, next, src, e) && EndsInOrder(s, w)
    ensures EndsInOrder(s', w)
  {
    hide DoneTasks, LockMove, Carried;
    assert OnlyWriter(s', w);
    if t != w {
      assert !IsWriter(s.workers[t]);
      NoTaskWithReader(s.workers[t]);
      NoTaskWithReader(next);
    }
    if e.Ended? { DoneAppend(s.log.done, Done(e.task, e.fate)); }
    hide InHand, IsWriter;
  }

  lemma NoTaskWithReader(pc: Pc)
    requires !IsWriter(pc)
    ensures InHand(pc).None?
  {
  }
}
