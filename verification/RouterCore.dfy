/** What every step of the router keeps: the registry stays consistent, mutexes are held by who
    thinks to hold them, and every worker's local knowledge is true. */
module RouterCore {
  import opened Options
  import opened Transport
  import opened Registry
  import opened RouterSystem
  import M = RouterMessage

  /** The session mutex a worker holds. */
  function Held(pc: Pc): Option<nat> {
    match pc
    case ReadCheck(_, h) => Some(h)
    case ReadLoop(_, h, _) => Some(h)
    case ReadClaim(_, h, _, _) => Some(h)
    case ReadRoute(_, h, _, _) => Some(h)
    case ReadForward(_, h, _, _, _) => Some(h)
    case ReadRemove(_, h) => Some(h)
    case ReadUnlock(h) => Some(h)
    case WriteSend(_, h) => Some(h)
    case WriteRemove(_, h) => Some(h)
    case WriteUnlock(h) => Some(h)
    case _ => None
  }

  /** `h` is the session that was created for `sock`. */
  predicate Owns(r: Registry, sock: int, h: nat) { h < |r.cells| && r.cells[h].socket == sock }

  /** A frame with a proper destination goes to a session that registered under it. */
  predicate Addressed(r: Registry, frame: Frame, h: nat) {
    h < |r.cells| && (M.DstOf(frame) != NONE ==> r.cells[h].id == M.DstOf(frame))
  }

  /** The reader works on the live session whose mutex it holds. */
  predicate Serving(r: Registry, sock: int, h: nat, x: nat) { Owns(r, sock, h) && x == h && r.Live(h) }

  ghost predicate PcOk(r: Registry, pc: Pc) {
    match pc
    case ReadWant(sock, h) => Owns(r, sock, h)
    case ReadCheck(sock, h) => Owns(r, sock, h)
    case ReadLoop(sock, h, x) => Serving(r, sock, h, x)
    case ReadClaim(sock, h, x, b) => Serving(r, sock, h, x) && r.cells[h].id == NONE && |b| == ID_SIZE
    case ReadRoute(sock, h, x, _) => Serving(r, sock, h, x) && r.cells[h].id != NONE
    case ReadForward(sock, h, x, frame, dst) =>
      Serving(r, sock, h, x) && r.cells[h].id != NONE && Addressed(r, frame, dst)
    case ReadRemove(sock, h) => Serving(r, sock, h, h)
    case ReadUnlock(h) => h < |r.cells|
    case WriteWant(task, h) => Owns(r, task.socket, h)
    case WriteSend(task, h) => Owns(r, task.socket, h)
    case WriteRemove(task, h) => Owns(r, task.socket, h)
    case WriteUnlock(h) => h < |r.cells|
    case _ => true
  }

  ghost predicate LocksOk(s: System) {
    && (forall t :: 0 <= t < |s.workers| && Held(s.workers[t]).Some? ==>
          Held(s.workers[t]).value in s.locks && s.locks[Held(s.workers[t]).value] == t)
    && (forall h :: h in s.locks ==> s.locks[h] < |s.workers| && Held(s.workers[s.locks[h]]) == Some(h))
  }

  ghost predicate SocketsOpen(s: System) {
    forall h :: 0 <= h < |s.reg.cells| ==> s.reg.cells[h].socket in s.open && s.reg.cells[h].socket in s.conns
  }

  ghost predicate Core(s: System) {
    && Consistent(s.reg) && SocketsOpen(s) && LocksOk(s)
    && (forall t :: 0 <= t < |s.workers| ==> PcOk(s.reg, s.workers[t]))
    && !s.listener.ListenStuck?
  }

  // ---------------------------------------------------------------- how the registry may change

  /** Sessions are only added, sockets are fixed, an id leaves `NONE` at most once; only for
      session `who` may an id be set or the session be removed. */
  ghost predicate Evolves(r: Registry, q: Registry, who: Option<nat>) {
    && |r.cells| <= |q.cells|
    && (forall h :: 0 <= h < |r.cells| ==>
          && q.cells[h].socket == r.cells[h].socket
          && (q.cells[h].id == r.cells[h].id || (r.cells[h].id == NONE && who == Some(h)))
          && (r.Live(h) && who != Some(h) ==> q.Live(h)))
  }

  lemma PcStable(r: Registry, q: Registry, who: Option<nat>, pc: Pc)
    requires PcOk(r, pc) && Evolves(r, q, who)
    requires Held(pc).Some? ==> Held(pc) != who
    ensures PcOk(q, pc)
  {
  }

  /** A worker keeps the mutex it has, takes one that is free, or gives up the one it has. */
  ghost predicate LockMove(locks: map<nat, nat>, after: map<nat, nat>, t: nat, pc: Pc, next: Pc) {
    || (Held(pc) == Held(next) && after == locks)
    || (Held(pc).None? && Held(next).Some? && Held(next).value !in locks && after == locks[Held(next).value := t])
    || (Held(pc).Some? && Held(next).None? && after == locks - {Held(pc).value})
  }

  lemma LocksStay(s: System, s': System, t: nat, next: Pc)
    requires LocksOk(s) && t < |s.workers| && s'.workers == s.workers[t := next]
    requires LockMove(s.locks, s'.locks, t, s.workers[t], next)
    ensures LocksOk(s')
  {
    var pc := s.workers[t];
    forall u | 0 <= u < |s'.workers| && Held(s'.workers[u]).Some?
      ensures Held(s'.workers[u]).value in s'.locks && s'.locks[Held(s'.workers[u]).value] == u
    {
      if u != t { assert s'.workers[u] == s.workers[u]; }
    }
    forall h | h in s'.locks
      ensures s'.locks[h] < |s'.workers| && Held(s'.workers[s'.locks[h]]) == Some(h)
    {
      if h in s.locks && s.locks[h] != t { assert s'.workers[s.locks[h]] == s.workers[s.locks[h]]; }
    }
  }

  /** The frame rule for worker steps: local conditions on the moving worker suffice. */
  lemma WorkerKeepsCore(s: System, s': System, t: nat, next: Pc)
    requires Core(s) && t < |s.workers| && s'.workers == s.workers[t := next]
    requires LockMove(s.locks, s'.locks, t, s.workers[t], next)
    requires Evolves(s.reg, s'.reg, Held(s.workers[t])) && Consistent(s'.reg) && SocketsOpen(s')
    requires PcOk(s'.reg, next) && s'.listener == s.listener
    ensures Core(s')
  {
    LocksStay(s, s', t, next);
    forall u | 0 <= u < |s'.workers| ensures PcOk(s'.reg, s'.workers[u]) {
      if u != t {
        assert s'.workers[u] == s.workers[u];
        PcStable(s.reg, s'.reg, Held(s.workers[t]), s.workers[u]);
      }
    }
  }

  // ---------------------------------------------------------------- steps that only move a worker

  lemma SameRegistry(r: Registry, who: Option<nat>)
    ensures Evolves(r, r, who)
  {
  }

  lemma QuietStep(s: System, s': System, t: nat, next: Pc)
    requires Core(s) && t < |s.workers| && s'.workers == s.workers[t := next]
    requires LockMove(s.locks, s'.locks, t, s.workers[t], next)
    requires s'.reg == s.reg && s'.open == s.open && s'.conns.Keys == s.conns.Keys
    requires PcOk(s.reg, next) && s'.listener == s.listener
    ensures Core(s')
  {
    SameRegistry(s.reg, Held(s.workers[t]));
    WorkerKeepsCore(s, s', t, next);
  }

  lemma LookupIsOwner(r: Registry, sock: int)
    requires Consistent(r) && FindBySocket(r, sock).Ref?
    ensures Owns(r, sock, FindBySocket(r, sock).handle) && r.Live(FindBySocket(r, sock).handle)
  {
  }

  /** There is only one session a socket ever had. */
  lemma OwnerIsUnique(r: Registry, sock: int, g: nat, h: nat)
    requires Consistent(r) && Owns(r, sock, g) && Owns(r, sock, h)
    ensures g == h
  {
  }

  /** A read moves the worker within its loop, or out of it, under the same mutex. */
  lemma ReceiveMovesOne(s: System, t: nat, sock: int, h: nat)
    requires t < |s.workers| && s.workers[t] == ReadLoop(sock, h, h) && PcOk(s.reg, s.workers[t]) && sock in s.conns
    ensures var s' := Receive(s, t, sock, h, h);
      && |s'.workers| == |s.workers| && s'.workers == s.workers[t := s'.workers[t]]
      && Held(s'.workers[t]) == Some(h) && PcOk(s.reg, s'.workers[t]) && s'.locks == s.locks
      && s'.reg == s.reg && s'.open == s.open && s'.conns.Keys == s.conns.Keys && s'.listener == s.listener
  {
    hide ReadN;
    ReadNConsumes(s.conns[sock].rest, if s.reg.cells[h].id != NONE then FRAME_SIZE else ID_SIZE);
  }

  lemma ReceiveKeepsCore(s: System, t: nat)
    requires Core(s) && CanWork(s, t) && s.workers[t].ReadLoop?
    ensures Meaningful(s, s.workers[t]) && Core(ReaderStep(s, t))
  {
    hide Consistent, Receive, LocksOk;
    var pc := s.workers[t];
    assert PcOk(s.reg, pc);
    assert s.reg.Typed() by { KnownTyped(s.reg); }
    ReceiveMovesOne(s, t, pc.sock, pc.h);
    var s' := ReaderStep(s, t);
    assert s' == Receive(s, t, pc.sock, pc.h, pc.h);
    hide ReaderStep, PcOk, Core;
    QuietStep(s, s', t, s'.workers[t]);
  }

  lemma KnownTyped(r: Registry)
    requires Consistent(r)
    ensures r.Typed()
  {
  }

  lemma ClaimKeepsCore(s: System, t: nat)
    requires Core(s) && CanWork(s, t) && s.workers[t].ReadClaim?
    ensures Core(ReaderStep(s, t))
  {
    var pc := s.workers[t];
    assert PcOk(s.reg, pc);
    var q := AddNode(s.reg, pc.sock, M.IdOf(pc.idBytes));
    FirstClaim(s.reg, pc.sock, M.IdOf(pc.idBytes));
    assert Evolves(s.reg, q, Some(pc.h));
    WorkerKeepsCore(s, ReaderStep(s, t), t, ReadLoop(pc.sock, pc.h, pc.x));
  }

  lemma RouteKeepsCore(s: System, t: nat)
    requires Core(s) && CanWork(s, t) && s.workers[t].ReadRoute?
    ensures Core(ReaderStep(s, t))
  {
    var pc := s.workers[t];
    assert PcOk(s.reg, pc);
    var d := M.DstOf(pc.frame);
    var s' := ReaderStep(s, t);
    if FindById(s.reg, d).Ref? {
      assert EntryOk(s.reg, d);
    }
    hide Consistent, M.DstOf;
    QuietStep(s, s', t, s'.workers[t]);
  }

  lemma ForwardKeepsCore(s: System, t: nat)
    requires Core(s) && CanWork(s, t) && s.workers[t].ReadForward?
    ensures Meaningful(s, s.workers[t]) && Core(ReaderStep(s, t))
  {
    var pc := s.workers[t];
    assert PcOk(s.reg, pc);
    QuietStep(s, ReaderStep(s, t), t, ReadLoop(pc.sock, pc.h, pc.x));
  }

  /** Removal by a worker that holds the session's mutex disturbs nobody else. */
  lemma RemovalEvolves(r: Registry, sock: int, h: nat)
    requires Consistent(r) && Owns(r, sock, h)
    ensures Consistent(Remove(r, sock)) && Evolves(r, Remove(r, sock), Some(h))
    ensures Remove(r, sock).cells == r.cells
  {
    RemoveKeeps(r, sock);
  }

  lemma RemoveKeepsCore(s: System, t: nat)
    requires Core(s) && CanWork(s, t) && s.workers[t].ReadRemove?
    ensures Core(ReaderStep(s, t))
  {
    var pc := s.workers[t];
    assert PcOk(s.reg, pc);
    RemovalEvolves(s.reg, pc.sock, pc.h);
    WorkerKeepsCore(s, ReaderStep(s, t), t, ReadUnlock(pc.h));
  }

  lemma ReaderKeepsCore(s: System, t: nat)
    requires Core(s) && CanWork(s, t) && !IsWriter(s.workers[t])
    ensures Meaningful(s, s.workers[t]) && Core(ReaderStep(s, t))
  {
    var pc := s.workers[t];
    assert PcOk(s.reg, pc);
    match pc
    case ReadLoop(_, _, _) => ReceiveKeepsCore(s, t);
    case ReadClaim(_, _, _, _) => ClaimKeepsCore(s, t);
    case ReadRoute(_, _, _, _) => RouteKeepsCore(s, t);
    case ReadForward(_, _, _, _, _) => ForwardKeepsCore(s, t);
    case ReadRemove(_, _) => RemoveKeepsCore(s, t);
    case _ => ReaderMovesKeepCore(s, t);
  }

  lemma ReaderMovesKeepCore(s: System, t: nat)
    requires Core(s) && CanWork(s, t)
    requires var pc := s.workers[t];
      pc.ReadIdle? || pc.ReadLookup? || pc.ReadWant? || pc.ReadCheck? || pc.ReadUnlock?
    ensures Core(ReaderStep(s, t))
  {
    var pc := s.workers[t];
    assert PcOk(s.reg, pc);
    KnownTyped(s.reg);
    if pc.ReadLookup? || pc.ReadCheck? {
      if FindBySocket(s.reg, pc.sock).Ref? {
        LookupIsOwner(s.reg, pc.sock);
        if pc.ReadCheck? { OwnerIsUnique(s.reg, pc.sock, pc.h, FindBySocket(s.reg, pc.sock).handle); }
      }
    }
    hide Consistent;
    var s' := ReaderStep(s, t);
    QuietStep(s, s', t, s'.workers[t]);
  }

  lemma WriterRemovalKeepsCore(s: System, t: nat)
    requires Core(s) && CanWork(s, t) && s.workers[t].WriteRemove?
    ensures Meaningful(s, s.workers[t]) && Core(WriterStep(s, t, false))
    ensures WriterStep(s, t, true) == WriterStep(s, t, false)
  {
    var pc := s.workers[t];
    assert PcOk(s.reg, pc);
    RemovalEvolves(s.reg, s.reg.cells[pc.h].socket, pc.h);
    WorkerKeepsCore(s, WriterStep(s, t, false), t, WriteUnlock(pc.h));
  }

  lemma WriterKeepsCore(s: System, t: nat, sendOk: bool)
    requires Core(s) && CanWork(s, t) && IsWriter(s.workers[t])
    ensures Meaningful(s, s.workers[t]) && Core(WriterStep(s, t, sendOk))
  {
    var pc := s.workers[t];
    if pc.WriteRemove? {
      WriterRemovalKeepsCore(s, t);
    } else {
      WriterMovesKeepCore(s, t, sendOk);
    }
  }

  /** Writer steps other than a removal: only the worker, its session mutex and the record move. */
  ghost predicate WriterMovesOn(s: System, s': System, t: nat) {
    && t < |s.workers| == |s'.workers|
    && s'.workers == s.workers[t := s'.workers[t]]
    && s'.reg == s.reg && s'.open == s.open && s'.conns == s.conns && s'.listener == s.listener
    && LockMove(s.locks, s'.locks, t, s.workers[t], s'.workers[t])
    && PcOk(s.reg, s'.workers[t])
  }

  lemma WriterLooksUp(s: System, t: nat, sendOk: bool)
    requires CanWork(s, t) && s.workers[t].WriteLookup? && Meaningful(s, s.workers[t]) && Consistent(s.reg)
    ensures WriterMovesOn(s, WriterStep(s, t, sendOk), t)
  {
    hide Consistent;
    if FindBySocket(s.reg, s.workers[t].task.socket).Ref? { LookupIsOwner(s.reg, s.workers[t].task.socket); }
  }

  lemma WriterNext(s: System, t: nat, sendOk: bool)
    requires CanWork(s, t) && IsWriter(s.workers[t]) && !s.workers[t].WriteRemove?
    requires Consistent(s.reg) && PcOk(s.reg, s.workers[t])
    ensures Meaningful(s, s.workers[t])
    ensures WriterMovesOn(s, WriterStep(s, t, sendOk), t)
  {
    hide Consistent;
    KnownTyped(s.reg);
    if s.workers[t].WriteLookup? {
      hide WriterStep, WriterMovesOn;
      WriterLooksUp(s, t, sendOk);
    }
  }

  lemma WriterMovesKeepCore(s: System, t: nat, sendOk: bool)
    requires Core(s) && CanWork(s, t) && IsWriter(s.workers[t]) && !s.workers[t].WriteRemove?
    ensures Meaningful(s, s.workers[t]) && Core(WriterStep(s, t, sendOk))
  {
    hide WriterStep, Consistent, PcOk, LockMove;
    WriterNext(s, t, sendOk);
    QuietStep(s, WriterStep(s, t, sendOk), t, WriterStep(s, t, sendOk).workers[t]);
  }

  // ---------------------------------------------------------------- the listener

  /** Registered descriptors stay open, so the kernel never hands one out again: the branch of
      `accept_client` that would lock the registry twice is not taken. */
  lemma AcceptNeverSelfLocks(s: System, fd: int)
    requires Core(s) && fd !in s.open
    ensures FreshSocket(s.reg, fd) && Accept(s.reg, fd).Registered?
  {
    AcceptKeeps(s.reg, fd);
  }

  lemma AcceptKeepsCore(s: System, fd: int, tape: Tape)
    requires Core(s) && s.listener.ListenAccept? && fd !in s.open
    ensures Core(Accepting(s, fd, tape))
    ensures Evolves(s.reg, Accepting(s, fd, tape).reg, None)
  {
    AcceptNeverSelfLocks(s, fd);
    AcceptKeeps(s.reg, fd);
    var s' := Accepting(s, fd, tape);
    assert Evolves(s.reg, s'.reg, None);
    assert SocketsOpen(s');
    forall u | 0 <= u < |s'.workers| ensures PcOk(s'.reg, s'.workers[u]) {
      PcStable(s.reg, s'.reg, None, s.workers[u]);
    }
  }

  lemma ListenerKeepsCore(s: System, step: Step)
    requires Core(s) && Enabled(s, step) && !step.Work?
    ensures Core(ListenerStep(s, step))
  {
    hide Consistent, PcOk;
    if step.AcceptGives? {
      AcceptKeepsCore(s, step.fd, step.tape);
    }
  }

  lemma StepKeepsCore(s: System, step: Step)
    requires Core(s) && Enabled(s, step)
    ensures Core(Apply(s, step))
  {
    hide Core, ReaderStep, WriterStep, ListenerStep;
    if step.Work? {
      if IsWriter(s.workers[step.t]) {
        WriterKeepsCore(s, step.t, step.sendOk);
      } else {
        ReaderKeepsCore(s, step.t);
      }
    } else {
      ListenerKeepsCore(s, step);
    }
  }

  lemma InitialIsCore(s: System)
    requires Initial(s)
    ensures Core(s)
  {
  }

  lemma {:induction false} RunKeepsCore(s: System, steps: seq<Step>)
    requires Core(s) && ValidRun(s, steps)
    ensures Core(Run(s, steps))
    decreases |steps|
  {
    hide Core, Enabled, Apply;
    if steps != [] {
      StepKeepsCore(s, steps[0]);
      RunKeepsCore(Apply(s, steps[0]), steps[1..]);
    }
  }
}
