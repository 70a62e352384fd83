/** Every run of the fine-grained router obeys the lock order, so it never deadlocks. */
module FineLocks {
  import opened Options
  import opened Transport
  import opened Registry
  import opened RouterSystem
  import opened RouterCore
  import opened RouterStreams
  import opened RouterInvariant
  import opened RouterOutcomes
  import opened FineRouter
  import RouterMessage
  import L = LockOrder
  import Q = SignalingQueue

  // ---------------------------------------------------------------- phases tell the truth

  /** What a thread asked for is what its next step needs, and nobody asks for what it has. */
  ghost predicate PhaseOk(s: System, j: nat, p: Phase) {
    match p
    case Rest => true
    case Asked(l, w, act) =>
      && ActsFor(s, j, act) && LockFor(s, act) == Some(l) && (act.Work? || Enabled(s, act)) && w != Q.Waiting
    case Inside(l, w, act) =>
      && ActsFor(s, j, act) && LockFor(s, act) == Some(l) && (act.Work? || Enabled(s, act)) && w != Q.Waiting
      && !l.mutex.SessionMutex?
    case Leaving(l) => !l.mutex.SessionMutex?
    case Asleep => j < |s.workers| && (s.workers[j] == ReadIdle || s.workers[j] == WriteIdle)
    case Relocking(_) => false
  }

  ghost predicate PhasesOk(f: Fine) {
    && |f.phases| == |f.sys.workers| + 1
    && forall j :: 0 <= j < |f.phases| ==> PhaseOk(f.sys, j, f.phases[j])
  }

  ghost predicate FineInv(f: Fine) { Core(f.sys) && PhasesOk(f) }

  /** What a step of thread `i` leaves to the other threads. */
  ghost predicate Own(s: System, s': System, i: nat) {
    && |s'.workers| == |s.workers|
    && (forall j :: 0 <= j < |s.workers| && j != i ==> s'.workers[j] == s.workers[j])
    && (i < |s.workers| ==> s'.listener == s.listener && s'.open == s.open)
  }

  lemma PhaseStable(s: System, s': System, i: nat, j: nat, p: Phase)
    requires PhaseOk(s, j, p) && Own(s, s', i) && j != i && i <= |s.workers| && j <= |s.workers|
    ensures PhaseOk(s', j, p)
  {
  }

  lemma StepIsOwn(s: System, i: nat, act: Step)
    requires Core(s) && Enabled(s, act) && ActsFor(s, i, act)
    ensures Own(s, Apply(s, act), i)
    ensures i < |s.workers| ==> IsWriter(Apply(s, act).workers[i]) == IsWriter(s.workers[i])
  {
    if act.Work? {
      var next, src, e := WorkMoves(s, act.t, act.sendOk);
      WorkKeepsSockets(s, act.t, act.sendOk);
      WorkKeepsListener(s, act.t, act.sendOk);
      hide Apply, Core, Enabled;
    } else if act.AcceptGives? {
      AcceptShape(s, act.fd, act.tape);
    } else {
      ListenerShape(s, act);
    }
  }

  lemma WorkKeepsListener(s: System, t: nat, sendOk: bool)
    requires Enabled(s, Work(t, sendOk))
    ensures Apply(s, Work(t, sendOk)).listener == s.listener
  {
    hide ReadN;
  }

  lemma OnePhaseMoves(f: Fine, sys': System, i: nat, p: Phase)
    requires PhasesOk(f) && i < |f.phases| && Own(f.sys, sys', i) && PhaseOk(sys', i, p)
    ensures PhasesOk(Fine(sys', f.phases[i := p]))
  {
    hide PhaseOk;
    var f' := Fine(sys', f.phases[i := p]);
    forall j | 0 <= j < |f'.phases| ensures PhaseOk(f'.sys, j, f'.phases[j]) {
      if j != i { PhaseStable(f.sys, sys', i, j, f.phases[j]); }
    }
  }

  /** The step of an action belongs to the thread that takes it. */
  lemma ActsForItself(f: Fine, a: Action)
    requires PhasesOk(f) && Ready(f, a)
    ensures forall k :: 0 <= k < |SystemSteps(f, a)| ==>
      ActsFor(f.sys, a.i, SystemSteps(f, a)[k]) && Enabled(f.sys, SystemSteps(f, a)[k])
  {
    assert PhaseOk(f.sys, a.i, f.phases[a.i]);
  }

  lemma ActionIsOwn(f: Fine, a: Action)
    requires FineInv(f) && Ready(f, a)
    ensures Core(SystemAfter(f, a)) && Own(f.sys, SystemAfter(f, a), a.i)
    ensures a.i < |f.sys.workers| ==> IsWriter(SystemAfter(f, a).workers[a.i]) == IsWriter(f.sys.workers[a.i])
  {
    ActsForItself(f, a);
    hide Core, Enabled, Apply, Ready, SystemSteps, PhasesOk;
    if SystemSteps(f, a) != [] {
      StepKeepsCore(f.sys, SystemSteps(f, a)[0]);
      StepIsOwn(f.sys, a.i, SystemSteps(f, a)[0]);
    }
  }

  lemma StepsReturn(s: System, act: Step)
    requires Core(s) && (act.Work? || Enabled(s, act))
    ensures !SelfLocks(s, act)
  {
    if act.AcceptGives? { AcceptNeverSelfLocks(s, act.fd); }
  }

  /** The listener's descriptor is new, so it never asks for the registry twice. */
  lemma NeverRelocks(f: Fine, a: Action)
    requires FineInv(f) && Ready(f, a)
    ensures !a.Relock?
  {
    hide Core, Enabled, SelfLocks;
    var p := f.phases[a.i];
    assert PhaseOk(f.sys, a.i, p);
    if p.Inside? { StepsReturn(f.sys, p.act); }
  }

  lemma NewPhase(f: Fine, a: Action)
    requires FineInv(f) && Ready(f, a) && !a.Body?
    ensures a.i < |PhasesAfter(f, a)| && PhasesAfter(f, a) == f.phases[a.i := PhasesAfter(f, a)[a.i]]
    ensures PhaseOk(SystemAfter(f, a), a.i, PhasesAfter(f, a)[a.i])
  {
    NeverRelocks(f, a);
    assert PhaseOk(f.sys, a.i, f.phases[a.i]);
    hide Core, Apply, Enabled;
  }

  lemma SleeperPicked(f: Fine, i: nat, wake: nat)
    requires FineInv(f) && Ready(f, Body(i, wake)) && Picks(f, f.phases[i].act)
    ensures var which := Notifies(f.sys, f.phases[i].act).value;
      && wake < |f.sys.workers| && wake != i && f.phases[wake] == Asleep && f.sys.workers[wake] == IdleAt(which)
      && LockFor(f.sys, Work(wake, true)) == Some(QueueLock(which))
  {
    var which := Notifies(f.sys, f.phases[i].act).value;
    assert Consumers(f, which)[wake] == Q.Waiting;
    assert PhaseOk(f.sys, wake, f.phases[wake]);
    hide Core, Enabled;
  }

  lemma BodyKeepsPhases(f: Fine, i: nat, wake: nat)
    requires FineInv(f) && Ready(f, Body(i, wake))
    ensures PhasesOk(Do(f, Body(i, wake)))
  {
    var p, f' := f.phases[i], Do(f, Body(i, wake));
    ActionIsOwn(f, Body(i, wake));
    assert PhaseOk(f.sys, i, p);
    OnePhaseMoves(f, f'.sys, i, Leaving(p.lock));
    if Picks(f, p.act) {
      SleeperPicked(f, i, wake);
      hide Core, Enabled, Apply;
      OnePhaseMoves(Fine(f'.sys, f.phases[i := Leaving(p.lock)]), f'.sys, wake, f'.phases[wake]);
    }
  }

  lemma ActionKeepsInv(f: Fine, a: Action)
    requires FineInv(f) && Ready(f, a)
    ensures FineInv(Do(f, a))
  {
    ActionIsOwn(f, a);
    hide Core, Ready, PhaseOk, PhasesOk, SystemAfter, PhasesAfter, Own;
    if a.Body? {
      BodyKeepsPhases(f, a.i, a.wake);
    } else {
      NewPhase(f, a);
      InBounds(f, a);
      OnePhaseMoves(f, SystemAfter(f, a), a.i, PhasesAfter(f, a)[a.i]);
    }
  }

  lemma InBounds(f: Fine, a: Action)
    requires Ready(f, a)
    ensures a.i < |f.phases|
  {
  }

  lemma StartsWell(f: Fine)
    requires Starts(f)
    ensures FineInv(f)
  {
    InitialIsCore(f.sys);
    hide Core;
  }

  lemma {:induction false} RunKeepsFineInv(f: Fine, actions: seq<Action>)
    requires FineInv(f) && ValidActions(f, actions)
    ensures FineInv(After(f, actions))
    decreases |actions|
  {
    hide FineInv, Ready, Do;
    if actions != [] {
      ActionKeepsInv(f, actions[0]);
      RunKeepsFineInv(Do(f, actions[0]), actions[1..]);
    }
  }

  // ---------------------------------------------------------------- every run is a run of the lock machine

  predicate GivesUp(pc: Pc) { pc.ReadUnlock? || pc.WriteUnlock? }

  /** How a step changes the session mutex of its worker. */
  ghost predicate HeldMoves(pc: Pc, next: Pc) {
    && (pc.ReadWant? || pc.WriteWant? ==> Held(pc).None? && Held(next) == Some(pc.h))
    && (GivesUp(pc) ==> Held(pc).Some? && Held(next).None?)
    && (!pc.ReadWant? && !pc.WriteWant? && !GivesUp(pc) ==> Held(next) == Held(pc))
  }

  lemma ReaderHolds(s: System, t: nat)
    requires CanWork(s, t) && Meaningful(s, s.workers[t]) && !IsWriter(s.workers[t]) && !s.workers[t].ReadLoop?
    ensures t < |ReaderStep(s, t).workers| && HeldMoves(s.workers[t], ReaderStep(s, t).workers[t])
  {
    hide AddNode, Remove, RouterMessage.DstOf, RouterMessage.IdOf;
  }

  lemma WriterHolds(s: System, t: nat, sendOk: bool)
    requires CanWork(s, t) && Meaningful(s, s.workers[t]) && IsWriter(s.workers[t])
    ensures t < |WriterStep(s, t, sendOk).workers| && HeldMoves(s.workers[t], WriterStep(s, t, sendOk).workers[t])
  {
    hide Remove;
  }

  lemma HeldAfter(s: System, t: nat, sendOk: bool)
    requires Enabled(s, Work(t, sendOk))
    ensures t < |Apply(s, Work(t, sendOk)).workers|
    ensures HeldMoves(s.workers[t], Apply(s, Work(t, sendOk)).workers[t])
  {
    var pc := s.workers[t];
    if IsWriter(pc) {
      hide WriterStep, HeldMoves;
      WriterHolds(s, t, sendOk);
    } else if pc.ReadLoop? {
      ReceiveShape(s, t, pc.sock, pc.h, pc.x);
      hide Receive;
    } else {
      hide ReaderStep, HeldMoves;
      ReaderHolds(s, t);
    }
  }

  ghost function LockSteps(f: Fine, a: Action): seq<L.Step>
    requires Ready(f, a)
  {
    var i, p := a.i, f.phases[a.i];
    match a
    case Ask(_, act) => [L.Request(i, LockFor(f.sys, act).value)]
    case Enter(_) => [L.Acquire(i)]
    case Body(_, wake) =>
      if Picks(f, p.act) then [L.Request(wake, QueueLock(Notifies(f.sys, p.act).value))] else []
    case Doze(_) => [L.Release(i)]
    case Stir(_) => [L.Request(i, NextLock(f.sys.workers[i]).value)]
    case Leave(_) => [L.Release(i)]
    case Direct(_, act) => if act.Work? && GivesUp(f.sys.workers[i]) then [L.Release(i)] else []
    case Relock(_) => []
  }

  /** At most one step of the lock machine leads from `ts` to `ts'`. */
  ghost predicate LockMoves(ts: L.Threads, ls: seq<L.Step>, ts': L.Threads) {
    if ls == [] then ts' == ts
    else |ls| == 1 && L.Enabled(ts, ls[0]) && L.Apply(ts, ls[0]) == ts'
  }

  lemma OneThreadMoves(f: Fine, f': Fine, i: nat)
    requires |f.phases| == |f.sys.workers| + 1 && i < |f.phases| && Own(f.sys, f'.sys, i)
    requires |f'.phases| == |f.phases| && f'.phases == f.phases[i := f'.phases[i]]
    ensures Threads(f') == Threads(f)[i := ThreadAt(f', i)]
  {
    forall j | 0 <= j < |f.phases| && j != i ensures ThreadAt(f', j) == ThreadAt(f, j) {}
  }

  lemma Sizes(f: Fine)
    requires FineInv(f)
    ensures |f.phases| == |f.sys.workers| + 1
  {
  }

  /** What each program point asks for is what the lock order allows. */
  lemma RequestsAreDisciplined(s: System, i: nat, act: Step)
    requires ActsFor(s, i, act) && LockFor(s, act).Some?
    ensures i < |s.workers| ==> L.MayRequest(RoleOf(s.workers[i]), HeldLocks(s.workers[i]), LockFor(s, act).value)
    ensures i == |s.workers| ==> L.MayRequest(L.Listener, [], LockFor(s, act).value)
  {
  }

  // What each kind of action does to its own thread.

  lemma WorkerEnters(pc: Pc, next: Pc, p: Phase, p': Phase)
    requires p.Asked? && RoleOf(next) == RoleOf(pc) && PhaseWants(p').None?
    requires
      || (Held(next) == Held(pc) && PhaseHeld(p') == [p.lock])
      || (Held(pc).None? && Held(next).Some? && p.lock == SessionLock(Held(next).value) && PhaseHeld(p') == [])
    ensures var th := WorkerThread(pc, p);
      && th.wants == Some(p.lock)
      && WorkerThread(next, p') == th.(held := th.held + [p.lock], wants := None)
  {
    hide Held, RoleOf;
    assert HeldLocks(pc) + [] == HeldLocks(pc);
  }

  lemma WorkerLeaves(pc: Pc, p: Phase, p': Phase)
    requires |PhaseHeld(p)| == 1 && PhaseWants(p).None? && PhaseHeld(p') == [] && PhaseWants(p').None?
    ensures var th := WorkerThread(pc, p);
      && th.wants.None? && th.held != []
      && WorkerThread(pc, p') == th.(held := th.held[..|th.held| - 1])
  {
    hide Held, RoleOf, PhaseHeld, PhaseWants;
    var base := HeldLocks(pc);
    assert (base + PhaseHeld(p))[..|base|] == base && base + [] == base;
  }

  lemma WorkerGivesUp(pc: Pc, next: Pc)
    requires RoleOf(next) == RoleOf(pc) && Held(pc).Some? && Held(next).None?
    ensures var th := WorkerThread(pc, Rest);
      th.wants.None? && |th.held| == 1 && WorkerThread(next, Rest) == th.(held := th.held[..0])
  {
    hide Held, RoleOf;
  }

  lemma WorkerStays(pc: Pc, next: Pc, p: Phase, p': Phase)
    requires RoleOf(next) == RoleOf(pc) && Held(next) == Held(pc)
    requires PhaseHeld(p') == PhaseHeld(p) && PhaseWants(p') == PhaseWants(p)
    ensures WorkerThread(next, p') == WorkerThread(pc, p)
  {
    hide Held, RoleOf, PhaseHeld, PhaseWants;
  }

  lemma WorkerAsks(pc: Pc, p: Phase, p': Phase)
    requires PhaseHeld(p) == [] && PhaseWants(p).None? && p'.Asked?
    ensures var th := WorkerThread(pc, p);
      && th.held == HeldLocks(pc) && th.wants.None? && th.role == RoleOf(pc)
      && WorkerThread(pc, p') == th.(wants := Some(p'.lock))
  {
    hide Held, RoleOf;
  }

  lemma AskIsRequest(f: Fine, f': Fine, i: nat, act: Step, woken: Q.Consumer)
    requires |f.phases| == |f.sys.workers| + 1 && i < |f.phases|
    requires f.phases[i] == Rest || f.phases[i] == Asleep
    requires ActsFor(f.sys, i, act) && LockFor(f.sys, act).Some?
    requires f' == Fine(f.sys, f.phases[i := Asked(LockFor(f.sys, act).value, woken, act)])
    ensures LockMoves(Threads(f), [L.Request(i, LockFor(f.sys, act).value)], Threads(f'))
  {
    RequestsAreDisciplined(f.sys, i, act);
    OneThreadMoves(f, f', i);
    if i < |f.sys.workers| { WorkerAsks(f.sys.workers[i], f.phases[i], f'.phases[i]); }
    hide L.MayRequest, LockFor, WorkerThread, HeldLocks, RoleOf;
  }

  /** Taking a session mutex is the step itself. */
  lemma SessionTaken(s: System, i: nat, act: Step, p: Phase)
    requires Core(s) && Enabled(s, act) && i < |s.workers| && PhaseOk(s, i, p) && p.Asked? && p.act == act
    requires p.lock.mutex.SessionMutex?
    ensures i < |Apply(s, act).workers|
    ensures var th := WorkerThread(s.workers[i], p);
      WorkerThread(Apply(s, act).workers[i], Rest) == th.(held := th.held + [p.lock], wants := None)
  {
    StepIsOwn(s, i, act);
    HeldAfter(s, i, act.sendOk);
    hide Core, Enabled, Apply, WorkerThread, Own;
    WorkerEnters(s.workers[i], Apply(s, act).workers[i], p, Rest);
  }

  /** A step under a registry or queue mutex leaves session mutexes alone. */
  lemma LeafStep(s: System, i: nat, p: Phase)
    requires Core(s) && i < |s.workers| && PhaseOk(s, i, p) && p.Inside? && Enabled(s, p.act)
    ensures i < |Apply(s, p.act).workers|
    ensures WorkerThread(Apply(s, p.act).workers[i], Leaving(p.lock)) == WorkerThread(s.workers[i], p)
  {
    StepIsOwn(s, i, p.act);
    HeldAfter(s, i, p.act.sendOk);
    hide Core, Enabled, Apply, WorkerThread, Own;
    WorkerStays(s.workers[i], Apply(s, p.act).workers[i], p, Leaving(p.lock));
  }

  /** A step under no mutex leaves them alone too, or gives up the one it has. */
  lemma FreeStep(s: System, i: nat, act: Step)
    requires Core(s) && Enabled(s, act) && i < |s.workers| && ActsFor(s, i, act) && LockFor(s, act).None?
    ensures i < |Apply(s, act).workers|
    ensures var th, th' := WorkerThread(s.workers[i], Rest), WorkerThread(Apply(s, act).workers[i], Rest);
      if GivesUp(s.workers[i]) then th.wants.None? && |th.held| == 1 && th' == th.(held := th.held[..0])
      else th' == th
  {
    StepIsOwn(s, i, act);
    HeldAfter(s, i, act.sendOk);
    var pc, next := s.workers[i], Apply(s, act).workers[i];
    hide Core, Enabled, Apply, WorkerThread, Own;
    if GivesUp(pc) { WorkerGivesUp(pc, next); } else { WorkerStays(pc, next, Rest, Rest); }
  }

  lemma EnterThread(f: Fine, i: nat)
    requires FineInv(f) && Ready(f, Enter(i))
    ensures i < |f.phases| == |Do(f, Enter(i)).phases| && ThreadAt(f, i).wants == Some(f.phases[i].lock)
    ensures var th := ThreadAt(f, i);
      ThreadAt(Do(f, Enter(i)), i) == th.(held := th.held + [f.phases[i].lock], wants := None)
  {
    EnterShape(f, i);
    var p := f.phases[i];
    assert PhaseOk(f.sys, i, p);
    ActionIsOwn(f, Enter(i));
    if i < |f.sys.workers| {
      assert WorkerThread(f.sys.workers[i], p).wants == Some(p.lock);
      hide Core, Ready, Enabled, Do, L.Free, PhasesOk, WorkerThread, Apply, PhaseOk;
      if p.lock.mutex.SessionMutex? {
        SessionTaken(f.sys, i, p.act, p);
      } else {
        WorkerEnters(f.sys.workers[i], f.sys.workers[i], p, Inside(p.lock, p.woken, p.act));
      }
    } else {
      hide Core, Ready, Enabled, Do, L.Free, PhasesOk, Apply;
    }
  }

  lemma EnterIsAcquire(f: Fine, i: nat)
    requires FineInv(f) && Ready(f, Enter(i))
    ensures LockMoves(Threads(f), [L.Acquire(i)], Threads(Do(f, Enter(i))))
  {
    EnterThread(f, i);
    EnterShape(f, i);
    ActionIsOwn(f, Enter(i));
    hide Core, Ready, Enabled, Do, ThreadAt, L.Free, Own, Apply;
    OneThreadMoves(f, Do(f, Enter(i)), i);
  }

  lemma LeaveThread(f: Fine, f': Fine, i: nat)
    requires |f.phases| == |f.sys.workers| + 1 && i < |f.phases| && (f.phases[i].Leaving? || f.phases[i].Inside?)
    requires f'.sys == f.sys && |f'.phases| == |f.phases| && (f'.phases[i] == Rest || f'.phases[i] == Asleep)
    ensures var th := ThreadAt(f, i);
      th.wants.None? && th.held != [] && ThreadAt(f', i) == th.(held := th.held[..|th.held| - 1])
  {
    if i < |f.sys.workers| {
      hide WorkerThread;
      WorkerLeaves(f.sys.workers[i], f.phases[i], f'.phases[i]);
    }
  }

  lemma LeaveIsRelease(f: Fine, f': Fine, i: nat)
    requires |f.phases| == |f.sys.workers| + 1 && i < |f.phases| && (f.phases[i].Leaving? || f.phases[i].Inside?)
    requires f' == Fine(f.sys, f.phases[i := Rest]) || f' == Fine(f.sys, f.phases[i := Asleep])
    ensures LockMoves(Threads(f), [L.Release(i)], Threads(f'))
  {
    LeaveThread(f, f', i);
    hide ThreadAt;
    OneThreadMoves(f, f', i);
  }

  lemma DirectIsRelease(f: Fine, i: nat, act: Step)
    requires FineInv(f) && Ready(f, Direct(i, act))
    ensures LockMoves(Threads(f), LockSteps(f, Direct(i, act)), Threads(Do(f, Direct(i, act))))
  {
    DirectShape(f, i, act);
    ActionIsOwn(f, Direct(i, act));
    var f' := Do(f, Direct(i, act));
    var ls := LockSteps(f, Direct(i, act));
    hide Core, Ready, Enabled, Do, WorkerThread, Apply, PhasesOk;
    if i < |f.sys.workers| { FreeStep(f.sys, i, act); }
    assert |f.phases| == |f.sys.workers| + 1 by { Sizes(f); }
    OneThreadMoves(f, f', i);
    hide Own;
    assert Threads(f)[i := Threads(f)[i]] == Threads(f);
  }

  /** The critical section itself changes nothing about mutexes ... */
  lemma BodyThread(f: Fine, i: nat, wake: nat)
    requires FineInv(f) && Ready(f, Body(i, wake))
    ensures i < |f.phases| && f.phases[i].Inside?
    ensures var g := Fine(Do(f, Body(i, wake)).sys, f.phases[i := Leaving(f.phases[i].lock)]);
      Own(f.sys, g.sys, i) && Threads(g) == Threads(f)
  {
    BodyShape(f, i, wake);
    ActionIsOwn(f, Body(i, wake));
    var p := f.phases[i];
    assert PhaseOk(f.sys, i, p);
    var g := Fine(Do(f, Body(i, wake)).sys, f.phases[i := Leaving(p.lock)]);
    Sizes(f);
    hide Core, Ready, Enabled, Do, WorkerThread, Apply, MayNotify, PhasesOk, PhaseOk;
    if i < |f.sys.workers| { LeafStep(f.sys, i, p); }
    OneThreadMoves(f, g, i);
    assert Threads(f)[i := Threads(f)[i]] == Threads(f);
  }

  /** ... but for the sleeper it may pick. */
  lemma BodyPicks(f: Fine, i: nat, wake: nat)
    requires FineInv(f) && Ready(f, Body(i, wake))
    ensures LockMoves(Threads(f), LockSteps(f, Body(i, wake)), Threads(Do(f, Body(i, wake))))
  {
    BodyThread(f, i, wake);
    BodyShape(f, i, wake);
    var p, f' := f.phases[i], Do(f, Body(i, wake));
    var g := Fine(f'.sys, f.phases[i := Leaving(p.lock)]);
    if Picks(f, p.act) {
      SleeperPicked(f, i, wake);
      hide Core, Ready, Enabled, Do, Apply, Picks, MayNotify, Threads, LockMoves, PhasesOk;
      AskIsRequest(g, f', wake, Work(wake, true), Q.Notified);
    } else {
      assert f' == g;
      hide Core, Ready, Enabled, Do, Apply, Picks, MayNotify, Threads;
    }
  }

  lemma ActionIsLockStep(f: Fine, a: Action)
    requires FineInv(f) && Ready(f, a)
    ensures LockMoves(Threads(f), LockSteps(f, a), Threads(Do(f, a)))
  {
    NeverRelocks(f, a);
    hide Core, Ready, Do, LockMoves, PhaseOk, Threads;
    match a
    case Ask(i, act) =>
      AskShape(f, i, act);
      AskIsRequest(f, Do(f, a), i, act, Q.Outside);
    case Stir(i) =>
      StirShape(f, i);
      AskIsRequest(f, Do(f, a), i, Work(i, true), Q.Stirred);
    case Enter(i) => EnterIsAcquire(f, i);
    case Body(i, wake) => BodyPicks(f, i, wake);
    case Doze(i) =>
      DozeShape(f, i);
      LeaveIsRelease(f, Do(f, a), i);
    case Leave(i) =>
      LeaveShape(f, i);
      LeaveIsRelease(f, Do(f, a), i);
    case Direct(i, act) => DirectIsRelease(f, i, act);
  }

  ghost function LockRun(f: Fine, actions: seq<Action>): seq<L.Step>
    requires ValidActions(f, actions)
    decreases |actions|
  {
    if actions == [] then [] else LockSteps(f, actions[0]) + LockRun(Do(f, actions[0]), actions[1..])
  }

  /** What the threads of the router do to the mutexes, in any run, is what the lock machine does. */
  lemma {:induction false} ObeysLockOrder(f: Fine, actions: seq<Action>)
    requires FineInv(f) && ValidActions(f, actions)
    ensures L.ValidRun(Threads(f), LockRun(f, actions))
    ensures L.Run(Threads(f), LockRun(f, actions)) == Threads(After(f, actions))
    decreases |actions|
  {
    hide FineInv, Ready, Do, LockSteps, Threads, L.Enabled, L.Apply;
    if actions != [] {
      var f' := Do(f, actions[0]);
      ActionKeepsInv(f, actions[0]);
      ActionIsLockStep(f, actions[0]);
      ObeysLockOrder(f', actions[1..]);
      var first, rest := LockSteps(f, actions[0]), LockRun(f', actions[1..]);
      if first == [] {
        assert first + rest == rest;
      } else {
        assert (first + rest)[0] == first[0] && (first + rest)[1..] == rest;
      }
    }
  }

  // ---------------------------------------------------------------- no deadlock

  lemma StartsFree(f: Fine)
    requires Starts(f)
    ensures L.Initial(Threads(f))
  {
    forall t | 0 <= t < |f.phases| ensures ThreadAt(f, t).held == [] && ThreadAt(f, t).wants.None? {
      if t < |f.sys.workers| { assert f.sys.workers[t] == ReadIdle || f.sys.workers[t] == WriteIdle; }
    }
  }

  lemma ReachesLockState(f: Fine, actions: seq<Action>)
    requires Starts(f) && ValidActions(f, actions)
    ensures FineInv(After(f, actions)) && L.Initial(Threads(f))
    ensures L.ValidRun(Threads(f), LockRun(f, actions))
    ensures L.Run(Threads(f), LockRun(f, actions)) == Threads(After(f, actions))
    ensures L.Inv(Threads(After(f, actions)))
  {
    hide FineInv, ValidActions, After, LockRun, Threads, L.ValidRun, L.Run;
    StartsWell(f);
    StartsFree(f);
    RunKeepsFineInv(f, actions);
    ObeysLockOrder(f, actions);
    hide Starts;
    L.RunKeepsInv(Threads(f), LockRun(f, actions));
  }

  /** In every run of the router, with every mutex explicit and condition variables included, the
      waits-for relation has no cycle. */
  lemma RouterWaitsForIsAcyclic(f: Fine, actions: seq<Action>, path: seq<nat>)
    requires Starts(f) && ValidActions(f, actions)
    requires |path| >= 2 && L.Chain(Threads(After(f, actions)), path)
    ensures path[0] != path[|path| - 1]
  {
    hide FineInv, ValidActions, After, LockRun, Threads, L.ValidRun, L.Run, Starts, L.Initial;
    ReachesLockState(f, actions);
    L.WaitsForIsAcyclic(Threads(f), LockRun(f, actions), path);
  }

  /** Critical sections on the same mutex never overlap, unless both only read the registry. */
  lemma MutualExclusion(f: Fine, actions: seq<Action>, t: nat, u: nat)
    requires Starts(f) && ValidActions(f, actions)
    requires t < |After(f, actions).phases| && u < |After(f, actions).phases| && t != u
    ensures var q := After(f, actions);
      forall i, j :: 0 <= i < |ThreadAt(q, t).held| && 0 <= j < |ThreadAt(q, u).held| ==>
        !L.Conflict(ThreadAt(q, t).held[i], ThreadAt(q, u).held[j])
  {
    hide FineInv, ValidActions, After, LockRun, L.ValidRun, L.Run, Starts, L.Initial;
    ReachesLockState(f, actions);
    var q := After(f, actions);
    assert Threads(q)[t] == ThreadAt(q, t) && Threads(q)[u] == ThreadAt(q, u);
  }

  /** A thread that has an action of its own to take; waking up for no reason does not count. */
  ghost predicate CanMove(f: Fine, u: nat) {
    exists a: Action :: a.i == u && Ready(f, a) && !a.Stir?
  }

  lemma Moves(f: Fine, a: Action)
    requires Ready(f, a) && !a.Stir?
    ensures CanMove(f, a.i)
  {
  }

  lemma RestMoves(f: Fine, u: nat)
    requires FineInv(f) && u < |f.phases| && f.phases[u] == Rest
    ensures CanMove(f, u)
  {
    if u < |f.sys.workers| {
      StepIsMeaningful(f.sys, u);
      hide Core, PhaseOk, CanMove;
      var act := Work(u, true);
      Moves(f, if NextLock(f.sys.workers[u]).Some? then Ask(u, act) else Direct(u, act));
    } else {
      var act := match f.sys.listener
        case ListenIdle => Snapshot
        case ListenSelect(_) => SelectFails
        case ListenAccept(_) => AcceptFails
        case _ => PushNext;
      assert !f.sys.listener.ListenStuck?;
      hide Core, PhaseOk, CanMove;
      Moves(f, if LockFor(f.sys, act).Some? then Ask(u, act) else Direct(u, act));
    }
  }

  /** Whoever is to be picked, there is a choice. */
  lemma SomeWake(f: Fine, act: Step) returns (wake: nat)
    ensures MayNotify(f, act, wake)
  {
    wake := 0;
    if Picks(f, act) {
      var cs := Consumers(f, Notifies(f.sys, act).value);
      wake :| wake < |cs| && cs[wake] == Q.Waiting;
    }
  }

  lemma InsideMoves(f: Fine, u: nat)
    requires FineInv(f) && u < |f.phases| && f.phases[u].Inside?
    ensures CanMove(f, u)
  {
    var act := f.phases[u].act;
    assert PhaseOk(f.sys, u, f.phases[u]);
    var wake := SomeWake(f, act);
    if act.Work? { StepIsMeaningful(f.sys, u); }
    if act.AcceptGives? { AcceptNeverSelfLocks(f.sys, act.fd); }
    hide Core, PhasesOk, CanMove, MayNotify, Meaningful;
    Moves(f, if NothingToPop(f.sys, act) then Doze(u) else Body(u, wake));
  }

  lemma LockedIsHeld(f: Fine, h: nat)
    requires FineInv(f) && h in f.sys.locks
    ensures !L.Free(Threads(f), SessionLock(h))
  {
    var t := f.sys.locks[h];
    var th := ThreadAt(f, t);
    assert Threads(f)[t] == th && th.held[0] == SessionLock(h);
    assert L.HoldsAgainst(th, SessionLock(h));
  }

  lemma AskedMoves(f: Fine, u: nat)
    requires FineInv(f) && u < |f.phases| && f.phases[u].Asked? && L.Free(Threads(f), f.phases[u].lock)
    ensures CanMove(f, u)
  {
    var p := f.phases[u];
    assert PhaseOk(f.sys, u, p);
    if p.lock.mutex.SessionMutex? {
      if p.lock.mutex.h in f.sys.locks { LockedIsHeld(f, p.lock.mutex.h); }
      StepIsMeaningful(f.sys, u);
    }
    hide Core, PhasesOk, CanMove, Meaningful, L.Free, Threads;
    Moves(f, Enter(u));
  }

  /** A thread the lock machine lets go on can go on in the router. */
  lemma GoesOn(f: Fine, u: nat)
    requires FineInv(f) && L.CanGoOn(Threads(f), u)
    ensures CanMove(f, u)
  {
    var p := f.phases[u];
    assert PhaseOk(f.sys, u, p) && Threads(f)[u] == ThreadAt(f, u);
    hide CanMove, Core, PhasesOk, L.Free, Threads;
    match p
    case Rest => RestMoves(f, u);
    case Asked(_, _, _) => AskedMoves(f, u);
    case Inside(_, _, _) => InsideMoves(f, u);
    case Leaving(_) => Moves(f, Leave(u));
    case Asleep => SleeperHoldsNothing(f, u);
  }

  lemma SleeperHoldsNothing(f: Fine, u: nat)
    requires FineInv(f) && u < |f.phases| && f.phases[u] == Asleep
    ensures Threads(f)[u].held == []
  {
    assert PhaseOk(f.sys, u, f.phases[u]);
    hide Core;
  }

  lemma BlockedOrMoves(f: Fine, u: nat)
    requires FineInv(f) && u < |f.phases| && !L.Blocked(Threads(f), u) && f.phases[u] != Asleep
    ensures CanMove(f, u)
  {
    var p := f.phases[u];
    assert PhaseOk(f.sys, u, p) && Threads(f)[u] == ThreadAt(f, u);
    hide CanMove, Core, PhasesOk, L.Free, Threads;
    match p
    case Rest => RestMoves(f, u);
    case Asked(_, _, _) => AskedMoves(f, u);
    case Inside(_, _, _) => InsideMoves(f, u);
    case Leaving(_) => Moves(f, Leave(u));
  }

  /** The waiting of `t` leads, link by link, to a thread that can move. */
  ghost predicate LeadsToMover(f: Fine, t: nat, path: seq<nat>) {
    |path| >= 2 && path[0] == t && L.Chain(Threads(f), path) && CanMove(f, path[|path| - 1])
  }

  /** In every reachable state of the fine-grained router every thread, listener included, can
      move, or sleeps on a condition variable, or waits for a mutex; and then the chain of
      waiting that starts with it ends with a thread that can move. */
  lemma NoDeadlock(f: Fine, actions: seq<Action>, t: nat)
    requires Starts(f) && ValidActions(f, actions) && t < |After(f, actions).phases|
    ensures var q := After(f, actions);
      CanMove(q, t) || q.phases[t] == Asleep || exists path :: LeadsToMover(q, t, path)
  {
    hide FineInv, ValidActions, After, LockRun, L.ValidRun, L.Run, Starts, L.Initial, L.Inv, CanMove, L.CanGoOn, L.Blocked;
    ReachesLockState(f, actions);
    var q := After(f, actions);
    if L.Blocked(Threads(q), t) {
      var path := L.BlockedChain(Threads(q), t);
      GoesOn(q, path[|path| - 1]);
      assert LeadsToMover(q, t, path);
    } else if q.phases[t] != Asleep {
      BlockedOrMoves(q, t);
    }
  }

  /** What a step changes of registry, queues and session mutexes, it changes under `lock`. */
  ghost predicate Guarded(s: System, s': System, lock: Option<L.Lock>) {
    && (s'.reg != s.reg ==> lock == Some(WHOLE_REGISTRY))
    && (s'.readQ != s.readQ ==> lock == Some(READ_QUEUE))
    && (s'.writeQ != s.writeQ ==> lock == Some(WRITE_QUEUE))
    && (forall h :: h in s'.locks && h !in s.locks ==> lock == Some(SessionLock(h)))
  }

  lemma ReaderIsGuarded(s: System, t: nat)
    requires CanWork(s, t) && Meaningful(s, s.workers[t]) && !IsWriter(s.workers[t])
    ensures Guarded(s, ReaderStep(s, t), NextLock(s.workers[t]))
  {
    hide ReadN, AddNode, Remove, RouterMessage.DstOf, RouterMessage.IdOf;
  }

  lemma WriterIsGuarded(s: System, t: nat, sendOk: bool)
    requires CanWork(s, t) && Meaningful(s, s.workers[t]) && IsWriter(s.workers[t])
    ensures Guarded(s, WriterStep(s, t, sendOk), NextLock(s.workers[t]))
  {
    hide Remove;
  }

  lemma WorkIsGuarded(s: System, t: nat, sendOk: bool)
    requires Enabled(s, Work(t, sendOk))
    ensures Guarded(s, Apply(s, Work(t, sendOk)), NextLock(s.workers[t]))
  {
    hide ReaderStep, WriterStep, Guarded;
    if IsWriter(s.workers[t]) { WriterIsGuarded(s, t, sendOk); } else { ReaderIsGuarded(s, t); }
  }

  /** The mutex of a step guards what the step changes: the registry, either queue, and the record
      of who holds a session. */
  lemma StepIsGuarded(s: System, act: Step)
    requires Core(s) && Enabled(s, act)
    ensures Guarded(s, Apply(s, act), LockFor(s, act))
  {
    if act.Work? {
      WorkIsGuarded(s, act.t, act.sendOk);
    } else if act.AcceptGives? {
      AcceptShape(s, act.fd, act.tape);
    }
    hide Core;
  }

  predicate LooksUp(pc: Pc) { pc.ReadLookup? || pc.ReadCheck? || pc.ReadRoute? || pc.WriteLookup? }

  /** Lookups in the registry do not keep each other out; any other two steps under one mutex do. */
  lemma LookupsShare(a: Pc, b: Pc)
    requires NextLock(a).Some? && NextLock(b).Some?
    ensures L.Conflict(NextLock(a).value, NextLock(b).value) <==>
      NextLock(a).value.mutex == NextLock(b).value.mutex && !(LooksUp(a) && LooksUp(b))
  {
  }

  /** The shared parts of a state, exchanged: the collections of the registry, and the queues. */
  function Exchange(s: System, r: Registry, readQ: seq<int>, writeQ: seq<Task>): System {
    s.(reg := r, readQ := readQ, writeQ := writeQ)
  }

  /** The parts that are not under this mutex may differ, the others are the same; what a session
      itself holds does not count, it is not the registry's. */
  predicate AgreesUnder(lock: Option<L.Lock>, s: System, r: Registry, readQ: seq<int>, writeQ: seq<Task>) {
    && r.cells == s.reg.cells
    && (lock.Some? && lock.value.mutex.RegistryMutex? ==> r == s.reg)
    && (lock == Some(READ_QUEUE) ==> readQ == s.readQ)
    && (lock == Some(WRITE_QUEUE) ==> writeQ == s.writeQ)
  }

  /** The outcome of a step in the exchanged state: its own, but for the exchanged parts. */
  ghost predicate SameOutcome(lock: Option<L.Lock>, s': System, z: System,
                              r: Registry, readQ: seq<int>, writeQ: seq<Task>) {
    z == Exchange(s', if lock.Some? && lock.value.mutex.RegistryMutex? then s'.reg else r,
                  if lock == Some(READ_QUEUE) then s'.readQ else readQ,
                  if lock == Some(WRITE_QUEUE) then s'.writeQ else writeQ)
  }

  lemma ReaderDepends(s: System, t: nat, r: Registry, readQ: seq<int>, writeQ: seq<Task>)
    requires CanWork(s, t) && Meaningful(s, s.workers[t]) && !IsWriter(s.workers[t])
    requires AgreesUnder(NextLock(s.workers[t]), s, r, readQ, writeQ)
    requires CanWork(Exchange(s, r, readQ, writeQ), t) && Meaningful(Exchange(s, r, readQ, writeQ), s.workers[t])
    ensures SameOutcome(NextLock(s.workers[t]), ReaderStep(s, t),
                        ReaderStep(Exchange(s, r, readQ, writeQ), t), r, readQ, writeQ)
  {
    var pc := s.workers[t];
    if pc.ReadLoop? {
      ReceiveDepends(s, t, pc.sock, pc.h, pc.x, r, readQ, writeQ);
    }
    hide Receive, AddNode, Remove, RouterMessage.DstOf, RouterMessage.IdOf;
  }

  lemma ReceiveDepends(s: System, t: nat, sock: int, h: nat, x: nat, r: Registry, readQ: seq<int>, writeQ: seq<Task>)
    requires t < |s.workers| && sock in s.conns && x < |s.reg.cells| && r.cells == s.reg.cells
    ensures Receive(Exchange(s, r, readQ, writeQ), t, sock, h, x)
         == Exchange(Receive(s, t, sock, h, x), r, readQ, writeQ)
  {
    hide ReadN;
  }

  lemma WriterDepends(s: System, t: nat, sendOk: bool, r: Registry, readQ: seq<int>, writeQ: seq<Task>)
    requires CanWork(s, t) && Meaningful(s, s.workers[t]) && IsWriter(s.workers[t])
    requires AgreesUnder(NextLock(s.workers[t]), s, r, readQ, writeQ)
    requires CanWork(Exchange(s, r, readQ, writeQ), t) && Meaningful(Exchange(s, r, readQ, writeQ), s.workers[t])
    ensures SameOutcome(NextLock(s.workers[t]), WriterStep(s, t, sendOk),
                        WriterStep(Exchange(s, r, readQ, writeQ), t, sendOk), r, readQ, writeQ)
  {
    hide Remove;
  }

  /** And what a step looks at, it looks at under its mutex: exchange everything else that is
      shared, and it does the same. The one exception is the listener's copy of the accepted list,
      which the source makes without the mutex. */
  lemma StepReadsGuarded(s: System, act: Step, r: Registry, readQ: seq<int>, writeQ: seq<Task>)
    requires Enabled(s, act) && !act.Snapshot? && AgreesUnder(LockFor(s, act), s, r, readQ, writeQ)
    requires Enabled(Exchange(s, r, readQ, writeQ), act)
    ensures SameOutcome(LockFor(s, act), Apply(s, act), Apply(Exchange(s, r, readQ, writeQ), act), r, readQ, writeQ)
  {
    if act.Work? {
      hide ReaderStep, WriterStep, NextLock, AgreesUnder;
      if IsWriter(s.workers[act.t]) {
        WriterDepends(s, act.t, act.sendOk, r, readQ, writeQ);
      } else {
        ReaderDepends(s, act.t, r, readQ, writeQ);
      }
    }
  }

  // ---------------------------------------------------------------- and every run of the router is one

  ghost predicate AllRest(f: Fine) { forall i :: 0 <= i < |f.phases| ==> f.phases[i] == Rest }

  /** Between critical sections only session mutexes are held, by those the router says hold them. */
  lemma FreeAtRest(f: Fine, i: nat, l: L.Lock)
    requires FineInv(f) && i < |f.phases| && forall j :: 0 <= j < |f.phases| && j != i ==> f.phases[j] == Rest
    requires f.phases[i].Asked?
    requires l.mutex.SessionMutex? ==> l.mutex.h !in f.sys.locks
    ensures L.Free(Threads(f), l)
  {
    forall u | 0 <= u < |f.phases| ensures !L.HoldsAgainst(Threads(f)[u], l) {
      assert Threads(f)[u] == ThreadAt(f, u);
      if u < |f.sys.workers| { assert ThreadAt(f, u).held == HeldLocks(f.sys.workers[u]); }
    }
  }

  /** Ask and enter. */
  lemma Entered(f: Fine, i: nat, act: Step)
    requires FineInv(f) && AllRest(f) && Enabled(f.sys, act) && ActsFor(f.sys, i, act) && LockFor(f.sys, act).Some?
    ensures i < |f.phases| && ValidActions(f, [Ask(i, act)] + [Enter(i)])
    ensures var l, g := LockFor(f.sys, act).value, After(f, [Ask(i, act)] + [Enter(i)]);
      && FineInv(g)
      && g == if l.mutex.SessionMutex? then Fine(Apply(f.sys, act), f.phases)
              else Fine(f.sys, f.phases[i := Inside(l, Q.Outside, act)])
  {
    Sizes(f);
    var l := LockFor(f.sys, act).value;
    assert Ready(f, Ask(i, act));
    var f1 := Do(f, Ask(i, act));
    ActionKeepsInv(f, Ask(i, act));
    AskShape(f, i, act);
    FreeAtRest(f1, i, l);
    assert Ready(f1, Enter(i));
    EnterShape(f1, i);
    ActionKeepsInv(f1, Enter(i));
    hide FineInv, Ready, Do, Enabled, Apply, L.Free, Threads, LockFor, ValidActions, After;
    assert f.phases[i := f1.phases[i]][i := Rest] == f.phases;
    AfterOne(f, Ask(i, act));
    AfterOne(f1, Enter(i));
    AfterAppend(f, [Ask(i, act)], [Enter(i)]);
  }

  /** Take the step and leave. */
  lemma Left(f: Fine, i: nat, l: L.Lock, act: Step)
    requires FineInv(f) && i < |f.phases| && f.phases[i] == Inside(l, Q.Outside, act) && Enabled(f.sys, act)
    requires forall j :: 0 <= j < |f.phases| && j != i ==> f.phases[j] == Rest
    ensures ValidActions(f, [Body(i, 0)] + [Leave(i)])
    ensures After(f, [Body(i, 0)] + [Leave(i)]) == Fine(Apply(f.sys, act), f.phases[i := Rest])
  {
    if act.AcceptGives? { AcceptNeverSelfLocks(f.sys, act.fd); }
    NobodySleeps(f, i);
    assert Ready(f, Body(i, 0));
    BodyShape(f, i, 0);
    var f1 := Do(f, Body(i, 0));
    assert Ready(f1, Leave(i));
    LeaveShape(f1, i);
    hide FineInv, Ready, Do, Enabled, Apply, ValidActions, After;
    assert f.phases[i := Leaving(l)][i := Rest] == f.phases[i := Rest];
    AfterOne(f, Body(i, 0));
    AfterOne(f1, Leave(i));
    AfterAppend(f, [Body(i, 0)], [Leave(i)]);
  }

  lemma NobodySleeps(f: Fine, i: nat)
    requires i < |f.phases| && f.phases[i].Inside? && f.phases[i].woken == Q.Outside
    requires forall j :: 0 <= j < |f.phases| && j != i ==> f.phases[j] == Rest
    ensures forall which :: !Q.SomeWaiting(Consumers(f, which))
  {
  }

  lemma LiftLockedStep(f: Fine, i: nat, act: Step) returns (actions: seq<Action>)
    requires FineInv(f) && AllRest(f) && Enabled(f.sys, act) && ActsFor(f.sys, i, act) && LockFor(f.sys, act).Some?
    ensures ValidActions(f, actions) && After(f, actions) == Fine(Apply(f.sys, act), f.phases)
  {
    Entered(f, i, act);
    actions := [Ask(i, act)] + [Enter(i)];
    hide FineInv, Enabled, Apply, ValidActions, After, LockFor;
    var l, g := LockFor(f.sys, act).value, After(f, actions);
    if !l.mutex.SessionMutex? {
      Left(g, i, l, act);
      AfterAppend(f, actions, [Body(i, 0)] + [Leave(i)]);
      actions := actions + ([Body(i, 0)] + [Leave(i)]);
      assert f.phases[i := g.phases[i]][i := Rest] == f.phases;
    }
  }

  /** Each step of the step system, taken in a pause, is a few actions. */
  lemma LiftStep(f: Fine, act: Step) returns (actions: seq<Action>)
    requires FineInv(f) && AllRest(f) && Enabled(f.sys, act)
    ensures ValidActions(f, actions) && After(f, actions) == Fine(Apply(f.sys, act), f.phases)
  {
    Sizes(f);
    var i := if act.Work? then act.t else |f.sys.workers|;
    assert ActsFor(f.sys, i, act);
    hide FineInv, Apply, ValidActions, After, LockFor;
    if LockFor(f.sys, act).None? {
      assert Ready(f, Direct(i, act));
      DirectShape(f, i, act);
      AfterOne(f, Direct(i, act));
      actions := [Direct(i, act)];
    } else {
      actions := LiftLockedStep(f, i, act);
    }
  }

  /** Every run of the step system is a run of the fine-grained router: what can happen to the one
      can happen to the other. */
  lemma {:induction false} LiftsSystem(f: Fine, steps: seq<Step>) returns (actions: seq<Action>)
    requires FineInv(f) && AllRest(f) && ValidRun(f.sys, steps)
    ensures ValidActions(f, actions) && After(f, actions) == Fine(Run(f.sys, steps), f.phases)
    decreases |steps|
  {
    if steps == [] {
      actions := [];
    } else {
      var first := LiftStep(f, steps[0]);
      var f' := After(f, first);
      RunKeepsFineInv(f, first);
      hide FineInv, ValidActions, After, Enabled, Apply;
      var rest := LiftsSystem(f', steps[1..]);
      AfterAppend(f, first, rest);
      actions := first + rest;
    }
  }
}
