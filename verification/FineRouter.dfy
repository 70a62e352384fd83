/** The router below the level of critical sections. Each thread is, besides its program counter,
    in a phase: it asks for the mutex of its next step, enters when the mutex is free, takes the
    step, and leaves; a consumer that finds its queue empty gives the mutex back and sleeps on
    the condition variable until a push picks it, or for no reason. Nothing here restricts what
    a thread may ask for. */
module FineRouter {
  import opened Options
  import opened RouterSystem
  import opened RouterCore
  import L = LockOrder
  import Q = SignalingQueue

  const READ_QUEUE := L.Lock(L.ReadQueueMutex, L.Exclusive)
  const WRITE_QUEUE := L.Lock(L.WriteQueueMutex, L.Exclusive)
  const SHARED_REGISTRY := L.Lock(L.RegistryMutex, L.Shared)
  const WHOLE_REGISTRY := L.Lock(L.RegistryMutex, L.Exclusive)

  function SessionLock(h: nat): L.Lock { L.Lock(L.SessionMutex(h), L.Exclusive) }

  /** The mutex a worker's next step is taken under. */
  function NextLock(pc: Pc): Option<L.Lock> {
    match pc
    case ReadIdle => Some(READ_QUEUE)
    case ReadLookup(_) => Some(SHARED_REGISTRY)
    case ReadWant(_, h) => Some(SessionLock(h))
    case ReadCheck(_, _) => Some(SHARED_REGISTRY)
    case ReadLoop(_, _, _) => None
    case ReadClaim(_, _, _, _) => Some(WHOLE_REGISTRY)
    case ReadRoute(_, _, _, _) => Some(SHARED_REGISTRY)
    case ReadForward(_, _, _, _, _) => Some(WRITE_QUEUE)
    case ReadRemove(_, _) => Some(WHOLE_REGISTRY)
    case ReadUnlock(_) => None
    case WriteIdle => Some(WRITE_QUEUE)
    case WriteLookup(_) => Some(SHARED_REGISTRY)
    case WriteWant(_, h) => Some(SessionLock(h))
    case WriteSend(_, _) => None
    case WriteRemove(_, _) => Some(WHOLE_REGISTRY)
    case WriteUnlock(_) => None
  }

  /** The mutex any step is taken under. The listener reads the accepted list without one. */
  function LockFor(s: System, act: Step): Option<L.Lock> {
    match act
    case Work(t, _) => if t < |s.workers| then NextLock(s.workers[t]) else None
    case AcceptGives(_, _) => Some(WHOLE_REGISTRY)
    case PushNext => if s.listener.ListenPush? && s.listener.ready != [] then Some(READ_QUEUE) else None
    case _ => None
  }

  // ---------------------------------------------------------------- states

  /** Where a thread stands with respect to the mutex of its next step `act`; `woken` tells how a
      consumer came to ask for its queue. `Relocking` is a thread that asks for a mutex it has. */
  datatype Phase =
    | Rest
    | Asked(lock: L.Lock, woken: Q.Consumer, act: Step)
    | Inside(lock: L.Lock, woken: Q.Consumer, act: Step)
    | Leaving(lock: L.Lock)
    | Asleep
    | Relocking(lock: L.Lock)

  /** The router and a phase per thread: the workers, and last the listener. */
  datatype Fine = Fine(sys: System, phases: seq<Phase>)

  ghost predicate Starts(f: Fine) {
    && Initial(f.sys) && |f.phases| == |f.sys.workers| + 1
    && forall i :: 0 <= i < |f.phases| ==> f.phases[i] == Rest
  }

  function PhaseHeld(p: Phase): seq<L.Lock> {
    match p
    case Inside(l, _, _) => [l]
    case Leaving(l) => [l]
    case Relocking(l) => [l]
    case _ => []
  }

  function PhaseWants(p: Phase): Option<L.Lock> {
    match p
    case Asked(l, _, _) => Some(l)
    case Relocking(l) => Some(l)
    case _ => None
  }

  function RoleOf(pc: Pc): L.Role { if IsWriter(pc) then L.Writer else L.Reader }

  function HeldLocks(pc: Pc): seq<L.Lock> {
    if Held(pc).Some? then [SessionLock(Held(pc).value)] else []
  }

  function WorkerThread(pc: Pc, p: Phase): L.Thread {
    L.Thread(RoleOf(pc), HeldLocks(pc) + PhaseHeld(p), PhaseWants(p))
  }

  function ThreadAt(f: Fine, j: nat): L.Thread
    requires j < |f.phases|
  {
    if j < |f.sys.workers| then WorkerThread(f.sys.workers[j], f.phases[j])
    else L.Thread(L.Listener, PhaseHeld(f.phases[j]), PhaseWants(f.phases[j]))
  }

  /** Who holds which mutex, and who wants which. */
  function Threads(f: Fine): (ts: L.Threads)
    ensures |ts| == |f.phases| && forall j :: 0 <= j < |ts| ==> ts[j] == ThreadAt(f, j)
  {
    seq(|f.phases|, j requires 0 <= j < |f.phases| => ThreadAt(f, j))
  }

  // ---------------------------------------------------------------- the condition variables

  datatype Which = OnReads | OnWrites

  function IdleAt(which: Which): Pc { if which.OnReads? then ReadIdle else WriteIdle }

  function QueueLock(which: Which): L.Lock { if which.OnReads? then READ_QUEUE else WRITE_QUEUE }

  function ConsumerOf(which: Which, pc: Pc, p: Phase): Q.Consumer {
    if pc != IdleAt(which) then Q.Outside
    else
      match p
      case Asleep => Q.Waiting
      case Asked(_, w, _) => w
      case Inside(_, w, _) => w
      case _ => Q.Outside
  }

  function ConsumerAt(f: Fine, which: Which, j: nat): Q.Consumer
    requires j < |f.phases|
  {
    if j < |f.sys.workers| then ConsumerOf(which, f.sys.workers[j], f.phases[j]) else Q.Outside
  }

  /** The threads as consumers of one of the two queues. */
  function Consumers(f: Fine, which: Which): (cs: seq<Q.Consumer>)
    ensures |cs| == |f.phases| && forall j :: 0 <= j < |cs| ==> cs[j] == ConsumerAt(f, which, j)
  {
    seq(|f.phases|, j requires 0 <= j < |f.phases| => ConsumerAt(f, which, j))
  }

  /** The queue on which a step calls `notify_one`. */
  function Notifies(s: System, act: Step): Option<Which> {
    match act
    case PushNext =>
      if s.listener.ListenPush? && s.listener.ready != [] && !Q.Skips(s.readQ, s.listener.ready[0], true)
      then Some(OnReads) else None
    case Work(t, _) => if t < |s.workers| && s.workers[t].ReadForward? then Some(OnWrites) else None
    case _ => None
  }

  predicate MayNotify(f: Fine, act: Step, wake: nat) {
    Notifies(f.sys, act).Some? ==> Q.MayWake(Consumers(f, Notifies(f.sys, act).value), wake)
  }

  /** Whether a step picks a sleeper. */
  predicate Picks(f: Fine, act: Step) {
    Notifies(f.sys, act).Some? && Q.SomeWaiting(Consumers(f, Notifies(f.sys, act).value))
  }

  /** The sleeper picked goes after the mutex of its queue again. */
  function Notified(f: Fine, phases: seq<Phase>, act: Step, wake: nat): seq<Phase>
    requires MayNotify(f, act, wake) && |phases| == |f.phases|
  {
    if Picks(f, act) then
      phases[wake := Asked(QueueLock(Notifies(f.sys, act).value), Q.Notified, Work(wake, true))]
    else phases
  }

  // ---------------------------------------------------------------- actions

  datatype Action =
    | Ask(i: nat, act: Step)
    | Enter(i: nat)
    | Body(i: nat, wake: nat)
    | Doze(i: nat)
    | Stir(i: nat)
    | Leave(i: nat)
    | Direct(i: nat, act: Step)
    | Relock(i: nat)

  predicate ActsFor(s: System, i: nat, act: Step) {
    if act.Work? then act.t == i && i < |s.workers| else i == |s.workers|
  }

  /** A consumer that finds nothing. */
  predicate NothingToPop(s: System, act: Step) {
    act.Work? && act.t < |s.workers| &&
    ((s.workers[act.t] == ReadIdle && s.readQ == []) || (s.workers[act.t] == WriteIdle && s.writeQ == []))
  }

  /** `accept_client` of a descriptor that has a session calls `removeSession`. */
  predicate SelfLocks(s: System, act: Step) { act.AcceptGives? && act.fd in s.reg.bySocket }

  ghost predicate Ready(f: Fine, a: Action) {
    a.i < |f.phases| &&
    var p := f.phases[a.i];
    match a
    case Ask(i, act) =>
      p == Rest && ActsFor(f.sys, i, act) && LockFor(f.sys, act).Some? && (act.Work? || Enabled(f.sys, act))
    case Enter(_) =>
      p.Asked? && L.Free(Threads(f), p.lock) && (p.lock.mutex.SessionMutex? ==> Enabled(f.sys, p.act))
    case Body(_, wake) =>
      p.Inside? && Enabled(f.sys, p.act) && !SelfLocks(f.sys, p.act) && MayNotify(f, p.act, wake)
    case Doze(_) => p.Inside? && NothingToPop(f.sys, p.act)
    case Stir(i) => p == Asleep && i < |f.sys.workers| && NextLock(f.sys.workers[i]).Some?
    case Leave(_) => p.Leaving?
    case Direct(i, act) => p == Rest && ActsFor(f.sys, i, act) && LockFor(f.sys, act).None? && Enabled(f.sys, act)
    case Relock(_) => p.Inside? && SelfLocks(f.sys, p.act)
  }

  /** The step of the router an action takes, if any. */
  ghost function SystemSteps(f: Fine, a: Action): seq<Step>
    requires Ready(f, a)
  {
    var p := f.phases[a.i];
    match a
    case Enter(_) => if p.lock.mutex.SessionMutex? then [p.act] else []
    case Body(_, _) => [p.act]
    case Direct(_, act) => [act]
    case _ => []
  }

  function PhasesAfter(f: Fine, a: Action): seq<Phase>
    requires Ready(f, a)
  {
    var i, p := a.i, f.phases[a.i];
    match a
    case Ask(_, act) => f.phases[i := Asked(LockFor(f.sys, act).value, Q.Outside, act)]
    case Enter(_) =>
      f.phases[i := if p.lock.mutex.SessionMutex? then Rest else Inside(p.lock, p.woken, p.act)]
    case Body(_, wake) => Notified(f, f.phases[i := Leaving(p.lock)], p.act, wake)
    case Doze(_) => f.phases[i := Asleep]
    case Stir(_) => f.phases[i := Asked(NextLock(f.sys.workers[i]).value, Q.Stirred, Work(i, true))]
    case Leave(_) => f.phases[i := Rest]
    case Direct(_, _) => f.phases
    case Relock(_) => f.phases[i := Relocking(p.lock)]
  }

  ghost function SystemAfter(f: Fine, a: Action): System
    requires Ready(f, a)
  {
    var steps := SystemSteps(f, a);
    if steps == [] then f.sys else Apply(f.sys, steps[0])
  }

  ghost function Do(f: Fine, a: Action): Fine
    requires Ready(f, a)
  {
    Fine(SystemAfter(f, a), PhasesAfter(f, a))
  }

  // Each action unfolded.

  lemma AskShape(f: Fine, i: nat, act: Step)
    requires Ready(f, Ask(i, act))
    ensures i < |f.phases| && f.phases[i] == Rest && ActsFor(f.sys, i, act) && LockFor(f.sys, act).Some?
    ensures act.Work? || Enabled(f.sys, act)
    ensures Do(f, Ask(i, act)) == Fine(f.sys, f.phases[i := Asked(LockFor(f.sys, act).value, Q.Outside, act)])
  {
  }

  lemma StirShape(f: Fine, i: nat)
    requires Ready(f, Stir(i))
    ensures i < |f.phases| && f.phases[i] == Asleep && i < |f.sys.workers| && NextLock(f.sys.workers[i]).Some?
    ensures Do(f, Stir(i)) ==
      Fine(f.sys, f.phases[i := Asked(NextLock(f.sys.workers[i]).value, Q.Stirred, Work(i, true))])
  {
  }

  lemma EnterShape(f: Fine, i: nat)
    requires Ready(f, Enter(i))
    ensures i < |f.phases| && f.phases[i].Asked? && L.Free(Threads(f), f.phases[i].lock)
    ensures var p := f.phases[i];
      if p.lock.mutex.SessionMutex? then
        Enabled(f.sys, p.act) && Do(f, Enter(i)) == Fine(Apply(f.sys, p.act), f.phases[i := Rest])
      else
        Do(f, Enter(i)) == Fine(f.sys, f.phases[i := Inside(p.lock, p.woken, p.act)])
  {
  }

  lemma BodyShape(f: Fine, i: nat, wake: nat)
    requires Ready(f, Body(i, wake))
    ensures i < |f.phases| && f.phases[i].Inside? && Enabled(f.sys, f.phases[i].act)
    ensures MayNotify(f, f.phases[i].act, wake)
    ensures var p := f.phases[i];
      Do(f, Body(i, wake)) == Fine(Apply(f.sys, p.act), Notified(f, f.phases[i := Leaving(p.lock)], p.act, wake))
  {
  }

  lemma DozeShape(f: Fine, i: nat)
    requires Ready(f, Doze(i))
    ensures i < |f.phases| && f.phases[i].Inside? && NothingToPop(f.sys, f.phases[i].act)
    ensures Do(f, Doze(i)) == Fine(f.sys, f.phases[i := Asleep])
  {
  }

  lemma LeaveShape(f: Fine, i: nat)
    requires Ready(f, Leave(i))
    ensures i < |f.phases| && f.phases[i].Leaving?
    ensures Do(f, Leave(i)) == Fine(f.sys, f.phases[i := Rest])
  {
  }

  lemma DirectShape(f: Fine, i: nat, act: Step)
    requires Ready(f, Direct(i, act))
    ensures i < |f.phases| && f.phases[i] == Rest && ActsFor(f.sys, i, act) && LockFor(f.sys, act).None?
    ensures Enabled(f.sys, act) && Do(f, Direct(i, act)) == Fine(Apply(f.sys, act), f.phases)
  {
  }

  ghost predicate ValidActions(f: Fine, actions: seq<Action>)
    decreases |actions|
  {
    actions == [] || (Ready(f, actions[0]) && ValidActions(Do(f, actions[0]), actions[1..]))
  }

  ghost function After(f: Fine, actions: seq<Action>): Fine
    requires ValidActions(f, actions)
    decreases |actions|
  {
    if actions == [] then f else After(Do(f, actions[0]), actions[1..])
  }

  // ---------------------------------------------------------------- every run is a run of the router

  ghost function SystemRun(f: Fine, actions: seq<Action>): seq<Step>
    requires ValidActions(f, actions)
    decreases |actions|
  {
    if actions == [] then []
    else SystemSteps(f, actions[0]) + SystemRun(Do(f, actions[0]), actions[1..])
  }

  lemma OneStepAtMost(f: Fine, a: Action)
    requires Ready(f, a)
    ensures ValidRun(f.sys, SystemSteps(f, a)) && Run(f.sys, SystemSteps(f, a)) == Do(f, a).sys
    ensures |SystemSteps(f, a)| <= 1
  {
    var steps := SystemSteps(f, a);
    if steps != [] {
      hide Enabled, Apply;
      assert Enabled(f.sys, steps[0]) && steps == [steps[0]];
      RunOne(f.sys, steps[0]);
    }
  }

  /** What the router does below the level of critical sections is what the step system does. */
  lemma {:induction false} RefinesSystem(f: Fine, actions: seq<Action>)
    requires ValidActions(f, actions)
    ensures ValidRun(f.sys, SystemRun(f, actions))
    ensures Run(f.sys, SystemRun(f, actions)) == After(f, actions).sys
    decreases |actions|
  {
    if actions != [] {
      var f' := Do(f, actions[0]);
      OneStepAtMost(f, actions[0]);
      hide Ready, Do, SystemSteps, Run, ValidRun;
      RefinesSystem(f', actions[1..]);
      RunAppend(f.sys, SystemSteps(f, actions[0]), SystemRun(f', actions[1..]));
    } else {
      assert ValidRun(f.sys, []) && Run(f.sys, []) == f.sys;
    }
  }

  lemma AfterOne(f: Fine, a: Action)
    requires Ready(f, a)
    ensures ValidActions(f, [a]) && After(f, [a]) == Do(f, a)
  {
    var f' := Do(f, a);
    hide Ready, Do;
    assert ValidActions(f', []) && After(f', []) == f';
    assert [a][1..] == [];
  }

  lemma {:induction false} AfterAppend(f: Fine, xs: seq<Action>, ys: seq<Action>)
    requires ValidActions(f, xs) && ValidActions(After(f, xs), ys)
    ensures ValidActions(f, xs + ys) && After(f, xs + ys) == After(After(f, xs), ys)
    decreases |xs|
  {
    hide Ready, Do;
    if xs == [] {
      assert xs + ys == ys;
    } else {
      assert (xs + ys)[1..] == xs[1..] + ys;
      AfterAppend(Do(f, xs[0]), xs[1..], ys);
    }
  }
}
