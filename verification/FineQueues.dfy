/** The two queues of the running router are runs of the signaling queue: what is proved about any
    such run, lost wakeups and skipped pushes included, holds of the router's own queues. */
module FineQueues {
  import opened Options
  import opened Transport
  import opened Registry
  import opened RouterSystem
  import opened RouterCore
  import opened RouterLedger
  import opened RouterInvariant
  import opened FineRouter
  import opened FineLocks
  import RouterMessage
  import Q = SignalingQueue

  // ---------------------------------------------------------------- what an action does to the consumers

  lemma OneConsumerMoves(f: Fine, f': Fine, i: nat, which: Which)
    requires |f.phases| == |f.sys.workers| + 1 && i < |f.phases| && Own(f.sys, f'.sys, i)
    requires |f'.phases| == |f.phases| && f'.phases == f.phases[i := f'.phases[i]]
    ensures Consumers(f', which) == Consumers(f, which)[i := ConsumerAt(f', which, i)]
  {
    forall j | 0 <= j < |f.phases| && j != i ensures ConsumerAt(f', which, j) == ConsumerAt(f, which, j) {}
  }

  lemma ConsumerSame(f: Fine, f': Fine, i: nat, which: Which)
    requires |f.phases| == |f.sys.workers| + 1 && i < |f.phases| && Own(f.sys, f'.sys, i)
    requires |f'.phases| == |f.phases| && f'.phases == f.phases[i := f'.phases[i]]
    requires ConsumerAt(f', which, i) == ConsumerAt(f, which, i)
    ensures Consumers(f', which) == Consumers(f, which)
  {
    OneConsumerMoves(f, f', i, which);
    hide ConsumerAt;
    assert Consumers(f, which)[i := Consumers(f, which)[i]] == Consumers(f, which);
  }

  lemma AskIsNeutral(f: Fine, i: nat, act: Step, which: Which)
    requires FineInv(f) && Ready(f, Ask(i, act))
    ensures Consumers(Do(f, Ask(i, act)), which) == Consumers(f, which)
  {
    AskShape(f, i, act);
    Sizes(f);
    hide FineInv, Ready, Do, LockFor;
    ConsumerSame(f, Do(f, Ask(i, act)), i, which);
  }

  lemma LeaveIsNeutral(f: Fine, i: nat, which: Which)
    requires FineInv(f) && Ready(f, Leave(i))
    ensures Consumers(Do(f, Leave(i)), which) == Consumers(f, which)
  {
    LeaveShape(f, i);
    Sizes(f);
    hide FineInv, Ready, Do;
    ConsumerSame(f, Do(f, Leave(i)), i, which);
  }

  lemma EnterIsNeutral(f: Fine, i: nat, which: Which)
    requires FineInv(f) && Ready(f, Enter(i))
    ensures Consumers(Do(f, Enter(i)), which) == Consumers(f, which)
  {
    EnterShape(f, i);
    Sizes(f);
    assert PhaseOk(f.sys, i, f.phases[i]);
    ActionIsOwn(f, Enter(i));
    hide FineInv, Ready, Do, Apply, Enabled, Threads;
    ConsumerSame(f, Do(f, Enter(i)), i, which);
  }

  lemma DirectIsNeutral(f: Fine, i: nat, act: Step, which: Which)
    requires FineInv(f) && Ready(f, Direct(i, act))
    ensures Consumers(Do(f, Direct(i, act)), which) == Consumers(f, which)
  {
    DirectShape(f, i, act);
    Sizes(f);
    ActionIsOwn(f, Direct(i, act));
    hide FineInv, Ready, Do, Apply, Enabled;
    ConsumerSame(f, Do(f, Direct(i, act)), i, which);
  }

  /** A consumer of this queue that finds it empty. */
  lemma DozeSleeps(f: Fine, i: nat, which: Which)
    requires FineInv(f) && Ready(f, Doze(i))
    ensures i < |f.sys.workers| < |f.phases|
    ensures Consumers(f, which)[i] != Q.Waiting
    ensures Consumers(Do(f, Doze(i)), which) ==
      if f.sys.workers[i] == IdleAt(which) then Consumers(f, which)[i := Q.Waiting] else Consumers(f, which)
  {
    DozeShape(f, i);
    Sizes(f);
    assert PhaseOk(f.sys, i, f.phases[i]);
    hide FineInv, Ready, Do, Enabled;
    if f.sys.workers[i] == IdleAt(which) {
      OneConsumerMoves(f, Do(f, Doze(i)), i, which);
    } else {
      ConsumerSame(f, Do(f, Doze(i)), i, which);
    }
  }

  lemma StirStirs(f: Fine, i: nat, which: Which)
    requires FineInv(f) && Ready(f, Stir(i))
    ensures i < |f.sys.workers| < |f.phases|
    ensures f.sys.workers[i] == IdleAt(which) ==> Consumers(f, which)[i] == Q.Waiting
    ensures Consumers(Do(f, Stir(i)), which) ==
      if f.sys.workers[i] == IdleAt(which) then Consumers(f, which)[i := Q.Stirred] else Consumers(f, which)
  {
    StirShape(f, i);
    Sizes(f);
    hide FineInv, Ready, Do, Enabled, NextLock;
    if f.sys.workers[i] == IdleAt(which) {
      OneConsumerMoves(f, Do(f, Stir(i)), i, which);
    } else {
      ConsumerSame(f, Do(f, Stir(i)), i, which);
    }
  }

  /** A thread in its critical section is awake, and it has left `pop` when the step is taken. */
  lemma BodyConsumer(f: Fine, i: nat, wake: nat, which: Which)
    requires FineInv(f) && Ready(f, Body(i, wake))
    ensures i < |f.phases| && f.phases[i].Inside? && Consumers(f, which)[i] != Q.Waiting
    ensures var g := Fine(Do(f, Body(i, wake)).sys, f.phases[i := Leaving(f.phases[i].lock)]);
      Consumers(g, which) ==
        if i < |f.sys.workers| && f.sys.workers[i] == IdleAt(which) then Consumers(f, which)[i := Q.Outside]
        else Consumers(f, which)
  {
    BodyShape(f, i, wake);
    Sizes(f);
    assert PhaseOk(f.sys, i, f.phases[i]);
    ActionIsOwn(f, Body(i, wake));
    var g := Fine(Do(f, Body(i, wake)).sys, f.phases[i := Leaving(f.phases[i].lock)]);
    hide FineInv, Ready, Do, Enabled, Apply, MayNotify, LockFor;
    if i < |f.sys.workers| && f.sys.workers[i] == IdleAt(which) {
      OneConsumerMoves(f, g, i, which);
    } else {
      ConsumerSame(f, g, i, which);
    }
  }

  /** The sleeper that is picked becomes a notified consumer of the queue it slept on. */
  lemma PickedConsumer(f: Fine, i: nat, wake: nat, which: Which)
    requires FineInv(f) && Ready(f, Body(i, wake)) && Picks(f, f.phases[i].act)
    ensures var g := Fine(Do(f, Body(i, wake)).sys, f.phases[i := Leaving(f.phases[i].lock)]);
      && wake < |f.sys.workers| < |f.phases| && wake != i
      && Consumers(Do(f, Body(i, wake)), which) ==
           if Notifies(f.sys, f.phases[i].act) == Some(which) then Consumers(g, which)[wake := Q.Notified]
           else Consumers(g, which)
  {
    hide FineInv, Ready, Enabled, Apply, MayNotify, LockFor, Notifies, Consumers;
    BodyShape(f, i, wake);
    SleeperPicked(f, i, wake);
    ActionIsOwn(f, Body(i, wake));
    Sizes(f);
    var f' := Do(f, Body(i, wake));
    var g := Fine(f'.sys, f.phases[i := Leaving(f.phases[i].lock)]);
    assert f'.phases == g.phases[wake := f'.phases[wake]] && Own(g.sys, f'.sys, wake);
    hide Do, Picks, SystemAfter;
    if Notifies(f.sys, f.phases[i].act) == Some(which) {
      OneConsumerMoves(g, f', wake, which);
    } else {
      ConsumerSame(g, f', wake, which);
    }
  }

  lemma IdleNotifiesNobody(f: Fine, i: nat, which: Which)
    requires FineInv(f) && i < |f.sys.workers| && f.phases[i].Inside? && f.sys.workers[i] == IdleAt(which)
    ensures Notifies(f.sys, f.phases[i].act).None?
  {
    assert PhaseOk(f.sys, i, f.phases[i]);
  }

  /** All a critical section does to the consumers of a queue: a pop, or a wakeup, or nothing. */
  lemma BodyConsumers(f: Fine, i: nat, wake: nat, which: Which)
    requires FineInv(f) && Ready(f, Body(i, wake))
    ensures i < |f.phases| && f.phases[i].Inside? && Consumers(f, which)[i] != Q.Waiting
    ensures MayNotify(f, f.phases[i].act, wake)
    ensures var act, cs := f.phases[i].act, Consumers(f, which);
      Consumers(Do(f, Body(i, wake)), which) ==
        if i < |f.sys.workers| && f.sys.workers[i] == IdleAt(which) then cs[i := Q.Outside]
        else if Notifies(f.sys, act) == Some(which) then Q.Wake(cs, wake)
        else cs
  {
    BodyConsumer(f, i, wake, which);
    BodyShape(f, i, wake);
    Sizes(f);
    var p, f' := f.phases[i], Do(f, Body(i, wake));
    var g := Fine(f'.sys, f.phases[i := Leaving(p.lock)]);
    hide FineInv, Ready, Do, Enabled, Apply, Consumers, Notifies;
    if i < |f.sys.workers| && f.sys.workers[i] == IdleAt(which) { IdleNotifiesNobody(f, i, which); }
    if Picks(f, p.act) {
      PickedConsumer(f, i, wake, which);
    } else {
      assert f' == g;
    }
  }

  /** All actions but critical sections, as far as the consumers of a queue go. */
  lemma NeutralOrSleep(f: Fine, a: Action, which: Which)
    requires FineInv(f) && Ready(f, a) && !a.Body?
    ensures var cs, cs' := Consumers(f, which), Consumers(Do(f, a), which);
      if a.Doze? then
        && a.i < |f.sys.workers| < |f.phases| && cs[a.i] != Q.Waiting
        && cs' == if f.sys.workers[a.i] == IdleAt(which) then cs[a.i := Q.Waiting] else cs
      else if a.Stir? then
        && a.i < |f.sys.workers| < |f.phases| && (f.sys.workers[a.i] == IdleAt(which) ==> cs[a.i] == Q.Waiting)
        && cs' == if f.sys.workers[a.i] == IdleAt(which) then cs[a.i := Q.Stirred] else cs
      else cs' == cs
  {
    NeverRelocks(f, a);
    hide FineInv, Ready, Do, Consumers;
    match a
    case Ask(i, act) => AskIsNeutral(f, i, act, which);
    case Enter(i) => EnterIsNeutral(f, i, which);
    case Doze(i) => DozeSleeps(f, i, which);
    case Stir(i) => StirStirs(f, i, which);
    case Leave(i) => LeaveIsNeutral(f, i, which);
    case Direct(i, act) => DirectIsNeutral(f, i, act, which);
  }

  // ---------------------------------------------------------------- what a step does to the items

  /** The calls a step makes on the read queue, and on the write queue. */
  function ReadCalls(s: System, act: Step, wake: nat): seq<Q.Step<int>> {
    match act
    case PushNext =>
      if s.listener.ListenPush? && s.listener.ready != [] then [Q.Step.Push(s.listener.ready[0], true, wake)] else []
    case Work(t, _) => if t < |s.workers| && s.workers[t] == ReadIdle then [Q.Step.Pop(t)] else []
    case _ => []
  }

  function WriteCalls(s: System, act: Step, wake: nat): seq<Q.Step<Task>> {
    if !act.Work? || act.t >= |s.workers| then []
    else
      match s.workers[act.t]
      case ReadForward(_, _, _, frame, dst) =>
        if dst < |s.reg.cells| then [Q.Step.Push(Task(s.reg.cells[dst].socket, frame), false, wake)] else []
      case WriteIdle => [Q.Step.Pop(act.t)]
      case _ => []
  }

  lemma ReadItems(s: System, act: Step)
    requires Core(s) && Enabled(s, act)
    ensures Apply(s, act).readQ ==
      match act
      case PushNext => (if s.listener.ready == [] then s.readQ else Q.Offer(s.readQ, s.listener.ready[0], true))
      case Work(t, _) => (if s.workers[t] == ReadIdle then s.readQ[1..] else s.readQ)
      case _ => s.readQ
  {
    StepIsGuarded(s, act);
    if act.Work? && s.workers[act.t] != ReadIdle {
      hide Core, Apply, Enabled;
    } else if act.Work? {
      hide Core;
    } else {
      hide Core, Accept;
    }
  }

  /** The write queue, its record of pushes, and its record of pops. */
  ghost predicate WriteSide(s: System, s': System, items: seq<Task>, pushes: seq<Task>, popped: seq<Task>) {
    && s'.writeQ == items && Pushed(s'.log.routed) == Pushed(s.log.routed) + pushes
    && s'.log.popped == s.log.popped + popped
  }

  lemma ForwardItems(s: System, act: Step)
    requires Core(s) && Enabled(s, act) && act.Work? && s.workers[act.t].ReadForward?
    ensures s.workers[act.t].dst < |s.reg.cells|
    ensures var task := Task(s.reg.cells[s.workers[act.t].dst].socket, s.workers[act.t].frame);
      WriteSide(s, Apply(s, act), s.writeQ + [task], [task], [])
  {
    var pc := s.workers[act.t];
    PushedAppend(s.log.routed, Routed(pc.sock, pc.frame, Some(s.reg.cells[pc.dst].socket)));
    hide Core, Pushed;
    assert s.log.popped + [] == s.log.popped;
  }

  lemma PopItems(s: System, act: Step)
    requires Enabled(s, act) && act.Work? && s.workers[act.t] == WriteIdle
    ensures s.writeQ != [] && WriteSide(s, Apply(s, act), s.writeQ[1..], [], [s.writeQ[0]])
  {
    hide Pushed;
  }

  lemma SameItems(s: System, s': System)
    requires s'.writeQ == s.writeQ && s'.log.routed == s.log.routed && s'.log.popped == s.log.popped
    ensures WriteSide(s, s', s.writeQ, [], [])
  {
    hide Pushed;
  }

  lemma RouteKeepsItems(s: System, t: nat)
    requires CanWork(s, t) && Meaningful(s, s.workers[t]) && s.workers[t].ReadRoute?
    ensures WriteSide(s, ReaderStep(s, t), s.writeQ, [], [])
  {
    var pc, s' := s.workers[t], ReaderStep(s, t);
    var drop := Routed(pc.sock, pc.frame, None);
    PushedAppend(s.log.routed, drop);
    hide Pushed, RouterMessage.DstOf;
    assert s'.writeQ == s.writeQ && s'.log.popped == s.log.popped;
    if s'.log.routed == s.log.routed {
      hide ReaderStep;
      SameItems(s, s');
    } else {
      assert s'.log.routed == s.log.routed + [drop];
      hide ReaderStep;
      assert s.log.popped + [] == s.log.popped;
    }
  }

  /** Reader steps other than a forward, and writer steps other than a pop. */
  lemma ReaderKeepsItems(s: System, t: nat)
    requires CanWork(s, t) && Meaningful(s, s.workers[t]) && !IsWriter(s.workers[t]) && !s.workers[t].ReadForward?
    ensures WriteSide(s, ReaderStep(s, t), s.writeQ, [], [])
  {
    if s.workers[t].ReadRoute? {
      RouteKeepsItems(s, t);
    } else {
      hide WriteSide, ReadN, AddNode, Remove, RouterMessage.DstOf, RouterMessage.IdOf;
      SameItems(s, ReaderStep(s, t));
    }
  }

  lemma WriterKeepsItems(s: System, t: nat, sendOk: bool)
    requires CanWork(s, t) && Meaningful(s, s.workers[t]) && IsWriter(s.workers[t]) && s.workers[t] != WriteIdle
    ensures WriteSide(s, WriterStep(s, t, sendOk), s.writeQ, [], [])
  {
    hide WriteSide, Remove;
    SameItems(s, WriterStep(s, t, sendOk));
  }

  lemma OtherItems(s: System, act: Step)
    requires Core(s) && Enabled(s, act) && WriteCalls(s, act, 0) == []
    ensures WriteSide(s, Apply(s, act), s.writeQ, [], [])
  {
    if act.Work? {
      hide WriteSide, ReaderStep, WriterStep;
      if IsWriter(s.workers[act.t]) {
        WriterKeepsItems(s, act.t, act.sendOk);
      } else {
        assert PcOk(s.reg, s.workers[act.t]);
        ReaderKeepsItems(s, act.t);
      }
    } else if act.AcceptGives? {
      AcceptShape(s, act.fd, act.tape);
      hide Pushed;
    } else {
      ListenerShape(s, act);
      hide Pushed;
    }
  }

  // ---------------------------------------------------------------- the read queue

  ghost function ReadSteps(f: Fine, a: Action): seq<Q.Step<int>>
    requires Ready(f, a)
  {
    match a
    case Body(i, wake) => ReadCalls(f.sys, f.phases[i].act, wake)
    case Doze(i) => if i < |f.sys.workers| && f.sys.workers[i] == ReadIdle then [Q.Step.Pop(i)] else []
    case Stir(i) => if f.sys.workers[i] == ReadIdle then [Q.Step.Stir(i)] else []
    case _ => []
  }

  ghost predicate ReadMatches(f: Fine, q: Q.State<int>) {
    q.items == f.sys.readQ && q.consumers == Consumers(f, OnReads)
  }

  ghost predicate ReadMoves(f': Fine, q: Q.State<int>, calls: seq<Q.Step<int>>) {
    if calls == [] then ReadMatches(f', q)
    else |calls| == 1 && Q.Enabled(q, calls[0]) && ReadMatches(f', Q.Apply(q, calls[0]))
  }

  lemma BodyOnReads(f: Fine, i: nat, wake: nat, q: Q.State<int>)
    requires FineInv(f) && Ready(f, Body(i, wake)) && ReadMatches(f, q)
    ensures ReadMoves(Do(f, Body(i, wake)), q, ReadSteps(f, Body(i, wake)))
  {
    BodyConsumers(f, i, wake, OnReads);
    BodyShape(f, i, wake);
    var act := f.phases[i].act;
    assert PhaseOk(f.sys, i, f.phases[i]);
    ReadItems(f.sys, act);
    hide Core, Do, Apply, Consumers, PhasesOk;
  }

  lemma QuietOnReads(f: Fine, a: Action)
    requires FineInv(f) && Ready(f, a) && !a.Body?
    ensures SystemAfter(f, a).readQ == f.sys.readQ
  {
    assert PhaseOk(f.sys, a.i, f.phases[a.i]);
    if SystemSteps(f, a) != [] {
      StepIsGuarded(f.sys, SystemSteps(f, a)[0]);
      hide Core, Enabled, Apply;
    }
  }

  lemma ActionOnReads(f: Fine, a: Action, q: Q.State<int>)
    requires FineInv(f) && Ready(f, a) && ReadMatches(f, q)
    ensures ReadMoves(Do(f, a), q, ReadSteps(f, a))
  {
    NeverRelocks(f, a);
    if a.Body? {
      hide ReadMoves, Ready, Do, FineInv, ReadMatches;
      BodyOnReads(f, a.i, a.wake, q);
    } else {
      QuietOnReads(f, a);
      NeutralOrSleep(f, a, OnReads);
      if a.Doze? { DozeShape(f, a.i); }
      hide FineInv, PhasesAfter, SystemAfter, Consumers;
    }
  }

  ghost function ReadRun(f: Fine, actions: seq<Action>): seq<Q.Step<int>>
    requires ValidActions(f, actions)
    decreases |actions|
  {
    if actions == [] then [] else ReadSteps(f, actions[0]) + ReadRun(Do(f, actions[0]), actions[1..])
  }

  lemma {:induction false} ReadQueueRuns(f: Fine, actions: seq<Action>, q: Q.State<int>)
    requires FineInv(f) && ValidActions(f, actions) && ReadMatches(f, q)
    ensures Q.ValidRun(q, ReadRun(f, actions))
    ensures ReadMatches(After(f, actions), Q.Run(q, ReadRun(f, actions)))
    decreases |actions|
  {
    hide FineInv, Ready, Do, ReadSteps, ReadMatches, Q.Enabled, Q.Apply;
    if actions != [] {
      var f' := Do(f, actions[0]);
      ActionKeepsInv(f, actions[0]);
      ActionOnReads(f, actions[0], q);
      var first, rest := ReadSteps(f, actions[0]), ReadRun(f', actions[1..]);
      if first == [] {
        ReadQueueRuns(f', actions[1..], q);
        assert first + rest == rest;
      } else {
        ReadQueueRuns(f', actions[1..], Q.Apply(q, first[0]));
        assert (first + rest)[0] == first[0] && (first + rest)[1..] == rest;
      }
    }
  }

  // ---------------------------------------------------------------- the write queue

  ghost function WriteSteps(f: Fine, a: Action): seq<Q.Step<Task>>
    requires Ready(f, a)
  {
    match a
    case Body(i, wake) => WriteCalls(f.sys, f.phases[i].act, wake)
    case Doze(i) => if i < |f.sys.workers| && f.sys.workers[i] == WriteIdle then [Q.Step.Pop(i)] else []
    case Stir(i) => if f.sys.workers[i] == WriteIdle then [Q.Step.Stir(i)] else []
    case _ => []
  }

  /** The write queue with its consumers, and its history as the router's record has it. */
  ghost function WriteState(f: Fine): Q.State<Task> {
    Q.State(f.sys.writeQ, Consumers(f, OnWrites), Pushed(f.sys.log.routed), f.sys.log.popped)
  }

  ghost predicate WriteMoves(f: Fine, f': Fine, calls: seq<Q.Step<Task>>) {
    if calls == [] then WriteState(f') == WriteState(f)
    else |calls| == 1 && Q.Enabled(WriteState(f), calls[0]) && WriteState(f') == Q.Apply(WriteState(f), calls[0])
  }

  /** The write queue's part in a step, by the call the step makes on it. */
  ghost predicate WriteEffect(s: System, s': System, calls: seq<Q.Step<Task>>) {
    if calls == [] then WriteSide(s, s', s.writeQ, [], [])
    else
      match calls[0]
      case Push(x, skip, _) => !skip && WriteSide(s, s', s.writeQ + [x], [x], [])
      case Pop(_) => s.writeQ != [] && WriteSide(s, s', s.writeQ[1..], [], [s.writeQ[0]])
      case Stir(_) => false
  }

  lemma WriteItems(s: System, act: Step, wake: nat)
    requires Core(s) && Enabled(s, act)
    ensures WriteEffect(s, Apply(s, act), WriteCalls(s, act, wake))
  {
    hide WriteSide;
    if act.Work? && s.workers[act.t].ReadForward? {
      ForwardItems(s, act);
    } else if act.Work? && s.workers[act.t] == WriteIdle {
      PopItems(s, act);
    } else {
      OtherItems(s, act);
    }
    hide Core, Enabled, Apply;
  }

  /** What the call does to the consumers. */
  ghost predicate WakeEffect(cs: seq<Q.Consumer>, cs': seq<Q.Consumer>, calls: seq<Q.Step<Task>>) {
    if calls == [] then cs' == cs
    else
      match calls[0]
      case Push(_, _, wake) => Q.MayWake(cs, wake) && cs' == Q.Wake(cs, wake)
      case Pop(c) => c < |cs| && cs[c] != Q.Waiting && cs' == cs[c := Q.Outside]
      case Stir(_) => false
  }

  lemma EffectsMakeStep(f: Fine, f': Fine, calls: seq<Q.Step<Task>>)
    requires |calls| <= 1 && WriteEffect(f.sys, f'.sys, calls)
    requires WakeEffect(Consumers(f, OnWrites), Consumers(f', OnWrites), calls)
    ensures WriteMoves(f, f', calls)
  {
    hide Pushed, Consumers, Q.Wake, Q.MayWake;
  }

  lemma BodyWakes(f: Fine, i: nat, wake: nat)
    requires FineInv(f) && Ready(f, Body(i, wake))
    ensures WakeEffect(Consumers(f, OnWrites), Consumers(Do(f, Body(i, wake)), OnWrites), WriteSteps(f, Body(i, wake)))
    ensures |WriteSteps(f, Body(i, wake))| <= 1
  {
    hide Apply, Consumers, Q.Wake, Q.MayWake, LockFor, Do, Ready, Enabled, LocksOk, SocketsOpen, Consistent;
    BodyConsumers(f, i, wake, OnWrites);
    BodyShape(f, i, wake);
    var act := f.phases[i].act;
    assert PhaseOk(f.sys, i, f.phases[i]);
    if act.Work? { assert PcOk(f.sys.reg, f.sys.workers[i]); }
    hide Core, PhasesOk, PhaseOk, PcOk;
  }

  lemma BodyOnWrites(f: Fine, i: nat, wake: nat)
    requires FineInv(f) && Ready(f, Body(i, wake))
    ensures WriteMoves(f, Do(f, Body(i, wake)), WriteSteps(f, Body(i, wake)))
  {
    BodyWakes(f, i, wake);
    BodyShape(f, i, wake);
    hide PhasesOk, Ready, Do, Apply, Consumers, Enabled, WriteEffect, WakeEffect, WriteMoves;
    WriteItems(f.sys, f.phases[i].act, wake);
    EffectsMakeStep(f, Do(f, Body(i, wake)), WriteSteps(f, Body(i, wake)));
  }

  lemma QuietOnWrites(f: Fine, a: Action)
    requires FineInv(f) && Ready(f, a) && !a.Body?
    ensures WriteSide(f.sys, SystemAfter(f, a), f.sys.writeQ, [], [])
  {
    assert PhaseOk(f.sys, a.i, f.phases[a.i]);
    if SystemSteps(f, a) != [] {
      var act := SystemSteps(f, a)[0];
      assert WriteCalls(f.sys, act, 0) == [];
      OtherItems(f.sys, act);
      hide Core, Enabled, Apply, WriteSide;
    } else {
      hide WriteSide;
      SameItems(f.sys, f.sys);
    }
  }

  lemma ActionOnWrites(f: Fine, a: Action)
    requires FineInv(f) && Ready(f, a)
    ensures WriteMoves(f, Do(f, a), WriteSteps(f, a))
  {
    NeverRelocks(f, a);
    if a.Body? {
      hide WriteMoves, Ready, Do, FineInv;
      BodyOnWrites(f, a.i, a.wake);
    } else {
      QuietOnWrites(f, a);
      NeutralOrSleep(f, a, OnWrites);
      if a.Doze? { DozeShape(f, a.i); }
      assert WriteState(Do(f, a)) == WriteState(f).(consumers := Consumers(Do(f, a), OnWrites));
      hide FineInv, PhasesAfter, SystemAfter, Consumers, Pushed, WriteSide;
    }
  }

  ghost function WriteRun(f: Fine, actions: seq<Action>): seq<Q.Step<Task>>
    requires ValidActions(f, actions)
    decreases |actions|
  {
    if actions == [] then [] else WriteSteps(f, actions[0]) + WriteRun(Do(f, actions[0]), actions[1..])
  }

  lemma {:induction false} WriteQueueRuns(f: Fine, actions: seq<Action>)
    requires FineInv(f) && ValidActions(f, actions)
    ensures Q.ValidRun(WriteState(f), WriteRun(f, actions))
    ensures Q.Run(WriteState(f), WriteRun(f, actions)) == WriteState(After(f, actions))
    decreases |actions|
  {
    hide FineInv, Ready, Do, WriteSteps, WriteState, Q.Enabled, Q.Apply;
    if actions != [] {
      var f' := Do(f, actions[0]);
      ActionKeepsInv(f, actions[0]);
      ActionOnWrites(f, actions[0]);
      WriteQueueRuns(f', actions[1..]);
      var first, rest := WriteSteps(f, actions[0]), WriteRun(f', actions[1..]);
      if first == [] {
        assert first + rest == rest;
      } else {
        assert (first + rest)[0] == first[0] && (first + rest)[1..] == rest;
      }
    }
  }

  // ---------------------------------------------------------------- what follows for the router

  /** A queue nobody has used yet. */
  function Fresh<T>(consumers: nat): Q.State<T> { Q.State([], seq(consumers, _ => Q.Outside), [], []) }

  lemma NobodyConsumes(f: Fine, which: Which)
    requires Starts(f)
    ensures Consumers(f, which) == seq(|f.phases|, _ => Q.Outside)
  {
  }

  /** The history of the read queue in a run, as the signaling queue has it. */
  ghost function ReadHistory(f: Fine, actions: seq<Action>): Q.State<int>
    requires Starts(f) && ValidActions(f, actions)
  {
    StartsWell(f);
    NobodyConsumes(f, OnReads);
    ReadQueueRuns(f, actions, Fresh(|f.phases|));
    Q.Run(Fresh(|f.phases|), ReadRun(f, actions))
  }

  /** In every reachable state of the router: if a reader sleeps, there are no more queued sockets
      than readers that have been notified and not yet run, so none is forgotten. Every socket the
      listener ever handed over was popped or is still queued, in order, up to immediate
      repetitions; whatever is popped was handed over; and the queue has no repetition. Pops by
      any readers may come in between. */
  lemma ReadQueueIsSound(f: Fine, actions: seq<Action>)
    requires Starts(f) && ValidActions(f, actions)
    ensures var q, t := After(f, actions), ReadHistory(f, actions);
      && t.items == q.sys.readQ && t.consumers == Consumers(q, OnReads)
      && (Q.SomeWaiting(t.consumers) ==> |q.sys.readQ| <= Q.CountNotified(t.consumers))
      && (Q.SomeWaiting(t.consumers) && q.sys.readQ != [] ==> Q.Notified in t.consumers)
      && Q.Destutter(t.popped + q.sys.readQ) == Q.Destutter(t.pushes)
      && Q.Subsequence(t.popped + q.sys.readQ, t.pushes)
      && Q.NoRepetition(q.sys.readQ)
  {
    StartsWell(f);
    NobodyConsumes(f, OnReads);
    var start: Q.State<int> := Fresh(|f.phases|);
    assert Q.WakeupsCover(start) && Q.Faithful(start) && Q.NoRepetition(start.items);
    assert ReadMatches(f, start);
    hide FineInv, Starts, ValidActions, After, ReadRun, Q.ValidRun, Q.Run, Q.Destutter, Q.Subsequence, Q.WakeupsCover,
      Q.Faithful, Q.NoRepetition;
    ReadQueueRuns(f, actions, start);
    var calls := ReadRun(f, actions);
    Q.NoLostWakeup(start, calls);
    Q.CoalescingKeepsChanges(start, calls);
    ReadPushesSkip(f, actions);
    Q.CoalescedQueueHasNoRepetition(start, calls);
  }

  lemma {:induction false} ReadPushesSkip(f: Fine, actions: seq<Action>)
    requires ValidActions(f, actions)
    ensures forall k :: 0 <= k < |ReadRun(f, actions)| && ReadRun(f, actions)[k].Push? ==>
      ReadRun(f, actions)[k].skipIfRepeated
    decreases |actions|
  {
    if actions != [] {
      var first := ReadSteps(f, actions[0]);
      assert forall k :: 0 <= k < |first| && first[k].Push? ==> first[k].skipIfRepeated;
      hide Ready, Do, ReadSteps;
      ReadPushesSkip(Do(f, actions[0]), actions[1..]);
    }
  }

  lemma {:induction false} WritePushesDoNot(f: Fine, actions: seq<Action>)
    requires ValidActions(f, actions)
    ensures forall k :: 0 <= k < |WriteRun(f, actions)| && WriteRun(f, actions)[k].Push? ==>
      !WriteRun(f, actions)[k].skipIfRepeated
    decreases |actions|
  {
    if actions != [] {
      var first := WriteSteps(f, actions[0]);
      assert forall k :: 0 <= k < |first| && first[k].Push? ==> !first[k].skipIfRepeated;
      hide Ready, Do, WriteSteps;
      WritePushesDoNot(Do(f, actions[0]), actions[1..]);
    }
  }

  /** The same for the writers; and what they pop, in order, is exactly what was forwarded. */
  lemma WriteQueueIsSound(f: Fine, actions: seq<Action>)
    requires Starts(f) && ValidActions(f, actions)
    ensures var q := After(f, actions);
      var cs := Consumers(q, OnWrites);
      && (Q.SomeWaiting(cs) ==> |q.sys.writeQ| <= Q.CountNotified(cs))
      && (Q.SomeWaiting(cs) && q.sys.writeQ != [] ==> Q.Notified in cs)
      && q.sys.log.popped + q.sys.writeQ == Pushed(q.sys.log.routed)
  {
    StartsWell(f);
    NobodyConsumes(f, OnWrites);
    var start, calls := WriteState(f), WriteRun(f, actions);
    assert Q.WakeupsCover(start) && Q.Flow(start) == start.pushes;
    hide FineInv, Starts, ValidActions, After, WriteRun, Q.ValidRun, Q.Run, Q.WakeupsCover, Pushed, Consumers;
    WriteQueueRuns(f, actions);
    Q.NoLostWakeup(start, calls);
    WritePushesDoNot(f, actions);
    Q.PlainPushesAreFifo(start, calls);
  }
}
