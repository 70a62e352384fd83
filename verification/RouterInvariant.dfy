/** The invariant of the whole router, kept by every step of every thread. */
module RouterInvariant {
  import opened Options
  import opened Transport
  import opened Registry
  import opened RouterSystem
  import opened RouterCore
  import opened RouterLedger
  import opened RouterStreams

  ghost predicate Inv(s: System) { Core(s) && Balanced(s) && Ordered(s) && Streaming(s) }

  // ---------------------------------------------------------------- worker steps

  /** Workers neither open nor lose sockets. */
  lemma WorkKeepsSockets(s: System, t: nat, sendOk: bool)
    requires Core(s) && CanWork(s, t) && Meaningful(s, s.workers[t])
    ensures var s' := Apply(s, Work(t, sendOk));
      && s'.open == s.open && s'.conns.Keys == s.conns.Keys && |s'.reg.cells| == |s.reg.cells|
      && (forall h :: 0 <= h < |s.reg.cells| ==> s'.reg.cells[h].socket == s.reg.cells[h].socket)
  {
    var pc := s.workers[t];
    assert PcOk(s.reg, pc);
    if IsWriter(pc) {
      WriterShape(s, t, sendOk);
    } else if pc.ReadLoop? {
      ReceiveShape(s, t, pc.sock, pc.h, pc.x);
    } else if pc.ReadClaim? {
    } else {
      ReaderShape(s, t);
    }
  }

  lemma WorkMoves(s: System, t: nat, sendOk: bool) returns (next: Pc, src: int, e: Effect)
    requires Core(s) && CanWork(s, t) && Meaningful(s, s.workers[t])
    ensures Moves(s, Apply(s, Work(t, sendOk)), t, next, src, e)
  {
    hide Core, ReaderStep, WriterStep, Moves, Meaningful;
    if IsWriter(s.workers[t]) {
      next, src, e := WriterMoves(s, t, sendOk);
    } else {
      next, src, e := ReaderMoves(s, t);
    }
  }

  lemma WorkKeepsOrdered(s: System, t: nat, sendOk: bool)
    requires Core(s) && Ordered(s) && CanWork(s, t) && Meaningful(s, s.workers[t])
    ensures Ordered(Apply(s, Work(t, sendOk)))
  {
    var s' := Apply(s, Work(t, sendOk));
    var next, src, e := WorkMoves(s, t, sendOk);
    WorkKeepsSockets(s, t, sendOk);
    hide Apply, Moves, InOrder, Unheard, LocksOk, PcOk;
    forall h | 0 <= h < |s'.reg.cells| ensures InOrder(s', h) {
      MovesKeepOrderOf(s, s', t, next, src, e, h);
    }
    forall sock | sock !in s'.conns ensures Unheard(s', sock) {
      assert sock !in s.conns.Keys;
      MovesKeepUnheard(s, s', t, next, src, e, sock);
    }
  }

  lemma WorkKeepsStreamOf(s: System, t: nat, sendOk: bool, h: nat)
    requires Core(s) && CanWork(s, t) && Meaningful(s, s.workers[t])
    requires Connected(s, h) && StreamOk(ViewOf(s, h))
    ensures Connected(Apply(s, Work(t, sendOk)), h) && StreamOk(ViewOf(Apply(s, Work(t, sendOk)), h))
  {
    var pc := s.workers[t];
    hide ReaderStep, WriterStep, Connected, StreamOk, ViewOf, LocksOk, PcOk, Meaningful, Aside;
    assert PcOk(s.reg, pc);
    if IsWriter(pc) {
      WriterShape(s, t, sendOk);
      QuietKeepsStream(s, WriterStep(s, t, sendOk), t, h);
    } else if pc.ReadLoop? {
      ReceiveView(s, t, h);
    } else if pc.ReadClaim? {
      ClaimView(s, t, h);
    } else {
      ReaderShape(s, t);
      QuietKeepsStream(s, ReaderStep(s, t), t, h);
    }
  }

  lemma WorkKeepsInv(s: System, t: nat, sendOk: bool)
    requires Inv(s) && Enabled(s, Work(t, sendOk))
    ensures Inv(Apply(s, Work(t, sendOk)))
  {
    var s' := Apply(s, Work(t, sendOk));
    StepKeepsCore(s, Work(t, sendOk));
    var next, src, e := WorkMoves(s, t, sendOk);
    WorkKeepsSockets(s, t, sendOk);
    hide Core, Apply, Moves, Balanced, Ordered, Connected, StreamOk, ViewOf, Meaningful, CanWork;
    MovesKeepBalance(s, s', t, next, src, e);
    WorkKeepsOrdered(s, t, sendOk);
    forall h | 0 <= h < |s'.reg.cells| ensures Connected(s', h) && StreamOk(ViewOf(s', h)) {
      WorkKeepsStreamOf(s, t, sendOk, h);
    }
  }

  // ---------------------------------------------------------------- listener steps

  lemma SameBalance(s: System, s': System)
    requires Balanced(s) && s'.log == s.log && s'.writeQ == s.writeQ && s'.workers == s.workers
    ensures Balanced(s')
  {
    hide Pushed, Bag, ReceivedBag, RoutedBag, DoneTasks, Messages;
  }

  lemma SameAccounts(s: System, s': System)
    requires Ordered(s) && Streaming(s)
    requires s'.reg == s.reg && s'.locks == s.locks && s'.workers == s.workers && s'.open == s.open
    requires s'.conns == s.conns && s'.log == s.log
    ensures Ordered(s') && Streaming(s')
  {
    hide ReadFrom, RoutedFrom, OnTrack, WellFormed;
    forall h | 0 <= h < |s'.reg.cells|
      ensures InOrder(s', h) && Connected(s', h) && StreamOk(ViewOf(s', h))
    {
      assert Connected(s, h);
      assert InOrder(s, h) && Holder(s', h) == Holder(s, h);
      assert ViewOf(s', h) == ViewOf(s, h);
    }
    forall sock | sock !in s'.conns ensures Unheard(s', sock) { assert Unheard(s, sock); }
  }

  lemma ListenerShape(s: System, step: Step)
    requires Enabled(s, step) && !step.Work? && !step.AcceptGives?
    ensures var s' := Apply(s, step);
      && s'.reg == s.reg && s'.locks == s.locks && s'.workers == s.workers && s'.open == s.open
      && s'.conns == s.conns && s'.writeQ == s.writeQ && s'.log == s.log
  {
  }

  /** A listener step other than an accept changes nothing the ledger or the streams look at. */
  lemma ListenerKeepsRest(s: System, step: Step)
    requires Inv(s) && Enabled(s, step) && !step.Work? && !step.AcceptGives?
    ensures Inv(Apply(s, step))
  {
    hide Core, Apply, Balanced, Ordered, Streaming, Enabled;
    StepKeepsCore(s, step);
    ListenerShape(s, step);
    SameBalance(s, Apply(s, step));
    SameAccounts(s, Apply(s, step));
  }

  lemma FreshStreamOk(tape: Tape)
    ensures StreamOk(View(Conn(tape, tape), NONE, None, [], false))
  {
  }

  /** A new session starts with a clean record: nobody holds its mutex, nothing was read. */
  lemma AcceptedViews(s: System, fd: int, tape: Tape, h: nat)
    requires Inv(s) && s.listener.ListenAccept? && fd !in s.open
    requires h < |Accepting(s, fd, tape).reg.cells|
    ensures var s' := Accepting(s, fd, tape);
      && Connected(s', h) && StreamOk(ViewOf(s', h)) && InOrder(s', h)
  {
    hide Accepting, Core, Balanced, Ordered, Streaming, StreamOk, InOrder, ViewOf;
    AcceptShape(s, fd, tape);
    var s' := Accepting(s, fd, tape);
    if h < |s.reg.cells| {
      OldViews(s, s', fd, h);
    } else {
      NewView(s, s', fd, tape, h);
    }
  }

  lemma AcceptShape(s: System, fd: int, tape: Tape)
    requires Core(s) && s.listener.ListenAccept? && fd !in s.open
    ensures var s' := Accepting(s, fd, tape);
      && s'.reg.cells == s.reg.cells + [Session(fd, NONE)]
      && s'.open == s.open + {fd} && s'.conns == s.conns[fd := Conn(tape, tape)]
      && s'.locks == s.locks && s'.workers == s.workers && s'.log == s.log && s'.writeQ == s.writeQ
      && s'.reg.Live(|s.reg.cells|)
      && (forall h :: 0 <= h < |s.reg.cells| ==> (s'.reg.Live(h) <==> s.reg.Live(h)))
    ensures forall h :: 0 <= h < |s.reg.cells| ==> s.reg.cells[h].socket != fd
    ensures |s.reg.cells| !in s.locks
  {
    AcceptNeverSelfLocks(s, fd);
    AcceptKeeps(s.reg, fd);
    if |s.reg.cells| in s.locks { LockedExists(s, |s.reg.cells|); }
  }

  lemma LockedExists(s: System, h: nat)
    requires Core(s) && h in s.locks
    ensures h < |s.reg.cells|
  {
    assert PcOk(s.reg, s.workers[s.locks[h]]);
  }

  lemma AcceptApplies(s: System, fd: int, tape: Tape)
    requires Enabled(s, AcceptGives(fd, tape))
    ensures s.listener.ListenAccept? && fd !in s.open
    ensures Apply(s, AcceptGives(fd, tape)) == Accepting(s, fd, tape)
  {
  }

  lemma OldViews(s: System, s': System, fd: int, h: nat)
    requires Ordered(s) && Streaming(s) && h < |s.reg.cells| <= |s'.reg.cells|
    requires s'.reg.cells[h] == s.reg.cells[h] && s.reg.cells[h].socket != fd
    requires s'.reg.Live(h) == s.reg.Live(h)
    requires fd in s'.conns && s'.conns == s.conns[fd := s'.conns[fd]]
    requires s'.locks == s.locks && s'.workers == s.workers && s'.log == s.log
    ensures Connected(s, h) && Connected(s', h) && ViewOf(s', h) == ViewOf(s, h)
    ensures StreamOk(ViewOf(s', h)) && InOrder(s', h)
  {
    hide ReadFrom, RoutedFrom, OnTrack, WellFormed;
    assert Connected(s, h);
    assert InOrder(s, h) && Holder(s', h) == Holder(s, h);
    assert ViewOf(s', h) == ViewOf(s, h);
  }

  lemma NewView(s: System, s': System, fd: int, tape: Tape, h: nat)
    requires Ordered(s) && fd !in s.open && h < |s'.reg.cells| && h !in s'.locks && s'.reg.Live(h)
    requires s'.reg.cells[h] == Session(fd, NONE) && fd in s'.conns && s'.conns[fd] == Conn(tape, tape)
    requires s'.log == s.log
    ensures Connected(s', h) && StreamOk(ViewOf(s', h)) && InOrder(s', h)
  {
    assert fd !in s.conns.Keys;
    assert Unheard(s, fd);
    FreshStreamOk(tape);
    hide ReadFrom, RoutedFrom, OnTrack, WellFormed;
    assert Holder(s', h) == ReadIdle;
    assert ViewOf(s', h) == View(Conn(tape, tape), NONE, None, [], false);
  }

  lemma AcceptKeepsInv(s: System, fd: int, tape: Tape)
    requires Inv(s) && Enabled(s, AcceptGives(fd, tape))
    ensures Inv(Apply(s, AcceptGives(fd, tape)))
  {
    hide Core, Accepting, Apply, Enabled, Balanced, InOrder, StreamOk, ViewOf, Connected, Unheard;
    StepKeepsCore(s, AcceptGives(fd, tape));
    AcceptApplies(s, fd, tape);
    var s' := Accepting(s, fd, tape);
    AcceptShape(s, fd, tape);
    SameBalance(s, s');
    forall h | 0 <= h < |s'.reg.cells|
      ensures InOrder(s', h) && Connected(s', h) && StreamOk(ViewOf(s', h))
    {
      AcceptedViews(s, fd, tape, h);
    }
    forall sock | sock !in s'.conns ensures Unheard(s', sock) { SameUnheard(s, s', sock); }
  }

  lemma SameUnheard(s: System, s': System, sock: int)
    requires Unheard(s, sock) && s'.log == s.log
    ensures Unheard(s', sock)
  {
  }

  // ---------------------------------------------------------------- all runs

  lemma StepKeepsInv(s: System, step: Step)
    requires Inv(s) && Enabled(s, step)
    ensures Inv(Apply(s, step))
  {
    hide Inv, Apply, Enabled;
    match step
    case Work(t, sendOk) => WorkKeepsInv(s, t, sendOk);
    case AcceptGives(fd, tape) => AcceptKeepsInv(s, fd, tape);
    case _ => ListenerKeepsRest(s, step);
  }

  lemma {:induction false} IdleBags(workers: seq<Pc>)
    requires forall t :: 0 <= t < |workers| ==> workers[t] == ReadIdle || workers[t] == WriteIdle
    ensures Bag(workers, Carried) == multiset{} && Bag(workers, InHand) == multiset{}
    ensures Bag(workers, MessageInHand) == multiset{}
  {
    if workers != [] {
      assert workers[0] == ReadIdle || workers[0] == WriteIdle;
      forall t | 0 <= t < |workers[1..]| ensures workers[1..][t] == ReadIdle || workers[1..][t] == WriteIdle {
        assert workers[1..][t] == workers[t + 1];
      }
      IdleBags(workers[1..]);
    }
  }

  lemma InitialBalances(s: System)
    requires Initial(s)
    ensures Balanced(s)
  {
    IdleBags(s.workers);
    hide Bag;
  }

  lemma InitialOrder(s: System)
    requires Initial(s)
    ensures Ordered(s) && Streaming(s)
  {
    hide OnTrack, WellFormed;
  }

  lemma InitialIsInv(s: System)
    requires Initial(s)
    ensures Inv(s)
  {
    hide Initial, Core, Balanced, Ordered, Streaming;
    InitialIsCore(s);
    InitialBalances(s);
    InitialOrder(s);
  }

  lemma {:induction false} RunKeepsInv(s: System, steps: seq<Step>)
    requires Inv(s) && ValidRun(s, steps)
    ensures Inv(Run(s, steps))
    decreases |steps|
  {
    hide Inv, Enabled, Apply;
    if steps != [] {
      StepKeepsInv(s, steps[0]);
      RunKeepsInv(Apply(s, steps[0]), steps[1..]);
    }
  }

  /** The invariant holds in every state the router can reach. */
  lemma Reachable(s: System, steps: seq<Step>)
    requires Initial(s) && ValidRun(s, steps)
    ensures Inv(Run(s, steps))
  {
    hide Inv, Initial, ValidRun, Run;
    InitialIsInv(s);
    RunKeepsInv(s, steps);
  }
}
