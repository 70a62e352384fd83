/** Routing safety and session identity over every interleaving. */
module RouterRouting {
  import opened Options
  import opened Text
  import opened Transport
  import opened Registry
  import opened RouterSystem
  import opened RouterCore
  import opened RouterLedger
  import opened RouterStreams
  import opened RouterInvariant
  import M = RouterMessage
  import N = NodeMessage
  import L = RegistryLog

  // ---------------------------------------------------------------- sessions keep their identity

  /** Sessions are never forgotten, keep their socket, and keep their id once they have one. */
  ghost predicate WriteOnce(r: Registry, q: Registry) {
    && |r.cells| <= |q.cells|
    && forall h :: 0 <= h < |r.cells| ==>
         && q.cells[h].socket == r.cells[h].socket
         && (r.cells[h].id != NONE ==> q.cells[h].id == r.cells[h].id)
  }

  /** The one thread, if any, that may name or remove a session in a step: its mutex holder. */
  ghost function Actor(s: System, step: Step): Option<nat> {
    if step.Work? && step.t < |s.workers| then Held(s.workers[step.t]) else None
  }

  lemma ReaderEvolves(s: System, t: nat)
    requires Core(s) && CanWork(s, t) && !IsWriter(s.workers[t]) && Meaningful(s, s.workers[t])
    ensures Evolves(s.reg, ReaderStep(s, t).reg, Held(s.workers[t]))
  {
    var pc := s.workers[t];
    assert PcOk(s.reg, pc);
    if pc.ReadClaim? {
      FirstClaim(s.reg, pc.sock, M.IdOf(pc.idBytes));
    } else if pc.ReadRemove? {
      RemovalEvolves(s.reg, pc.sock, pc.h);
    } else {
      hide Consistent, PcOk, ReaderStep, Meaningful;
      ReaderKeepsRegistry(s, t);
    }
  }

  lemma WriterEvolves(s: System, t: nat, sendOk: bool)
    requires Core(s) && CanWork(s, t) && IsWriter(s.workers[t]) && Meaningful(s, s.workers[t])
    ensures Evolves(s.reg, WriterStep(s, t, sendOk).reg, Held(s.workers[t]))
  {
    var pc := s.workers[t];
    assert PcOk(s.reg, pc);
    if pc.WriteRemove? {
      RemovalEvolves(s.reg, pc.task.socket, pc.h);
    } else {
      hide Consistent, PcOk, WriterStep, Meaningful;
      WriterKeepsRegistry(s, t, sendOk);
    }
  }

  /** Whatever a step does to a session, to name it or to remove it, is done by the worker that
      holds that session's mutex. */
  lemma OnlyMutexHolderActs(s: System, step: Step)
    requires Core(s) && Enabled(s, step)
    ensures Evolves(s.reg, Apply(s, step).reg, Actor(s, step))
    ensures forall h :: Actor(s, step) == Some(h) ==> h in s.locks && s.locks[h] == step.t
  {
    if step.Work? {
      hide ReaderStep, WriterStep, Consistent, PcOk, Evolves;
      if IsWriter(s.workers[step.t]) {
        WriterEvolves(s, step.t, step.sendOk);
      } else {
        ReaderEvolves(s, step.t);
      }
    } else if step.AcceptGives? {
      AcceptKeepsCore(s, step.fd, step.tape);
    } else {
      SameRegistry(s.reg, None);
      ListenerShape(s, step);
    }
  }

  lemma {:induction false} RunIsWriteOnce(s: System, steps: seq<Step>)
    requires Core(s) && ValidRun(s, steps)
    ensures WriteOnce(s.reg, Run(s, steps).reg)
    decreases |steps|
  {
    hide Core, Enabled, Apply;
    if steps != [] {
      StepKeepsCore(s, steps[0]);
      OnlyMutexHolderActs(s, steps[0]);
      RunIsWriteOnce(Apply(s, steps[0]), steps[1..]);
    }
  }

  /** From any reachable state on, an id once taken is never changed again. */
  lemma IdentityIsWriteOnce(s: System, before: seq<Step>, after: seq<Step>)
    requires Initial(s) && ValidRun(s, before) && ValidRun(Run(s, before), after)
    ensures WriteOnce(Run(s, before).reg, Run(Run(s, before), after).reg)
  {
    hide Initial, ValidRun, Run, Core;
    InitialIsCore(s);
    RunKeepsCore(s, before);
    RunIsWriteOnce(Run(s, before), after);
  }

  /** A reader about to register an id always finds its session: live, nameless, its own. */
  lemma HandshakeIsNeverOrphaned(s: System, steps: seq<Step>, t: nat)
    requires Initial(s) && ValidRun(s, steps)
    requires t < |Run(s, steps).workers| && Run(s, steps).workers[t].ReadClaim?
    ensures var q := Run(s, steps);
      var pc := q.workers[t];
      && q.reg.Typed() && pc.h < |q.reg.cells|
      && FindBySocket(q.reg, pc.sock) == Ref(pc.h) && q.reg.cells[pc.h].id == NONE
      && pc.h in q.locks && q.locks[pc.h] == t
      && (M.IdOf(pc.idBytes) < MAX_CLIENTS_COUNT ==>
            FindById(AddNode(q.reg, pc.sock, M.IdOf(pc.idBytes)), M.IdOf(pc.idBytes)) == Ref(pc.h))
  {
    hide Initial, ValidRun, Run;
    InitialIsCore(s);
    RunKeepsCore(s, steps);
    var q := Run(s, steps);
    assert PcOk(q.reg, q.workers[t]);
    FirstClaim(q.reg, q.workers[t].sock, M.IdOf(q.workers[t].idBytes));
  }

  // ---------------------------------------------------------------- routing

  /** The socket a frame was directed to belongs to a session that answers for its destination. */
  ghost predicate Directed(r: Registry, q: Routed) {
    q.target.Some? ==> exists h: nat :: Owns(r, q.target.value, h) && Addressed(r, q.frame, h)
  }

  ghost predicate AllDirected(s: System) {
    forall i :: 0 <= i < |s.log.routed| ==> Directed(s.reg, s.log.routed[i])
  }

  lemma DirectedForever(r: Registry, q: Registry, d: Routed)
    requires Directed(r, d) && WriteOnce(r, q)
    ensures Directed(q, d)
  {
    if d.target.Some? {
      var h: nat :| Owns(r, d.target.value, h) && Addressed(r, d.frame, h);
      assert Owns(q, d.target.value, h) && Addressed(q, d.frame, h);
    }
  }

  /** What a step adds to the routing record is directed. */
  lemma NewEntryDirected(s: System, step: Step)
    requires Core(s) && Enabled(s, step)
    ensures var log, log' := s.log.routed, Apply(s, step).log.routed;
      log' == log || (exists d :: log' == log + [d] && Directed(s.reg, d))
  {
    if step.Work? {
      var pc := s.workers[step.t];
      assert PcOk(s.reg, pc);
      if pc.ReadForward? {
        assert Owns(s.reg, s.reg.cells[pc.dst].socket, pc.dst) && Addressed(s.reg, pc.frame, pc.dst);
        assert Directed(s.reg, Routed(pc.sock, pc.frame, Some(s.reg.cells[pc.dst].socket)));
      } else if pc.ReadRoute? {
        hide Consistent;
        assert Directed(s.reg, Routed(pc.sock, pc.frame, None));
      } else if IsWriter(pc) {
        hide PcOk, Consistent;
        assert Apply(s, step).log.routed == s.log.routed;
      } else {
        hide PcOk, Consistent, ReadN;
        assert Apply(s, step).log.routed == s.log.routed;
      }
    } else {
      hide Consistent, PcOk;
      assert Apply(s, step).log.routed == s.log.routed;
    }
  }

  lemma StepKeepsDirected(s: System, step: Step)
    requires Core(s) && Enabled(s, step) && AllDirected(s)
    ensures AllDirected(Apply(s, step))
  {
    hide Core, Apply, Enabled, Directed;
    OnlyMutexHolderActs(s, step);
    NewEntryDirected(s, step);
    var s' := Apply(s, step);
    assert WriteOnce(s.reg, s'.reg);
    forall i | 0 <= i < |s'.log.routed| ensures Directed(s'.reg, s'.log.routed[i]) {
      assert Directed(s.reg, s'.log.routed[i]);
      DirectedForever(s.reg, s'.reg, s'.log.routed[i]);
    }
  }

  lemma {:induction false} RunKeepsDirected(s: System, steps: seq<Step>)
    requires Core(s) && AllDirected(s) && ValidRun(s, steps)
    ensures AllDirected(Run(s, steps))
    decreases |steps|
  {
    hide Core, AllDirected, Enabled, Apply;
    if steps != [] {
      StepKeepsCore(s, steps[0]);
      StepKeepsDirected(s, steps[0]);
      RunKeepsDirected(Apply(s, steps[0]), steps[1..]);
    }
  }

  lemma {:induction false} PushedWasRouted(log: seq<Routed>, task: Task)
    requires task in Pushed(log)
    ensures exists i :: 0 <= i < |log| && log[i].target == Some(task.socket) && log[i].frame == task.msg
  {
    if log != [] {
      var n := |log| - 1;
      if log[n].target == Some(task.socket) && log[n].frame == task.msg {
      } else {
        PushedWasRouted(log[..n], task);
        var i :| 0 <= i < n && log[..n][i].target == Some(task.socket) && log[..n][i].frame == task.msg;
        assert log[i] == log[..n][i];
      }
    }
  }

  /** In every reachable state, every task ever put on the write queue is for the socket of one
      session, and if the frame names a destination, that session carries it: whatever was
      registered, re-registered or removed in between. */
  lemma RoutingSafety(s: System, steps: seq<Step>, task: Task, h: nat)
    requires Initial(s) && ValidRun(s, steps)
    requires task in Pushed(Run(s, steps).log.routed)
    ensures exists g: nat :: Owns(Run(s, steps).reg, task.socket, g)
    ensures Owns(Run(s, steps).reg, task.socket, h) && M.DstOf(task.msg) != NONE ==>
      Run(s, steps).reg.cells[h].id == M.DstOf(task.msg)
  {
    var q := Run(s, steps);
    hide Run, ValidRun, M.DstOf, Pushed;
    InitialIsCore(s);
    RunKeepsCore(s, steps);
    RunKeepsDirected(s, steps);
    PushedWasRouted(q.log.routed, task);
    hide Core, Initial;
    var i :| 0 <= i < |q.log.routed| && q.log.routed[i].target == Some(task.socket) && q.log.routed[i].frame == task.msg;
    assert Directed(q.reg, q.log.routed[i]);
    var g: nat :| Owns(q.reg, task.socket, g) && Addressed(q.reg, task.msg, g);
    if Owns(q.reg, task.socket, h) {
      assert Consistent(q.reg) by { CoreConsistent(q); }
      OwnerIsUnique(q.reg, task.socket, g, h);
    }
  }

  lemma CoreConsistent(s: System)
    requires Core(s)
    ensures Consistent(s.reg)
  {
  }

  lemma {:induction false} EndedWasDone(log: seq<Done>, i: nat)
    requires i < |log|
    ensures log[i].task in DoneTasks(log)
  {
    var n := |log| - 1;
    if i < n {
      EndedWasDone(log[..n], i);
      assert log[..n][i] == log[i];
    }
  }

  /** Every frame ever sent was put on the write queue first. */
  lemma EndedWasPushed(s: System, i: nat)
    requires Balanced(s) && i < |s.log.done|
    ensures s.log.done[i].task in Pushed(s.log.routed)
  {
    var task := s.log.done[i].task;
    EndedWasDone(s.log.done, i);
    hide Bag, DoneTasks, Pushed;
    assert task in multiset(DoneTasks(s.log.done));
    assert task in multiset(s.log.popped);
    assert task in s.log.popped + s.writeQ;
  }

  /** End to end: a frame that went out to a node reached a session registered under the frame's
      destination, and a node with that id does not turn it away, while any other node would. */
  lemma SentFramesAreWelcome(s: System, steps: seq<Step>, i: nat, h: nat)
    requires Initial(s) && ValidRun(s, steps) && i < |Run(s, steps).log.done|
    requires Owns(Run(s, steps).reg, Run(s, steps).log.done[i].task.socket, h)
    requires M.DstOf(Run(s, steps).log.done[i].task.msg) != NONE
    ensures var msg := Run(s, steps).log.done[i].task.msg;
      var node := Run(s, steps).reg.cells[h].id;
      && N.ProcessMessage(node, msg) != N.Returns([])
      && (Stoi(N.Mti(msg)).Number? ==>
            N.ProcessMessage(node, msg).Returns? && |N.ProcessMessage(node, msg).text| == N.MSG_LEN)
      && forall other :: other != node ==> N.ProcessMessage(other, msg) == N.Returns([])
  {
    var q := Run(s, steps);
    var task := q.log.done[i].task;
    hide Run, ValidRun, N.ProcessMessage, Stoi, Core, Ordered, Initial, M.DstOf, Pushed;
    Reachable(s, steps);
    EndedWasPushed(q, i);
    RoutingSafety(s, steps, task, h);
    N.NodeAcceptsWhatRouterAddresses(task.msg, M.DstOf(task.msg));
  }

  // ---------------------------------------------------------------- the registry of a run

  /** The registry calls a run makes. */
  ghost function OpOf(s: System, step: Step): seq<L.Op>
    requires Enabled(s, step)
  {
    match step
    case AcceptGives(fd, _) => [L.AcceptClient(fd)]
    case Work(t, _) =>
      (match s.workers[t]
       case ReadClaim(sock, _, _, b) => [L.Claim(sock, M.IdOf(b))]
       case ReadRemove(sock, _) => [L.RemoveSession(sock)]
       case WriteRemove(task, _) => [L.RemoveSession(task.socket)]
       case _ => [])
    case _ => []
  }

  ghost function OpsOf(s: System, steps: seq<Step>): seq<L.Op>
    requires ValidRun(s, steps)
    decreases |steps|
  {
    if steps == [] then [] else OpOf(s, steps[0]) + OpsOf(Apply(s, steps[0]), steps[1..])
  }

  lemma StepIsOp(s: System, step: Step)
    requires Core(s) && Enabled(s, step)
    ensures OpOf(s, step) == [] ==> Apply(s, step).reg == s.reg
    ensures OpOf(s, step) != [] ==>
      var op := OpOf(s, step)[0];
      L.Returns(s.reg, op) && L.Disciplined(s.reg, op) && Apply(s, step).reg == L.Apply(s.reg, op)
  {
    match step
    case AcceptGives(fd, tape) =>
      AcceptNeverSelfLocks(s, fd);
    case Work(t, sendOk) =>
      WorkIsOp(s, t, sendOk);
    case _ =>
      ListenerShape(s, step);
  }

  lemma ReaderKeepsRegistry(s: System, t: nat)
    requires CanWork(s, t) && Meaningful(s, s.workers[t]) && !IsWriter(s.workers[t])
    requires !s.workers[t].ReadClaim? && !s.workers[t].ReadRemove?
    ensures ReaderStep(s, t).reg == s.reg
  {
    hide ReadN, M.DstOf;
  }

  lemma WriterKeepsRegistry(s: System, t: nat, sendOk: bool)
    requires CanWork(s, t) && Meaningful(s, s.workers[t]) && IsWriter(s.workers[t]) && !s.workers[t].WriteRemove?
    ensures WriterStep(s, t, sendOk).reg == s.reg
  {
  }

  lemma WorkIsOp(s: System, t: nat, sendOk: bool)
    requires Core(s) && Enabled(s, Work(t, sendOk))
    ensures var step := Work(t, sendOk);
      && (OpOf(s, step) == [] ==> Apply(s, step).reg == s.reg)
      && (OpOf(s, step) != [] ==>
            var op := OpOf(s, step)[0];
            L.Returns(s.reg, op) && L.Disciplined(s.reg, op) && Apply(s, step).reg == L.Apply(s.reg, op))
  {
    var pc := s.workers[t];
    assert PcOk(s.reg, pc);
    hide Consistent, LocksOk, SocketsOpen, M.DstOf, M.IdOf, AddNode, Remove;
    if !pc.ReadClaim? && !pc.ReadRemove? && !pc.WriteRemove? {
      hide ReaderStep, WriterStep;
      if IsWriter(pc) { WriterKeepsRegistry(s, t, sendOk); } else { ReaderKeepsRegistry(s, t); }
    }
  }

  /** The registry of every run is the result of disciplined registry calls, so everything proved
      about those, the index log in particular, holds of the running router. */
  lemma {:induction false} RegistryOfRun(s: System, steps: seq<Step>)
    requires Core(s) && ValidRun(s, steps)
    ensures var ops := OpsOf(s, steps);
      && L.ValidRun(s.reg, ops) && L.DisciplinedRun(s.reg, ops)
      && Run(s, steps).reg == L.Run(s.reg, ops)
    decreases |steps|
  {
    CoreConsistent(s);
    hide Core, Enabled, Apply, OpOf, Consistent;
    if steps != [] {
      StepKeepsCore(s, steps[0]);
      StepIsOp(s, steps[0]);
      var s' := Apply(s, steps[0]);
      RegistryOfRun(s', steps[1..]);
      SingleOp(s, steps[0]);
      var first, rest := OpOf(s, steps[0]), OpsOf(s', steps[1..]);
      if first == [] {
        assert first + rest == rest;
      } else {
        assert (first + rest)[0] == first[0] && (first + rest)[1..] == rest;
      }
    }
  }

  lemma SingleOp(s: System, step: Step)
    requires Enabled(s, step)
    ensures |OpOf(s, step)| <= 1
  {
  }

  /** In every reachable state, a lookup by id answers with the last claimant of that id, unless a
      session that held it was removed since. */
  lemma LookupIsLastClaim(s: System, steps: seq<Step>, id: int)
    requires Initial(s) && ValidRun(s, steps)
    ensures L.ValidRun(EMPTY, OpsOf(s, steps))
    ensures FindById(Run(s, steps).reg, id) == L.Holder(L.LogOf(EMPTY, OpsOf(s, steps)), id)
  {
    InitialIsCore(s);
    assert s.reg == EMPTY;
    hide Initial, Core, ValidRun, Run, OpsOf;
    RegistryOfRun(s, steps);
    L.IndexIsItsLog(OpsOf(s, steps), id);
  }

  /** In the running router too, the index is exact at an id throughout a run if and only if no
      claim of that id in it was contested. */
  lemma LookupIsExact(s: System, steps: seq<Step>, id: int)
    requires Initial(s) && ValidRun(s, steps) && id != NONE
    ensures L.ValidRun(EMPTY, OpsOf(s, steps))
    ensures L.ExactThroughout(EMPTY, OpsOf(s, steps), id) <==> L.Uncontested(EMPTY, OpsOf(s, steps), id)
    ensures L.Uncontested(EMPTY, OpsOf(s, steps), id) ==> L.ExactAt(Run(s, steps).reg, id)
  {
    InitialIsCore(s);
    assert s.reg == EMPTY;
    CoreConsistent(s);
    assert L.ExactAt(EMPTY, id);
    hide Initial, Core, ValidRun, Run, OpsOf, L.ExactAt, L.Uncontested, L.ExactThroughout, L.DisciplinedRun, Consistent;
    RegistryOfRun(s, steps);
    L.ExactIffUncontested(EMPTY, OpsOf(s, steps), id);
  }

  /** The other half of routing safety: as long as the destination of a frame was never claimed
      while indexed, whatever became of other ids, a reader drops the frame if and only if no
      live session carries the destination, and otherwise goes on to forward it to that session. */
  lemma RoutingCompleteness(s: System, steps: seq<Step>, t: nat, h: nat)
    requires Initial(s) && ValidRun(s, steps)
    requires t < |Run(s, steps).workers| && Run(s, steps).workers[t].ReadRoute?
    requires M.DstOf(Run(s, steps).workers[t].frame) != NONE
    requires L.ValidRun(EMPTY, OpsOf(s, steps))
    requires L.Uncontested(EMPTY, OpsOf(s, steps), M.DstOf(Run(s, steps).workers[t].frame))
    ensures var q := Run(s, steps);
      var d := M.DstOf(q.workers[t].frame);
      && Enabled(q, Work(t, true))
      && var next := Apply(q, Work(t, true)).workers[t];
         && (next.ReadForward? && next.dst == h <==> q.reg.Live(h) && q.reg.cells[h].id == d)
         && (next.ReadUnlock? <==> forall g: nat :: q.reg.Live(g) ==> q.reg.cells[g].id != d)
         && (next.ReadForward? || next.ReadUnlock?)
  {
    var q := Run(s, steps);
    LookupIsExact(s, steps, M.DstOf(q.workers[t].frame));
    hide Initial, Run, ValidRun, OpsOf, Core, M.DstOf, L.ExactAt, L.Uncontested, L.ExactThroughout, Apply, Enabled;
    InitialIsCore(s);
    RunKeepsCore(s, steps);
    CoreConsistent(q);
    RouteDecides(q, t, h);
  }

  lemma RouteDecides(q: System, t: nat, h: nat)
    requires t < |q.workers| && q.workers[t].ReadRoute? && M.DstOf(q.workers[t].frame) != NONE
    requires Consistent(q.reg) && L.ExactAt(q.reg, M.DstOf(q.workers[t].frame))
    ensures var d := M.DstOf(q.workers[t].frame);
      && Enabled(q, Work(t, true))
      && var next := Apply(q, Work(t, true)).workers[t];
         && (next.ReadForward? && next.dst == h <==> q.reg.Live(h) && q.reg.cells[h].id == d)
         && (next.ReadUnlock? <==> forall g: nat :: q.reg.Live(g) ==> q.reg.cells[g].id != d)
         && (next.ReadForward? || next.ReadUnlock?)
  {
    hide M.DstOf;
    KnownTyped(q.reg);
    var d := M.DstOf(q.workers[t].frame);
    NoNullSlots(q.reg, d);
    hide Consistent;
    assert FindById(q.reg, d) == Ref(h) <==> q.reg.Live(h) && q.reg.cells[h].id == d;
    if FindById(q.reg, d).Ref? {
      var g := FindById(q.reg, d).handle;
      assert q.reg.Live(g) && q.reg.cells[g].id == d;
    } else {
      forall g: nat | q.reg.Live(g) ensures q.reg.cells[g].id != d {
        assert FindById(q.reg, d) != Ref(g);
      }
    }
    hide L.ExactAt;
  }

  lemma NoNullSlots(r: Registry, id: int)
    requires Consistent(r)
    ensures FindById(r, id).Ref? <==> id in r.byId
  {
    if id in r.byId { assert EntryOk(r, id); }
  }

  // ---------------------------------------------------------------- destinations that read as -1

  /** The registrations of a run, as the registry logs them. */
  ghost function Claims(s: System, steps: seq<Step>): seq<L.Entry>
    requires Initial(s) && ValidRun(s, steps)
  {
    LookupIsLastClaim(s, steps, NONE);
    L.LogOf(EMPTY, OpsOf(s, steps))
  }

  lemma EmptyExplained()
    ensures L.NoneExplained([], EMPTY) && L.NamesExplained([], EMPTY)
  {
  }

  lemma ClaimsExplain(s: System, steps: seq<Step>)
    requires Initial(s) && ValidRun(s, steps)
    ensures L.NoneExplained(Claims(s, steps), Run(s, steps).reg)
    ensures L.NamesExplained(Claims(s, steps), Run(s, steps).reg)
  {
    InitialIsCore(s);
    assert s.reg == EMPTY;
    CoreConsistent(s);
    EmptyExplained();
    hide Initial, Core, ValidRun, Run, OpsOf, L.DisciplinedRun, Consistent, L.NoneExplained, L.NamesExplained, L.ValidRun,
      L.Run, L.LogOf;
    RegistryOfRun(s, steps);
    L.RunExplainsNames([], EMPTY, OpsOf(s, steps));
    assert [] + L.LogOf(EMPTY, OpsOf(s, steps)) == Claims(s, steps);
  }

  /** Exactly when a lookup leads astray: the session found for a frame carries the frame's
      destination if and only if the destination is a real one, or that session, the last to
      claim the key -1, has claimed no real id since. */
  lemma LookupCarriesExactly(s: System, steps: seq<Step>, frame: Frame, d: nat)
    requires Initial(s) && ValidRun(s, steps)
    requires FindById(Run(s, steps).reg, M.DstOf(frame)) == Ref(d)
    ensures d < |Run(s, steps).reg.cells|
    ensures Run(s, steps).reg.cells[d].id == M.DstOf(frame) <==>
      M.DstOf(frame) != NONE || !L.NamedSinceNone(Claims(s, steps), d)
  {
    var q := Run(s, steps);
    ClaimsExplain(s, steps);
    hide Initial, ValidRun, Run, M.DstOf, L.NamedSinceNone, Claims, L.NamesExplained, Core;
    InitialIsCore(s);
    RunKeepsCore(s, steps);
    CoreConsistent(q);
    if M.DstOf(frame) != NONE { assert EntryOk(q.reg, M.DstOf(frame)); }
  }

  /** The same for every task ever queued, in every later state: its session carries the
      destination if and only if that is a real one, or the session never claimed a real id. */
  lemma RoutingExactly(s: System, steps: seq<Step>, task: Task, h: nat)
    requires Initial(s) && ValidRun(s, steps)
    requires task in Pushed(Run(s, steps).log.routed) && Owns(Run(s, steps).reg, task.socket, h)
    ensures Run(s, steps).reg.cells[h].id == M.DstOf(task.msg) <==>
      M.DstOf(task.msg) != NONE || !L.MadeRealClaim(Claims(s, steps), h)
  {
    RoutingSafety(s, steps, task, h);
    ClaimsExplain(s, steps);
    hide Initial, ValidRun, Run, M.DstOf, L.MadeRealClaim, Claims, L.NoneExplained, Pushed;
  }

  /** What becomes of every delivered frame at the node it reaches, by what its destination field
      denotes. A field that does not parse makes the node throw, whoever it is; the field "-1" is
      turned away by every properly registered node; any other number is the node's own id, and
      only that node takes the frame. */
  lemma DeliveredFrames(s: System, steps: seq<Step>, i: nat, h: nat)
    requires Initial(s) && ValidRun(s, steps) && i < |Run(s, steps).log.done|
    requires Owns(Run(s, steps).reg, Run(s, steps).log.done[i].task.socket, h)
    ensures var msg := Run(s, steps).log.done[i].task.msg;
      var node := Run(s, steps).reg.cells[h].id;
      match Stoi(N.Dst(msg))
      case InvalidArgument => forall id :: N.ProcessMessage(id, msg).Throws?
      case OutOfRange => false
      case Number(d) =>
        && (d == NONE && node != NONE ==> N.ProcessMessage(node, msg) == N.Returns([]))
        && (d != NONE ==> node == d && N.ProcessMessage(node, msg) != N.Returns([]))
        && (forall other :: other != d ==> N.ProcessMessage(other, msg) == N.Returns([]))
    ensures var msg := Run(s, steps).log.done[i].task.msg;
      Stoi(N.Dst(msg)).InvalidArgument? <==> forall id :: N.ProcessMessage(id, msg).Throws?
  {
    var q := Run(s, steps);
    var task := q.log.done[i].task;
    var msg := task.msg;
    Reachable(s, steps);
    hide Initial, ValidRun, Run, Core, Ordered, Pushed, Stoi, Streaming;
    EndedWasPushed(q, i);
    RoutingSafety(s, steps, task, h);
    StoiShort(N.Dst(msg));
    assert N.Dst(msg) == M.DstField(msg);
    ReplyCases(msg, q.reg.cells[h].id);
  }

  lemma ReplyCases(msg: Frame, node: int)
    requires !Stoi(N.Dst(msg)).OutOfRange?
    requires M.DstOf(msg) != NONE ==> node == M.DstOf(msg)
    ensures match Stoi(N.Dst(msg))
      case InvalidArgument => forall id :: N.ProcessMessage(id, msg).Throws?
      case OutOfRange => false
      case Number(d) =>
        && (d == NONE && node != NONE ==> N.ProcessMessage(node, msg) == N.Returns([]))
        && (d != NONE ==> node == d && N.ProcessMessage(node, msg) != N.Returns([]))
        && (forall other :: other != d ==> N.ProcessMessage(other, msg) == N.Returns([]))
    ensures Stoi(N.Dst(msg)).InvalidArgument? <==> forall id :: N.ProcessMessage(id, msg).Throws?
  {
    assert N.Dst(msg) == M.DstField(msg);
    if Stoi(N.Dst(msg)).Number? {
      var d := Stoi(N.Dst(msg)).value;
      hide Stoi;
      assert N.ProcessMessage(d + 1, msg) == N.Returns([]);
      N.ReplyExactly(d, msg);
    }
  }
}
