/** What the record says about the end of a task is true of the registry: in every run a failed
    send costs the session, and a task without a session found none. */
module RouterFates {
  import opened Options
  import opened Transport
  import opened Registry
  import opened RouterSystem
  import opened RouterCore
  import opened RouterLedger
  import opened RouterStreams
  import opened RouterInvariant
  import opened RouterRouting
  import M = RouterMessage

  /** The session of a sent task is known; that of a failed send is gone, or the writer that holds
      its mutex is about to remove it; and where no session was found there is none, nor will the
      descriptor ever get another. */
  ghost predicate Accounted(s: System, d: Done) {
    match d.fate
    case Sent => exists h: nat :: Owns(s.reg, d.task.socket, h)
    case SendFailed => exists h: nat :: Owns(s.reg, d.task.socket, h) && Doomed(s, d.task, h)
    case NoSession => d.task.socket in s.open && d.task.socket !in s.reg.bySocket
  }

  ghost predicate Doomed(s: System, task: Task, h: nat) {
    !s.reg.Live(h) || Holder(s, h) == WriteRemove(task, h)
  }

  /** This writer is about to remove the session of the task. */
  ghost predicate Removing(s: System, t: nat, task: Task, h: nat) {
    t < |s.workers| && s.workers[t] == WriteRemove(task, h) && Owns(s.reg, task.socket, h)
  }

  ghost predicate TasksKnown(s: System) {
    && (forall i :: 0 <= i < |s.writeQ| ==> s.writeQ[i].socket in s.open)
    && (forall t :: 0 <= t < |s.workers| && InHand(s.workers[t]).Some? ==>
          InHand(s.workers[t]).value.socket in s.open)
  }

  ghost predicate AllAccounted(s: System) {
    forall i :: 0 <= i < |s.log.done| ==> Accounted(s, s.log.done[i])
  }

  // ---------------------------------------------------------------- a session that is gone stays gone

  lemma WorkShrinks(s: System, t: nat, sendOk: bool)
    requires Core(s) && Enabled(s, Work(t, sendOk))
    ensures var r, q := s.reg, Apply(s, Work(t, sendOk)).reg;
      forall k :: k in q.bySocket ==> k in r.bySocket && q.bySocket[k] == r.bySocket[k]
  {
    var pc := s.workers[t];
    assert PcOk(s.reg, pc);
    hide ReaderStep, WriterStep, LockMove, LocksOk;
    if IsWriter(pc) {
      WriterShape(s, t, sendOk);
    } else if pc.ReadClaim? {
      FirstClaim(s.reg, pc.sock, M.IdOf(pc.idBytes));
      ClaimsOnly(s, t);
    } else if pc.ReadLoop? {
      ReadsOnly(s, t);
    } else {
      ReaderShape(s, t);
    }
  }

  lemma ClaimsOnly(s: System, t: nat)
    requires CanWork(s, t) && Meaningful(s, s.workers[t]) && s.workers[t].ReadClaim?
    ensures ReaderStep(s, t).reg == AddNode(s.reg, s.workers[t].sock, M.IdOf(s.workers[t].idBytes))
  {
  }

  lemma ReadsOnly(s: System, t: nat)
    requires CanWork(s, t) && Meaningful(s, s.workers[t]) && s.workers[t].ReadLoop?
    ensures ReaderStep(s, t).reg == s.reg
  {
    hide ReadN;
  }

  /** Only a new descriptor enters the registry. */
  lemma StepShrinks(s: System, step: Step)
    requires Core(s) && Enabled(s, step)
    ensures var r, q := s.reg, Apply(s, step).reg;
      forall k :: k in q.bySocket && k in s.open ==> k in r.bySocket && q.bySocket[k] == r.bySocket[k]
    ensures s.open <= Apply(s, step).open
  {
    if step.Work? {
      WorkShrinks(s, step.t, step.sendOk);
      WorkKeepsSockets(s, step.t, step.sendOk);
    } else if step.AcceptGives? {
      AcceptNeverSelfLocks(s, step.fd);
    } else {
      ListenerShape(s, step);
    }
    hide Core;
  }

  lemma GoneForGood(s: System, step: Step, h: nat)
    requires Core(s) && Enabled(s, step) && h < |s.reg.cells| && !s.reg.Live(h)
    ensures !Apply(s, step).reg.Live(h)
  {
    StepShrinks(s, step);
    OnlyMutexHolderActs(s, step);
    assert s.reg.cells[h].socket in s.open;
    hide Core, Apply, Enabled;
  }

  lemma OwnedForGood(s: System, step: Step, sock: int, h: nat)
    requires Core(s) && Enabled(s, step) && Owns(s.reg, sock, h)
    ensures Owns(Apply(s, step).reg, sock, h)
  {
    OnlyMutexHolderActs(s, step);
    hide Core, Apply, Enabled;
  }

  // ---------------------------------------------------------------- old entries

  /** The removal that was due removes. */
  lemma RemovalRemoves(s: System, t: nat, sendOk: bool)
    requires Core(s) && Enabled(s, Work(t, sendOk)) && s.workers[t].WriteRemove?
    ensures !Apply(s, Work(t, sendOk)).reg.Live(s.workers[t].h)
  {
    var pc := s.workers[t];
    assert PcOk(s.reg, pc);
    RemovalEvolves(s.reg, pc.task.socket, pc.h);
    RemoveKeeps(s.reg, pc.task.socket);
  }

  lemma HolderWaits(s: System, t: nat, sendOk: bool, h: nat)
    requires Core(s) && Enabled(s, Work(t, sendOk)) && h in s.locks && s.locks[h] != t
    ensures Holder(Apply(s, Work(t, sendOk)), h) == Holder(s, h)
  {
    var next, src, e := WorkMoves(s, t, sendOk);
    HolderAfterMove(s, Apply(s, Work(t, sendOk)), t, next, h);
    hide Apply, Enabled, Records;
  }

  lemma WorkStaysDoomed(s: System, t: nat, sendOk: bool, task: Task, h: nat)
    requires Core(s) && Enabled(s, Work(t, sendOk)) && h < |s.reg.cells| && Doomed(s, task, h)
    ensures Doomed(Apply(s, Work(t, sendOk)), task, h)
  {
    if !s.reg.Live(h) {
      GoneForGood(s, Work(t, sendOk), h);
    } else {
      assert h in s.locks && s.workers[s.locks[h]] == WriteRemove(task, h);
      hide Core, Apply, Enabled, Holder;
      if s.locks[h] == t {
        RemovalRemoves(s, t, sendOk);
      } else {
        HolderWaits(s, t, sendOk, h);
      }
    }
  }

  lemma StaysDoomed(s: System, step: Step, task: Task, h: nat)
    requires Core(s) && Enabled(s, step) && h < |s.reg.cells| && Doomed(s, task, h)
    ensures Doomed(Apply(s, step), task, h)
  {
    if step.Work? {
      WorkStaysDoomed(s, step.t, step.sendOk, task, h);
    } else if !s.reg.Live(h) {
      GoneForGood(s, step, h);
    } else if step.AcceptGives? {
      AcceptShape(s, step.fd, step.tape);
    } else {
      ListenerShape(s, step);
    }
    hide Core, Apply, Enabled;
  }

  lemma StaysAccounted(s: System, step: Step, d: Done)
    requires Core(s) && Enabled(s, step) && Accounted(s, d)
    ensures Accounted(Apply(s, step), d)
  {
    hide Core, Apply, Enabled, Doomed;
    match d.fate
    case Sent =>
      var h: nat :| Owns(s.reg, d.task.socket, h);
      OwnedForGood(s, step, d.task.socket, h);
    case SendFailed =>
      var h: nat :| Owns(s.reg, d.task.socket, h) && Doomed(s, d.task, h);
      OwnedForGood(s, step, d.task.socket, h);
      StaysDoomed(s, step, d.task, h);
    case NoSession =>
      StepShrinks(s, step);
  }

  // ---------------------------------------------------------------- new entries

  /** What a step adds to the record of endings. */
  ghost predicate Ends(s: System, s': System, t: nat) {
    t < |s.workers| == |s'.workers| &&
    var pc, next := s.workers[t], s'.workers[t];
    || s'.log.done == s.log.done
    || (pc.WriteLookup? && pc.task.socket !in s.reg.bySocket && s'.reg == s.reg
        && s'.log.done == s.log.done + [Done(pc.task, NoSession)])
    || (pc.WriteSend? && s'.log.done == s.log.done + [Done(pc.task, Sent)])
    || (pc.WriteSend? && next == WriteRemove(pc.task, pc.h)
        && s'.log.done == s.log.done + [Done(pc.task, SendFailed)])
  }

  lemma WriterEnds(s: System, t: nat, sendOk: bool)
    requires CanWork(s, t) && Meaningful(s, s.workers[t]) && IsWriter(s.workers[t])
    ensures Ends(s, WriterStep(s, t, sendOk), t)
  {
    hide Remove;
  }

  lemma ReaderEndsNothing(s: System, t: nat)
    requires Core(s) && CanWork(s, t) && Meaningful(s, s.workers[t]) && !IsWriter(s.workers[t])
    ensures t < |ReaderStep(s, t).workers| == |s.workers| && ReaderStep(s, t).log.done == s.log.done
  {
    var next, src, e := ReaderMoves(s, t);
    NoTaskWithReader(s.workers[t]);
    hide Core, ReaderStep, Meaningful, InHand;
  }

  lemma WorkEnds(s: System, t: nat, sendOk: bool)
    requires Core(s) && Enabled(s, Work(t, sendOk))
    ensures Ends(s, Apply(s, Work(t, sendOk)), t)
  {
    hide Core, WriterStep, ReaderStep;
    if IsWriter(s.workers[t]) { WriterEnds(s, t, sendOk); } else { ReaderEndsNothing(s, t); }
  }

  /** The new entry is accounted for. */
  lemma NewEntryAccounted(s: System, t: nat, sendOk: bool)
    requires Core(s) && TasksKnown(s) && Enabled(s, Work(t, sendOk))
    ensures var done, s' := s.log.done, Apply(s, Work(t, sendOk));
      s'.log.done == done || exists d :: s'.log.done == done + [d] && Accounted(s', d)
  {
    var s', pc := Apply(s, Work(t, sendOk)), s.workers[t];
    assert PcOk(s.reg, pc);
    WorkEnds(s, t, sendOk);
    StepShrinks(s, Work(t, sendOk));
    if s'.log.done != s.log.done {
      if pc.WriteLookup? {
        assert InHand(pc) == Some(pc.task);
        hide Core, Apply, Enabled;
        assert Accounted(s', Done(pc.task, NoSession));
      } else {
        OwnedForGood(s, Work(t, sendOk), pc.task.socket, pc.h);
        NextHolds(s, t, sendOk);
        hide Core, Apply, Enabled;
        if s'.workers[t] == WriteRemove(pc.task, pc.h) { assert Doomed(s', pc.task, pc.h); }
        var d := s'.log.done[|s.log.done|];
        assert s'.log.done == s.log.done + [d] && Accounted(s', d);
      }
    }
  }

  lemma NextHolds(s: System, t: nat, sendOk: bool)
    requires Core(s) && Enabled(s, Work(t, sendOk))
    ensures var s' := Apply(s, Work(t, sendOk));
      t < |s'.workers| && (Held(s'.workers[t]).Some? ==> Holder(s', Held(s'.workers[t]).value) == s'.workers[t])
  {
    StepKeepsCore(s, Work(t, sendOk));
    var next, src, e := WorkMoves(s, t, sendOk);
    hide Apply, Enabled, Records, LockMove;
  }

  // ---------------------------------------------------------------- the tasks under way

  /** Tasks are made for sockets of sessions. */
  lemma StepKeepsTasksKnown(s: System, step: Step)
    requires Core(s) && TasksKnown(s) && Enabled(s, step)
    ensures TasksKnown(Apply(s, step))
  {
    if step.Work? {
      WorkKeepsTasksKnown(s, step.t, step.sendOk);
    } else if step.AcceptGives? {
      AcceptShape(s, step.fd, step.tape);
      hide Core, Apply, Enabled;
    } else {
      ListenerShape(s, step);
      hide Core, Apply, Enabled;
    }
  }

  lemma QueuedIsKnown(s: System, t: nat, sendOk: bool, src: int, f: Frame, target: int)
    requires Core(s) && Enabled(s, Work(t, sendOk))
    requires Apply(s, Work(t, sendOk)).log.routed == s.log.routed + [Routed(src, f, Some(target))]
    ensures target in s.open
  {
    NewEntryDirected(s, Work(t, sendOk));
    var log, q := s.log.routed, Routed(src, f, Some(target));
    assert (log + [q])[|log|] == q;
    assert |log + [q]| > |log|;
    var d :| log + [q] == log + [d] && Directed(s.reg, d);
    assert (log + [d])[|log|] == d;
    var h: nat :| Owns(s.reg, target, h) && Addressed(s.reg, f, h);
  }

  lemma WorkKeepsTasksKnown(s: System, t: nat, sendOk: bool)
    requires Core(s) && TasksKnown(s) && Enabled(s, Work(t, sendOk))
    ensures TasksKnown(Apply(s, Work(t, sendOk)))
  {
    var next, src, e := WorkMoves(s, t, sendOk);
    WorkKeepsSockets(s, t, sendOk);
    if e.Queued? { QueuedIsKnown(s, t, sendOk, src, e.frame, e.target); }
    var s' := Apply(s, Work(t, sendOk));
    hide Core, Apply, Enabled, LockMove, Tended, Carried, InHand;
    if e.Took? { assert s.writeQ[0] == e.task; }
    assert InHand(next).Some? ==> InHand(next).value.socket in s.open;
    forall i | 0 <= i < |s'.writeQ| ensures s'.writeQ[i].socket in s'.open {
      if e.Took? { assert s'.writeQ[i] == s.writeQ[i + 1]; }
    }
  }

  // ---------------------------------------------------------------- all runs

  lemma StepKeepsAccounts(s: System, step: Step)
    requires Core(s) && TasksKnown(s) && AllAccounted(s) && Enabled(s, step)
    ensures AllAccounted(Apply(s, step))
  {
    var s' := Apply(s, step);
    if step.Work? { NewEntryAccounted(s, step.t, step.sendOk); } else { ListenerEndsNothing(s, step); }
    hide Core, Apply, Enabled, Accounted, TasksKnown;
    forall i | 0 <= i < |s'.log.done| ensures Accounted(s', s'.log.done[i]) {
      if i < |s.log.done| {
        assert s'.log.done[i] == s.log.done[i];
        StaysAccounted(s, step, s.log.done[i]);
      }
    }
  }

  lemma ListenerEndsNothing(s: System, step: Step)
    requires Core(s) && Enabled(s, step) && !step.Work?
    ensures Apply(s, step).log == s.log
  {
    if step.AcceptGives? { AcceptShape(s, step.fd, step.tape); } else { ListenerShape(s, step); }
  }

  lemma {:induction false} RunKeepsAccounts(s: System, steps: seq<Step>)
    requires Core(s) && TasksKnown(s) && AllAccounted(s) && ValidRun(s, steps)
    ensures AllAccounted(Run(s, steps)) && Core(Run(s, steps))
    decreases |steps|
  {
    hide Core, Enabled, Apply, TasksKnown, AllAccounted;
    if steps != [] {
      StepKeepsCore(s, steps[0]);
      StepKeepsTasksKnown(s, steps[0]);
      StepKeepsAccounts(s, steps[0]);
      RunKeepsAccounts(Apply(s, steps[0]), steps[1..]);
    }
  }

  /** In every reachable state, for every task that has ended: a failed send has cost the session
      its place in the registry, or the writer that failed is at the removal; a task that found no
      session was for a socket that has none now; and a sent one was for a session's socket. */
  lemma FatesAreTrue(s: System, steps: seq<Step>, i: nat)
    requires Initial(s) && ValidRun(s, steps) && i < |Run(s, steps).log.done|
    ensures var q := Run(s, steps);
      var task := q.log.done[i].task;
      match q.log.done[i].fate
      case Sent => exists h: nat :: Owns(q.reg, task.socket, h)
      case SendFailed =>
        || task.socket !in q.reg.bySocket
        || exists t: nat, h: nat :: Removing(q, t, task, h)
      case NoSession => task.socket !in q.reg.bySocket
  {
    InitialIsCore(s);
    assert TasksKnown(s) && AllAccounted(s);
    hide Initial, ValidRun, Run, Core, TasksKnown;
    RunKeepsAccounts(s, steps);
    var q := Run(s, steps);
    var d := q.log.done[i];
    assert Accounted(q, d);
    if d.fate.SendFailed? {
      var h: nat :| Owns(q.reg, d.task.socket, h) && Doomed(q, d.task, h);
      FailedTarget(q, d.task, h);
    }
  }

  lemma FailedTarget(q: System, task: Task, h: nat)
    requires Core(q) && Owns(q.reg, task.socket, h) && Doomed(q, task, h)
    ensures task.socket !in q.reg.bySocket || (h in q.locks && Removing(q, q.locks[h], task, h))
  {
    if task.socket in q.reg.bySocket { OwnerIsUnique(q.reg, task.socket, h, q.reg.bySocket[task.socket]); }
  }
}
