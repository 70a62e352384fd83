/** What follows from the invariant in every reachable state: conservation and order of frames,
    reconstruction of streams, and freedom from deadlock. */
module RouterOutcomes {
  import opened Options
  import opened Text
  import opened Transport
  import opened Registry
  import opened RouterSystem
  import opened RouterCore
  import opened RouterLedger
  import opened RouterStreams
  import opened RouterInvariant
  import Q = SignalingQueue

  // ---------------------------------------------------------------- conservation of frames

  function Unroutable(log: seq<Routed>): multiset<Frame> {
    if log == [] then multiset{}
    else
      var last := log[|log| - 1];
      Unroutable(log[..|log| - 1]) + (if last.target.None? then multiset{last.frame} else multiset{})
  }

  /** Frames whose task ended in a given way. */
  function Ended(log: seq<Done>, fate: Fate): multiset<Frame> {
    if log == [] then multiset{}
    else
      var last := log[|log| - 1];
      Ended(log[..|log| - 1], fate) + (if last.fate == fate then multiset{last.task.msg} else multiset{})
  }

  lemma {:induction false} RoutedSplits(log: seq<Routed>)
    ensures RoutedBag(log) == Unroutable(log) + Messages(Pushed(log))
  {
    if log != [] {
      var n := |log| - 1;
      RoutedSplits(log[..n]);
      var f := log[n].frame;
      assert RoutedBag(log) == RoutedBag(log[..n]) + multiset{f};
      var p := Pushed(log[..n]);
      if log[n].target.Some? {
        var task := Task(log[n].target.value, f);
        assert Pushed(log) == p + [task];
        assert Unroutable(log) == Unroutable(log[..n]);
        MessagesPush(p, task);
      } else {
        assert Pushed(log) == p;
        assert Unroutable(log) == Unroutable(log[..n]) + multiset{f};
      }
      hide RoutedBag, Unroutable, Messages, Pushed;
    }
  }

  lemma {:induction false} DoneSplits(log: seq<Done>)
    ensures Messages(DoneTasks(log)) == Ended(log, Sent) + Ended(log, SendFailed) + Ended(log, NoSession)
  {
    if log != [] {
      var n := |log| - 1;
      DoneSplits(log[..n]);
      hide Messages;
      MessagesPush(DoneTasks(log[..n]), log[n].task);
    }
  }

  /** In every reachable state the frames read are, as a multiset, exactly: those a reader is
      holding, those dropped for an unknown destination, those waiting in the write queue, those
      a writer is holding, and those sent, failed to send, or found without a session. Nothing is
      duplicated, nothing vanishes. */
  lemma FrameConservation(s: System, steps: seq<Step>)
    requires Initial(s) && ValidRun(s, steps)
    ensures var q := Run(s, steps);
      ReceivedBag(q.log.received) ==
        Bag(q.workers, Carried) + Unroutable(q.log.routed)
        + Messages(q.writeQ) + Bag(q.workers, MessageInHand)
        + Ended(q.log.done, Sent) + Ended(q.log.done, SendFailed) + Ended(q.log.done, NoSession)
  {
    hide Initial, ValidRun, Run, Core, Ordered, Streaming;
    Reachable(s, steps);
    Conserved(Run(s, steps));
  }

  lemma Conserved(q: System)
    requires Balanced(q)
    ensures ReceivedBag(q.log.received) ==
        Bag(q.workers, Carried) + Unroutable(q.log.routed)
        + Messages(q.writeQ) + Bag(q.workers, MessageInHand)
        + Ended(q.log.done, Sent) + Ended(q.log.done, SendFailed) + Ended(q.log.done, NoSession)
  {
    hide Bag, Messages, Unroutable, Ended, DoneTasks, Pushed, ReceivedBag, RoutedBag;
    RoutedSplits(q.log.routed);
    MessagesAppend(q.log.popped, q.writeQ);
    DoneSplits(q.log.done);
  }

  // ---------------------------------------------------------------- order of frames

  /** The frames of one source among the tasks pushed on the write queue, in queue order. */
  function PushedFrom(log: seq<Routed>, src: int): seq<Frame> {
    if log == [] then []
    else
      var last := log[|log| - 1];
      PushedFrom(log[..|log| - 1], src)
      + (if last.src == src && last.target.Some? then [last.frame] else [])
  }

  lemma {:induction false} PushedIsSubsequence(log: seq<Routed>, src: int)
    ensures Q.Subsequence(PushedFrom(log, src), RoutedFrom(log, src))
  {
    if log != [] {
      var n := |log| - 1;
      PushedIsSubsequence(log[..n], src);
      hide Q.Subsequence;
      var p, r := PushedFrom(log[..n], src), RoutedFrom(log[..n], src);
      Q.SubsequencePush(p, r, log[n].frame);
      assert p + [] == p && r + [] == r;
    }
  }

  /** However many readers there are: what was read from a source, in stream order, is what was
      routed from it, in that order, plus at most the one frame now in hand; and the write queue
      received the routable ones in that same order. */
  lemma SourceOrder(s: System, steps: seq<Step>, h: nat)
    requires Initial(s) && ValidRun(s, steps) && h < |Run(s, steps).reg.cells|
    ensures var q := Run(s, steps);
      var sock := q.reg.cells[h].socket;
      && ReadFrom(q.log.received, sock) == RoutedFrom(q.log.routed, sock) + AsSeq(Carried(Holder(q, h)))
      && Q.Subsequence(PushedFrom(q.log.routed, sock), RoutedFrom(q.log.routed, sock))
      && q.log.popped + q.writeQ == Pushed(q.log.routed)
  {
    hide Initial, ValidRun, Run, Core, Streaming, Q.Subsequence;
    Reachable(s, steps);
    var q := Run(s, steps);
    assert InOrder(q, h);
    PushedIsSubsequence(q.log.routed, q.reg.cells[h].socket);
  }

  lemma StepKeepsEndOrder(s: System, step: Step, w: nat)
    requires Core(s) && Enabled(s, step) && EndsInOrder(s, w)
    ensures EndsInOrder(Apply(s, step), w)
  {
    if step.Work? {
      var next, src, e := WorkMoves(s, step.t, step.sendOk);
      hide Core, Apply, Moves, EndsInOrder, Enabled;
      MovesKeepEndOrder(s, Apply(s, step), step.t, next, src, e, w);
    } else if step.AcceptGives? {
      AcceptShape(s, step.fd, step.tape);
    } else {
      ListenerShape(s, step);
    }
  }

  lemma {:induction false} RunKeepsEndOrder(s: System, steps: seq<Step>, w: nat)
    requires Core(s) && ValidRun(s, steps) && EndsInOrder(s, w)
    ensures EndsInOrder(Run(s, steps), w)
    decreases |steps|
  {
    hide Core, Enabled, Apply, EndsInOrder;
    if steps != [] {
      StepKeepsCore(s, steps[0]);
      StepKeepsEndOrder(s, steps[0], w);
      RunKeepsEndOrder(Apply(s, steps[0]), steps[1..], w);
    }
  }

  /** With exactly one writer the tasks end, hence frames go out, in the order of the pushes. */
  lemma SingleWriterOrder(s: System, steps: seq<Step>, w: nat)
    requires Initial(s) && ValidRun(s, steps) && OnlyWriter(s, w)
    ensures var q := Run(s, steps);
      w < |q.workers| &&
      Pushed(q.log.routed) == DoneTasks(q.log.done) + AsSeq(InHand(q.workers[w])) + q.writeQ
  {
    assert s.workers[w] == ReadIdle || s.workers[w] == WriteIdle;
    assert EndsInOrder(s, w);
    InitialIsCore(s);
    hide Initial, ValidRun, Run, Core, Ordered, Streaming, DoneTasks, Pushed;
    RunKeepsEndOrder(s, steps, w);
    Reachable(s, steps);
  }

  // ---------------------------------------------------------------- order, end to end

  /** The routing decisions that queued a task. */
  function Kept(log: seq<Routed>): seq<Routed> {
    if log == [] then []
    else
      var last := log[|log| - 1];
      Kept(log[..|log| - 1]) + (if last.target.Some? then [last] else [])
  }

  /** The decision that queued this task. */
  predicate Queues(q: Routed, task: Task) { q.target == Some(task.socket) && q.frame == task.msg }

  lemma {:induction false} KeptArePushed(log: seq<Routed>)
    ensures |Kept(log)| == |Pushed(log)|
    ensures forall k :: 0 <= k < |Kept(log)| ==> Queues(Kept(log)[k], Pushed(log)[k])
  {
    if log != [] { KeptArePushed(log[..|log| - 1]); }
  }

  lemma {:induction false} KeptInOrder(log: seq<Routed>, src: int)
    ensures PushedFrom(log, src) == RoutedFrom(Kept(log), src)
  {
    if log != [] {
      var n := |log| - 1;
      KeptInOrder(log[..n], src);
      var k := Kept(log[..n]);
      if log[n].target.Some? {
        assert (k + [log[n]])[..|k|] == k;
      } else {
        assert Kept(log) == k && PushedFrom(log, src) == PushedFrom(log[..n], src);
      }
    }
  }

  /** The frames of one source that went out to one socket, in the order in which they went; the
      `k`-th task to end is the one the `k`-th decision in `kept` queued. */
  function SentTo(kept: seq<Routed>, done: seq<Done>, src: int, target: int): seq<Frame>
    requires |done| <= |kept|
  {
    if done == [] then []
    else
      var n := |done| - 1;
      SentTo(kept, done[..n], src, target)
      + (if kept[n].src == src && done[n].task.socket == target && done[n].fate == Sent then [done[n].task.msg] else [])
  }

  lemma {:induction false} SentFollowsKept(kept: seq<Routed>, done: seq<Done>, src: int, target: int)
    requires |done| <= |kept|
    requires forall k :: 0 <= k < |done| ==> Queues(kept[k], done[k].task)
    ensures Q.Subsequence(SentTo(kept, done, src, target), RoutedFrom(kept[..|done|], src))
  {
    if done != [] {
      var n := |done| - 1;
      SentFollowsKept(kept, done[..n], src, target);
      var a, b := SentTo(kept, done[..n], src, target), RoutedFrom(kept[..n], src);
      assert kept[..n + 1][..n] == kept[..n];
      Q.SubsequencePush(a, b, kept[n].frame);
      hide Q.Subsequence;
      assert Queues(kept[n], done[n].task);
      assert a + [] == a && b + [] == b;
    }
  }

  lemma RoutedFromPush(a: seq<Routed>, q: Routed, src: int)
    ensures RoutedFrom(a + [q], src) == RoutedFrom(a, src) + (if q.src == src then [q.frame] else [])
  {
    assert (a + [q])[..|a|] == a;
  }

  lemma {:induction false} RoutedFromConcat(a: seq<Routed>, b: seq<Routed>, src: int)
    ensures RoutedFrom(a + b, src) == RoutedFrom(a, src) + RoutedFrom(b, src)
  {
    if b == [] {
      assert a + b == a;
    } else {
      var front, x := b[..|b| - 1], b[|b| - 1];
      hide RoutedFrom;
      RoutedFromConcat(a, front, src);
      assert front + [x] == b && (a + front) + [x] == a + b;
      RoutedFromPush(front, x, src);
      RoutedFromPush(a + front, x, src);
    }
  }

  lemma DoneIsInOrder(done: seq<Done>, log: seq<Routed>, src: int, target: int)
    requires DoneTasks(done) <= Pushed(log)
    ensures |done| <= |Kept(log)|
    ensures forall k :: 0 <= k < |done| ==> Queues(Kept(log)[k], done[k].task)
    ensures Q.Subsequence(SentTo(Kept(log), done, src, target), RoutedFrom(log, src))
  {
    hide Q.Subsequence, Kept, Pushed, DoneTasks, SentTo;
    var kept := Kept(log);
    KeptArePushed(log);
    DoneTasksAt(done);
    SentFollowsKept(kept, done, src, target);
    var front, back := kept[..|done|], kept[|done|..];
    RoutedFromConcat(front, back, src);
    assert front + back == kept;
    Q.SubsequenceLonger(SentTo(kept, done, src, target), RoutedFrom(front, src), RoutedFrom(back, src));
    KeptInOrder(log, src);
    PushedIsSubsequence(log, src);
    Q.SubsequenceChain(SentTo(kept, done, src, target), PushedFrom(log, src), RoutedFrom(log, src));
  }

  lemma {:induction false} DoneTasksAt(done: seq<Done>)
    ensures |DoneTasks(done)| == |done|
    ensures forall k :: 0 <= k < |done| ==> DoneTasks(done)[k] == done[k].task
  {
    if done != [] { DoneTasksAt(done[..|done| - 1]); }
  }

  /** End to end, for any number of readers and one writer: the `k`-th task to end is the `k`-th
      one that routing queued, and the frames that went out from one source to one socket are, in
      the order in which they went, a subsequence of the frames as they were read from it. */
  lemma DeliveredInOrder(s: System, steps: seq<Step>, w: nat, h: nat, target: int)
    requires Initial(s) && ValidRun(s, steps) && OnlyWriter(s, w) && h < |Run(s, steps).reg.cells|
    ensures var q := Run(s, steps);
      var sock, kept := q.reg.cells[h].socket, Kept(q.log.routed);
      && |q.log.done| <= |kept|
      && (forall k :: 0 <= k < |q.log.done| ==> Queues(kept[k], q.log.done[k].task))
      && Q.Subsequence(SentTo(kept, q.log.done, sock, target), ReadFrom(q.log.received, sock))
  {
    hide Initial, ValidRun, Run, Q.Subsequence, Kept, Pushed, DoneTasks, SentTo, ReadFrom, RoutedFrom;
    var q := Run(s, steps);
    var sock := q.reg.cells[h].socket;
    SingleWriterOrder(s, steps, w);
    SourceOrder(s, steps, h);
    DoneIsInOrder(q.log.done, q.log.routed, sock, target);
    var routed := RoutedFrom(q.log.routed, sock);
    Q.SubsequenceSelf(routed);
    Q.SubsequenceLonger(routed, routed, AsSeq(Carried(Holder(q, h))));
    Q.SubsequenceChain(SentTo(Kept(q.log.routed), q.log.done, sock, target), routed, ReadFrom(q.log.received, sock));
  }

  // ---------------------------------------------------------------- two writers

  lemma PopApplies(s: System, w: nat)
    requires s.reg.Typed() && w < |s.workers| && s.workers[w] == WriteIdle && s.writeQ != []
    ensures Enabled(s, Work(w, true))
    ensures Apply(s, Work(w, true)) ==
      s.(writeQ := s.writeQ[1..], log := s.log.(popped := s.log.popped + [s.writeQ[0]]),
         workers := s.workers[w := WriteLookup(s.writeQ[0])])
  {
  }

  lemma LookupApplies(s: System, w: nat, task: Task, h: nat)
    requires s.reg.Typed() && w < |s.workers| && s.workers[w] == WriteLookup(task)
    requires FindBySocket(s.reg, task.socket) == Ref(h)
    ensures Enabled(s, Work(w, true))
    ensures Apply(s, Work(w, true)) == s.(workers := s.workers[w := WriteWant(task, h)])
  {
  }

  /** An idle writer pops the front task and finds its session. */
  lemma WriterPicks(s: System, w: nat, h: nat)
    requires s.reg.Typed() && w < |s.workers| && s.workers[w] == WriteIdle && s.writeQ != []
    requires FindBySocket(s.reg, s.writeQ[0].socket) == Ref(h)
    ensures var steps := [Work(w, true), Work(w, true)];
      && ValidRun(s, steps)
      && var q := Run(s, steps);
         && q.workers == s.workers[w := WriteWant(s.writeQ[0], h)] && q.locks == s.locks && q.reg == s.reg
         && q.log.done == s.log.done && q.log.routed == s.log.routed
  {
    hide Registry.Typed;
    var step := Work(w, true);
    PopApplies(s, w);
    var s1 := Apply(s, step);
    LookupApplies(s1, w, s.writeQ[0], h);
    hide Apply, Enabled, ValidRun, Run;
    RunTwo(s, step, step);
    assert s.workers[w := WriteLookup(s.writeQ[0])][w := WriteWant(s.writeQ[0], h)]
        == s.workers[w := WriteWant(s.writeQ[0], h)];
  }

  /** A writer whose session is free takes the mutex and sends. */
  lemma WriterDelivers(s: System, w: nat, task: Task, h: nat)
    requires s.reg.Typed() && w < |s.workers| && s.workers[w] == WriteWant(task, h) && h !in s.locks
    ensures var steps := [Work(w, true), Work(w, true)];
      && ValidRun(s, steps)
      && var q := Run(s, steps);
         && q.workers == s.workers[w := WriteUnlock(h)] && q.reg == s.reg && q.log.routed == s.log.routed
         && q.log.done == s.log.done + [Done(task, Sent)]
  {
    hide Registry.Typed;
    var step := Work(w, true);
    WantApplies(s, w, task, h);
    var s1 := Apply(s, step);
    SendApplies(s1, w, task, h);
    hide Apply, Enabled, Run, ValidRun;
    RunTwo(s, step, step);
    assert s.workers[w := WriteSend(task, h)][w := WriteUnlock(h)] == s.workers[w := WriteUnlock(h)];
  }

  lemma WantApplies(s: System, w: nat, task: Task, h: nat)
    requires s.reg.Typed() && w < |s.workers| && s.workers[w] == WriteWant(task, h) && h !in s.locks
    ensures Enabled(s, Work(w, true))
    ensures Apply(s, Work(w, true)) == s.(locks := s.locks[h := w], workers := s.workers[w := WriteSend(task, h)])
  {
  }

  lemma SendApplies(s: System, w: nat, task: Task, h: nat)
    requires s.reg.Typed() && w < |s.workers| && s.workers[w] == WriteSend(task, h)
    ensures Enabled(s, Work(w, true))
    ensures Apply(s, Work(w, true)) ==
      s.(log := s.log.(done := s.log.done + [Done(task, Sent)]), workers := s.workers[w := WriteUnlock(h)])
  {
  }

  function FourSteps(w: nat): seq<Step> { [Work(w, true), Work(w, true)] + [Work(w, true), Work(w, true)] }

  /** An idle writer, left alone, sends the front task to a free session. */
  lemma WriterServes(s: System, w: nat, h: nat)
    requires s.reg.Typed() && w < |s.workers| && s.workers[w] == WriteIdle && s.writeQ != []
    requires FindBySocket(s.reg, s.writeQ[0].socket) == Ref(h) && h !in s.locks
    ensures ValidRun(s, FourSteps(w))
    ensures var q := Run(s, FourSteps(w));
      && q.workers == s.workers[w := WriteUnlock(h)] && q.reg == s.reg && q.log.routed == s.log.routed
      && q.log.done == s.log.done + [Done(s.writeQ[0], Sent)]
  {
    hide Registry.Typed, Run, ValidRun, FindBySocket;
    var both := [Work(w, true), Work(w, true)];
    WriterPicks(s, w, h);
    var s1 := Run(s, both);
    WriterDelivers(s1, w, s.writeQ[0], h);
    RunAppend(s, both, both);
    assert s1.workers[w := WriteUnlock(h)] == s.workers[w := WriteUnlock(h)];
  }

  lemma CoreTyped(s: System)
    requires Core(s)
    ensures s.reg.Typed()
  {
  }

  /** The run takes two tasks for the same session in order and ends the second one first. */
  ghost predicate Overtakes(s: System, steps: seq<Step>, v: nat)
    requires |s.writeQ| >= 2
  {
    && ValidRun(s, steps)
    && Run(s, steps).log.routed == s.log.routed
    && Run(s, steps).log.done == s.log.done + [Done(s.writeQ[1], Sent)]
    && v < |Run(s, steps).workers| && Run(s, steps).workers[v] == WriteLookup(s.writeQ[0])
  }

  /** With two writers this fails from every state in which both are idle and two tasks for the
      same free session are at the front: the second task can end first. Popping a task and
      taking the session's mutex are separate steps. */
  lemma TwoWritersCanReorder(s: System, v: nat, w: nat, h: nat)
    requires Core(s) && v < |s.workers| && w < |s.workers| && v != w
    requires s.workers[v] == WriteIdle && s.workers[w] == WriteIdle
    requires |s.writeQ| >= 2 && s.writeQ[0].socket == s.writeQ[1].socket
    requires FindBySocket(s.reg, s.writeQ[0].socket) == Ref(h) && h !in s.locks
    ensures exists steps :: Overtakes(s, steps, v)
  {
    CoreTyped(s);
    hide Core, Apply, Enabled, Registry.Typed, Run, ValidRun;
    var first := Work(v, true);
    PopApplies(s, v);
    RunOne(s, first);
    var s1 := Apply(s, first);
    WriterServes(s1, w, h);
    RunAppend(s, [first], FourSteps(w));
    assert Overtakes(s, [first] + FourSteps(w), v);
  }

  // ---------------------------------------------------------------- frames of a stream

  lemma FlatLast(b: seq<Frame>)
    requires b != []
    ensures var n := |b| - 1;
      Flat(b)[..FRAME_SIZE * n] == Flat(b[..n]) && Flat(b)[FRAME_SIZE * n..] == b[n]
  {
  }

  lemma {:induction false} FlatInjective(a: seq<Frame>, b: seq<Frame>)
    requires Flat(a) == Flat(b)
    ensures a == b
  {
    assert |a| == |b|;
    if a != [] {
      var n := |a| - 1;
      FlatLast(a);
      FlatLast(b);
      FlatInjective(a[..n], b[..n]);
      assert a == a[..n] + [a[n]] && b == b[..n] + [b[n]];
    }
  }

  lemma {:induction false} FlatConcat(a: seq<Frame>, b: seq<Frame>)
    ensures Flat(a + b) == Flat(a) + Flat(b)
  {
    if b == [] {
      assert a + b == a;
    } else {
      var n := |b| - 1;
      assert (a + b)[..|a| + n] == a + b[..n];
      FlatConcat(a, b[..n]);
    }
  }

  /** Frames are self-delimiting: frames in front of the frames `b` and a torn rest are the first
      ones of `b`. */
  lemma FlatPrefix(a: seq<Frame>, b: seq<Frame>, rest: Bytes, tail: Bytes)
    requires Flat(a) + rest == Flat(b) + tail && |tail| < FRAME_SIZE
    ensures |a| <= |b| && a == b[..|a|] && rest == Flat(b[|a|..]) + tail
  {
    hide Flat;
    FewerFrames(a, b, rest, tail);
    var l, r := b[..|a|], b[|a|..];
    FlatHalves(b, |a|);
    PrefixOfBytes(Flat(a), rest, Flat(l), Flat(r), tail);
    FlatInjective(a, l);
  }

  lemma FlatHalves(b: seq<Frame>, n: nat)
    requires n <= |b|
    ensures Flat(b) == Flat(b[..n]) + Flat(b[n..]) && |Flat(b[..n])| == FRAME_SIZE * n
  {
    hide Flat;
    FlatConcat(b[..n], b[n..]);
    assert b[..n] + b[n..] == b;
  }

  lemma FewerFrames(a: seq<Frame>, b: seq<Frame>, rest: Bytes, tail: Bytes)
    requires Flat(a) + rest == Flat(b) + tail && |tail| < FRAME_SIZE
    ensures |a| <= |b|
  {
    hide Flat;
    assert |Flat(a) + rest| == |Flat(b) + tail|;
  }

  lemma PrefixOfBytes(a: Bytes, rest: Bytes, l: Bytes, r: Bytes, tail: Bytes)
    requires a + rest == l + r + tail && |a| == |l|
    ensures a == l && rest == r + tail
  {
    assert l + r + tail == l + (r + tail);
    SplitEqually(a, rest, l, r + tail);
  }

  lemma SplitEqually(a: Bytes, b: Bytes, c: Bytes, d: Bytes)
    requires a + b == c + d && |a| == |c|
    ensures a == c && b == d
  {
    assert a == (a + b)[..|a|] && c == (c + d)[..|c|];
    assert b == (a + b)[|a|..] && d == (c + d)[|c|..];
  }

  /** What the stream invariant says about a connection that carries these frames. */
  lemma TrackedFrames(v: View, frames: seq<Frame>, idBytes: Bytes, tail: Bytes)
    requires OnTrack(v) && |idBytes| == ID_SIZE && |tail| < FRAME_SIZE
    requires Until(v.conn.whole) == idBytes + (Flat(frames) + tail)
    ensures |v.frames| <= |frames| && v.frames == frames[..|v.frames|]
    ensures v.id == NONE ==> v.frames == []
    ensures !v.ended && v.id != NONE ==> Until(v.conn.rest) == Flat(frames[|v.frames|..]) + tail
    ensures !v.ended && v.id == NONE && v.claim.Some? ==>
      v.claim.value == idBytes && Until(v.conn.rest) == Flat(frames) + tail
    ensures !v.ended && v.id == NONE && v.claim.None? ==> Until(v.conn.rest) == Until(v.conn.whole)
  {
    hide Flat, Until, Aligned;
    var whole, rest := Until(v.conn.whole), Until(v.conn.rest);
    assert whole[..ID_SIZE] == idBytes;
    if v.id != NONE {
      var left := if v.ended then whole[ID_SIZE + FRAME_SIZE * |v.frames|..] else rest;
      TakenFrames(v.frames, frames, idBytes, left, tail);
    } else if !v.ended && v.claim.Some? {
      assert v.claim.value == whole[..ID_SIZE];
      SplitEqually(idBytes, rest, idBytes, Flat(frames) + tail);
    }
  }

  lemma TakenFrames(taken: seq<Frame>, frames: seq<Frame>, idBytes: Bytes, left: Bytes, tail: Bytes)
    requires |tail| < FRAME_SIZE && idBytes + Flat(taken) + left == idBytes + (Flat(frames) + tail)
    ensures |taken| <= |frames| && taken == frames[..|taken|] && left == Flat(frames[|taken|..]) + tail
  {
    hide Flat;
    PrefixOfBytes(idBytes, Flat(frames) + tail, idBytes, Flat(taken), left);
    FlatPrefix(taken, frames, left, tail);
  }

  /** The bytes still to come when the frames of a view have been taken. */
  function Left(v: View, frames: seq<Frame>, idBytes: Bytes, tail: Bytes): Bytes
    requires |v.frames| <= |frames|
  {
    if v.id != NONE then Flat(frames[|v.frames|..]) + tail
    else if v.claim.Some? then Flat(frames) + tail
    else idBytes + (Flat(frames) + tail)
  }

  /** A connection that keeps the protocol: an id message and then frames, cut by `recv` in any
      way, pausing between messages only, and at its end perhaps a message cut short. In every
      reachable state, whichever workers served it, whatever happened to its destinations, and
      also after the connection has ended, the frames taken from it are its first frames, in
      order; and until it has ended, the bytes left are exactly the remaining ones. */
  lemma FrameReconstruction(s: System, steps: seq<Step>, h: nat, frames: seq<Frame>, idBytes: Bytes, tail: Bytes)
    requires Initial(s) && ValidRun(s, steps) && h < |Run(s, steps).reg.cells|
    requires Connected(Run(s, steps), h)
    requires |idBytes| == ID_SIZE && Registrable(idBytes) && |tail| < FRAME_SIZE
    requires var c := ViewOf(Run(s, steps), h).conn;
      Aligned(c.whole, 0) && Until(c.whole) == idBytes + (Flat(frames) + tail)
    ensures var v := ViewOf(Run(s, steps), h);
      && |v.frames| <= |frames| && v.frames == frames[..|v.frames|]
      && (v.id == NONE ==> v.frames == [])
      && (!v.ended && v.id == NONE && v.claim.Some? ==> v.claim.value == idBytes)
      && (v.ended || Until(v.conn.rest) == Left(v, frames, idBytes, tail))
  {
    Reachable(s, steps);
    var v := ViewOf(Run(s, steps), h);
    assert StreamOk(v) by { hide Initial, ValidRun, Run, Core, Ordered, Balanced, Aligned, Until; }
    hide Initial, ValidRun, Run, Core, Ordered, Balanced, Streaming, ViewOf, Aligned, Registrable, OnTrack, Flat, Until;
    assert Until(v.conn.whole)[..ID_SIZE] == idBytes;
    TrackedFrames(v, frames, idBytes, tail);
  }

  /** A connection that ends before its id message is complete yields nothing. */
  lemma NothingBeforeTheId(s: System, steps: seq<Step>, h: nat)
    requires Initial(s) && ValidRun(s, steps) && h < |Run(s, steps).reg.cells|
    requires Connected(Run(s, steps), h)
    requires var c := ViewOf(Run(s, steps), h).conn;
      Aligned(c.whole, 0) && |Until(c.whole)| < ID_SIZE
    ensures var v := ViewOf(Run(s, steps), h);
      v.id == NONE && v.frames == []
  {
    Reachable(s, steps);
    hide Initial, ValidRun, Run, Core, Ordered, Balanced, ViewOf, Aligned, Flat, Until;
    assert StreamOk(ViewOf(Run(s, steps), h));
  }

  // ---------------------------------------------------------------- nothing after the end

  lemma WorkKeepsEnded(s: System, t: nat, sendOk: bool, h: nat)
    requires Core(s) && CanWork(s, t) && Meaningful(s, s.workers[t])
    requires Connected(s, h) && ViewOf(s, h).ended
    ensures Connected(Apply(s, Work(t, sendOk)), h)
    ensures ViewOf(Apply(s, Work(t, sendOk)), h) == ViewOf(s, h)
  {
    var pc := s.workers[t];
    assert PcOk(s.reg, pc);
    if pc.ReadLoop? {
      ReceiveKeepsEnded(s, t, h);
    }
    hide ReaderStep, WriterStep, Connected, ViewOf, LocksOk, PcOk, Meaningful, Aside;
    if IsWriter(pc) {
      WriterShape(s, t, sendOk);
      QuietView(s, WriterStep(s, t, sendOk), t, h);
    } else if pc.ReadClaim? {
      ClaimMovesOne(s, t, h);
    } else if !pc.ReadLoop? {
      ReaderShape(s, t);
      QuietView(s, ReaderStep(s, t), t, h);
    }
  }

  lemma ReceiveKeepsEnded(s: System, t: nat, h: nat)
    requires Core(s) && CanWork(s, t) && Meaningful(s, s.workers[t]) && s.workers[t].ReadLoop?
    requires Connected(s, h) && ViewOf(s, h).ended
    ensures Connected(ReaderStep(s, t), h) && ViewOf(ReaderStep(s, t), h) == ViewOf(s, h)
  {
    var pc := s.workers[t];
    assert PcOk(s.reg, pc);
    assert ReaderStep(s, t) == Receive(s, t, pc.sock, pc.h, pc.h);
    hide Receive, ReaderStep, ViewOf, LocksOk;
    if h == pc.h {
      ReceiveOwnView(s, t, pc.sock, h);
    } else {
      ReceiveOtherView(s, t, pc.sock, pc.h, h);
    }
  }

  lemma StepKeepsEnded(s: System, step: Step, h: nat)
    requires Inv(s) && Enabled(s, step) && Connected(s, h) && ViewOf(s, h).ended
    ensures Connected(Apply(s, step), h) && ViewOf(Apply(s, step), h) == ViewOf(s, h)
  {
    if step.Work? {
      hide Core, Balanced, Ordered, Streaming, Apply, ViewOf;
      WorkKeepsEnded(s, step.t, step.sendOk, h);
    } else if step.AcceptGives? {
      hide Core, Balanced, Ordered, Streaming, Accepting, ViewOf, Apply;
      AcceptApplies(s, step.fd, step.tape);
      AcceptShape(s, step.fd, step.tape);
      OldViews(s, Apply(s, step), step.fd, h);
    } else {
      ListenerShape(s, step);
      hide Core, Balanced, Ordered, Streaming, Apply, Enabled;
    }
  }

  lemma {:induction false} RunKeepsEnded(s: System, steps: seq<Step>, h: nat)
    requires Inv(s) && ValidRun(s, steps) && Connected(s, h) && ViewOf(s, h).ended
    ensures Connected(Run(s, steps), h) && ViewOf(Run(s, steps), h) == ViewOf(s, h)
    decreases |steps|
  {
    hide Inv, Enabled, Apply, ViewOf, Connected;
    if steps != [] {
      StepKeepsInv(s, steps[0]);
      StepKeepsEnded(s, steps[0], h);
      RunKeepsEnded(Apply(s, steps[0]), steps[1..], h);
    }
  }

  /** Once a reader has met the end of a connection, or the session was removed for a failed send,
      nothing more is ever read from it, whatever the tape still holds: stream, id and frames
      stay as they are in every later state. */
  lemma EndedForGood(s: System, before: seq<Step>, after: seq<Step>, h: nat)
    requires Initial(s) && ValidRun(s, before) && ValidRun(Run(s, before), after)
    requires Connected(Run(s, before), h) && ViewOf(Run(s, before), h).ended
    ensures var q := Run(Run(s, before), after);
      Connected(q, h) && ViewOf(q, h) == ViewOf(Run(s, before), h)
  {
    hide Initial, ValidRun, Run, Inv, ViewOf, Connected;
    Reachable(s, before);
    RunKeepsEnded(Run(s, before), after, h);
  }

  // ---------------------------------------------------------------- no deadlock

  /** A worker that waits: for work, or for the mutex of a session. */
  predicate WaitsForWork(s: System, t: nat)
    requires t < |s.workers|
  {
    (s.workers[t] == ReadIdle && s.readQ == []) || (s.workers[t] == WriteIdle && s.writeQ == [])
  }

  /** In every reachable state every worker can go on, unless it waits for work, or for a mutex;
      and then another worker holds that mutex and can itself go on. In particular nobody waits
      for a mutex of its own, and chains of waiting end after one link. */
  lemma NobodyIsStuck(s: System, steps: seq<Step>, t: nat, sendOk: bool)
    requires Initial(s) && ValidRun(s, steps) && t < |Run(s, steps).workers|
    ensures var q := Run(s, steps);
      || Enabled(q, Work(t, sendOk))
      || WaitsForWork(q, t)
      || exists u: nat :: u < |q.workers| && u != t && Enabled(q, Work(u, sendOk))
           && Held(q.workers[u]).Some? && Wanted(q.workers[t]) == Held(q.workers[u])
  {
    hide Initial, ValidRun, Run;
    InitialIsCore(s);
    RunKeepsCore(s, steps);
    var q := Run(s, steps);
    StepIsMeaningful(q, t);
    if Wanted(q.workers[t]).Some? && Wanted(q.workers[t]).value in q.locks {
      var u := q.locks[Wanted(q.workers[t]).value];
      StepIsMeaningful(q, u);
      assert Held(q.workers[u]) == Wanted(q.workers[t]);
      hide Core, Meaningful;
      assert Enabled(q, Work(u, sendOk));
    }
  }

  /** The session mutex a worker is waiting for. */
  function Wanted(pc: Pc): Option<nat> {
    if pc.ReadWant? || pc.WriteWant? then Some(pc.h) else None
  }

  lemma StepIsMeaningful(s: System, t: nat)
    requires Core(s) && t < |s.workers|
    ensures Meaningful(s, s.workers[t])
  {
    assert PcOk(s.reg, s.workers[t]);
  }

  /** The listener never runs into its own mutex, and every descriptor it is given is new. */
  lemma ListenerIsNeverStuck(s: System, steps: seq<Step>, fd: int)
    requires Initial(s) && ValidRun(s, steps)
    ensures !Run(s, steps).listener.ListenStuck?
    ensures fd !in Run(s, steps).open ==> fd !in Run(s, steps).reg.bySocket
  {
    hide Initial, ValidRun, Run;
    InitialIsCore(s);
    RunKeepsCore(s, steps);
    if fd !in Run(s, steps).open { AcceptNeverSelfLocks(Run(s, steps), fd); }
  }

  // ---------------------------------------------------------------- dispatch of ready sockets

  function Dispatching(n: nat): seq<Step> { seq(n + 1, _ => PushNext) }

  lemma {:induction false} DestutterCongruence(a: seq<int>, b: seq<int>, c: seq<int>)
    requires Q.Destutter(a) == Q.Destutter(b)
    ensures Q.Destutter(a + c) == Q.Destutter(b + c)
    decreases |c|
  {
    hide Q.Destutter;
    if c == [] {
      assert a + c == a && b + c == b;
    } else {
      var n := |c| - 1;
      DestutterCongruence(a, b, c[..n]);
      assert a + c == (a + c[..n]) + [c[n]] && b + c == (b + c[..n]) + [c[n]];
      Q.DestutterPush(a + c[..n], c[n]);
      Q.DestutterPush(b + c[..n], c[n]);
      LastOf(a + c[..n], b + c[..n]);
    }
  }

  lemma LastOf(a: seq<int>, b: seq<int>)
    requires Q.Destutter(a) == Q.Destutter(b)
    ensures a == [] <==> b == []
    ensures a != [] ==> a[|a| - 1] == b[|b| - 1]
  {
  }

  /** The listener hands every ready socket to the readers: left alone it empties its list, and
      the read queue is the old one followed by the ready sockets, up to immediate repetitions.
      Nothing else changes. */
  lemma {:induction false} ListenerDispatches(s: System, ready: seq<int>)
    requires s.listener == ListenPush(ready)
    ensures ValidRun(s, Dispatching(|ready|))
    ensures var q := Run(s, Dispatching(|ready|));
      && q == s.(listener := ListenIdle, readQ := q.readQ)
      && s.readQ <= q.readQ
      && Q.Destutter(q.readQ) == Q.Destutter(s.readQ + ready)
    decreases |ready|
  {
    hide Q.Destutter, Run, ValidRun;
    var steps := Dispatching(|ready|);
    PushApplies(s, ready);
    var s1 := Apply(s, PushNext);
    hide Apply, Enabled;
    if ready == [] {
      assert steps == [PushNext];
      RunOne(s, PushNext);
      assert s.readQ + ready == s.readQ;
    } else {
      var rest := ready[1..];
      assert steps[0] == PushNext && steps[1..] == Dispatching(|rest|);
      ListenerDispatches(s1, rest);
      RunFirst(s, steps);
      DestutterCongruence(s1.readQ, s.readQ + [ready[0]], rest);
      assert s.readQ + [ready[0]] + rest == s.readQ + ready;
    }
  }

  lemma PushApplies(s: System, ready: seq<int>)
    requires s.listener == ListenPush(ready)
    ensures Enabled(s, PushNext)
    ensures ready == [] ==> Apply(s, PushNext) == s.(listener := ListenIdle)
    ensures ready != [] ==>
      var s1 := Apply(s, PushNext);
      && s1 == s.(listener := ListenPush(ready[1..]), readQ := s1.readQ) && s.readQ <= s1.readQ
      && Q.Destutter(s1.readQ) == Q.Destutter(s.readQ + [ready[0]])
  {
    if ready != [] { Q.DestutterPush(s.readQ, ready[0]); }
    hide Q.Destutter;
  }

  lemma RunFirst(s: System, steps: seq<Step>)
    requires steps != [] && Enabled(s, steps[0]) && ValidRun(Apply(s, steps[0]), steps[1..])
    ensures ValidRun(s, steps) && Run(s, steps) == Run(Apply(s, steps[0]), steps[1..])
  {
  }

  // ---------------------------------------------------------------- a whole round of the event loop

  /** What the server socket has in store for a round: nothing, a failing accept, or a client. */
  datatype Arrival = Nobody | AcceptError | Client(fd: int, tape: Tape)

  function RoundEnd(arrival: Arrival, ready: seq<int>): seq<Step> {
    match arrival
    case Nobody => Dispatching(|ready|)
    case AcceptError => [AcceptFails]
    case Client(fd, tape) => [AcceptGives(fd, tape)] + Dispatching(|ready|)
  }

  /** One turn of the event loop, left alone. */
  function Round(arrival: Arrival, ready: seq<int>): seq<Step> {
    [Snapshot, SelectReady(!arrival.Nobody?, ready)] + RoundEnd(arrival, ready)
  }

  /** The loop monitors all accepted clients and no other: `select` may report just these. */
  lemma MonitorsAccepted(s: System, serverReady: bool, ready: seq<int>)
    requires s.listener == ListenIdle
    ensures Enabled(s, Snapshot)
    ensures Enabled(Apply(s, Snapshot), SelectReady(serverReady, ready)) <==>
      forall i :: 0 <= i < |ready| ==> ready[i] in s.reg.accepted
  {
  }

  lemma Selected(s: System, serverReady: bool, ready: seq<int>)
    requires s.listener == ListenIdle && forall i :: 0 <= i < |ready| ==> ready[i] in s.reg.accepted
    ensures var steps := [Snapshot, SelectReady(serverReady, ready)];
      && ValidRun(s, steps)
      && Run(s, steps) == s.(listener := if serverReady then ListenAccept(ready) else ListenPush(ready))
  {
    MonitorsAccepted(s, serverReady, ready);
    var s1 := Apply(s, Snapshot);
    assert Apply(s1, SelectReady(serverReady, ready))
      == s.(listener := if serverReady then ListenAccept(ready) else ListenPush(ready));
    hide Apply, Enabled, Run, ValidRun;
    RunTwo(s, Snapshot, SelectReady(serverReady, ready));
  }

  /** A failing `select` costs the round, too. */
  lemma FailedSelect(s: System)
    requires s.listener == ListenIdle
    ensures ValidRun(s, [Snapshot, SelectFails]) && Run(s, [Snapshot, SelectFails]) == s
  {
    RunTwo(s, Snapshot, SelectFails);
    hide Run, ValidRun;
  }

  /** An accept goes on to the ready sockets. */
  lemma Accepted(s: System, fd: int, tape: Tape)
    requires Core(s) && s.listener.ListenAccept? && fd !in s.open
    ensures Accept(s.reg, fd).Registered? && Enabled(s, AcceptGives(fd, tape))
    ensures Apply(s, AcceptGives(fd, tape)) ==
      s.(reg := Accept(s.reg, fd).registry, open := s.open + {fd}, conns := s.conns[fd := Conn(tape, tape)],
         listener := ListenPush(s.listener.ready))
  {
    AcceptNeverSelfLocks(s, fd);
    hide Core, Accept;
  }

  lemma RoundEnds(s: System, arrival: Arrival, ready: seq<int>)
    requires Core(s) && s.listener == (if arrival.Nobody? then ListenPush(ready) else ListenAccept(ready))
    requires arrival.Client? ==> arrival.fd !in s.open
    ensures ValidRun(s, RoundEnd(arrival, ready))
    ensures AfterRound(s.(listener := ListenIdle), Run(s, RoundEnd(arrival, ready)), arrival, ready)
  {
    match arrival
    case Nobody =>
      hide Core, Run, ValidRun, Q.Destutter;
      ListenerDispatches(s, ready);
    case AcceptError =>
      RunOne(s, AcceptFails);
      hide Core, Run, ValidRun;
    case Client(fd, tape) =>
      Accepted(s, fd, tape);
      hide Core, Apply, Enabled, Run, ValidRun, Q.Destutter, Accept;
      RunOne(s, AcceptGives(fd, tape));
      var s1 := Apply(s, AcceptGives(fd, tape));
      ListenerDispatches(s1, ready);
      RunAppend(s, [AcceptGives(fd, tape)], Dispatching(|ready|));
  }

  /** The state after a round: the client, if there is one, is registered and monitored from now
      on, every ready socket has been pushed, up to immediate repetitions, and nothing else has
      changed. A failing accept costs the round: nothing is pushed at all. */
  ghost predicate AfterRound(s: System, q: System, arrival: Arrival, ready: seq<int>) {
    match arrival
    case AcceptError => q == s
    case Nobody =>
      && q == s.(readQ := q.readQ) && s.readQ <= q.readQ
      && Q.Destutter(q.readQ) == Q.Destutter(s.readQ + ready)
    case Client(fd, tape) =>
      && Accept(s.reg, fd).Registered?
      && q == s.(reg := Accept(s.reg, fd).registry, open := s.open + {fd},
                 conns := s.conns[fd := Conn(tape, tape)], readQ := q.readQ)
      && s.readQ <= q.readQ && Q.Destutter(q.readQ) == Q.Destutter(s.readQ + ready)
  }

  /** From every idle state in which the invariant holds, for every choice of ready sockets among
      the accepted ones, with or without somebody at the server socket: the event loop comes round
      to its start, and what it has done is what `AfterRound` says. */
  lemma ListenerRound(s: System, arrival: Arrival, ready: seq<int>)
    requires Core(s) && s.listener == ListenIdle && forall i :: 0 <= i < |ready| ==> ready[i] in s.reg.accepted
    requires arrival.Client? ==> arrival.fd !in s.open
    ensures ValidRun(s, Round(arrival, ready))
    ensures AfterRound(s, Run(s, Round(arrival, ready)), arrival, ready)
  {
    var first := [Snapshot, SelectReady(!arrival.Nobody?, ready)];
    Selected(s, !arrival.Nobody?, ready);
    RunKeepsCore(s, first);
    hide Core, Run, ValidRun, AfterRound, RoundEnd;
    var s1 := Run(s, first);
    RoundEnds(s1, arrival, ready);
    assert s1.(listener := ListenIdle) == s;
    RunAppend(s, first, RoundEnd(arrival, ready));
  }
}
