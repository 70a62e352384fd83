/** Framing over whole runs: what the readers, whoever they are, take out of one connection is
    exactly its id message followed by its frames. */
module RouterStreams {
  import opened Options
  import opened Text
  import opened Transport
  import opened Registry
  import opened RouterSystem
  import opened RouterCore
  import opened RouterLedger
  import M = RouterMessage

  /** An id message read but not yet registered. */
  function Claiming(pc: Pc): Option<Bytes> {
    if pc.ReadClaim? then Some(pc.idBytes) else None
  }

  /** What a worker's program counter says about the stream of the session it serves. */
  datatype Mark = Mark(claim: Option<Bytes>, removing: bool)

  function MarkOf(pc: Pc): Mark { Mark(Claiming(pc), pc.ReadRemove?) }

  /** All that concerns one session's stream; `ended` when the session has been removed, or its
      reader has met the end of the connection and is about to remove it. */
  datatype View = View(conn: Conn, id: int, claim: Option<Bytes>, frames: seq<Frame>, ended: bool)

  ghost predicate Connected(s: System, h: nat) {
    h < |s.reg.cells| && s.reg.cells[h].socket in s.conns
  }

  ghost function ViewOf(s: System, h: nat): View
    requires Connected(s, h)
  {
    var c, mark := s.reg.cells[h], MarkOf(Holder(s, h));
    View(s.conns[c.socket], c.id, mark.claim, ReadFrom(s.log.received, c.socket),
         !s.reg.Live(h) || mark.removing)
  }

  function Flat(frames: seq<Frame>): (b: Bytes)
    ensures |b| == FRAME_SIZE * |frames|
  {
    if frames == [] then [] else Flat(frames[..|frames| - 1]) + frames[|frames| - 1]
  }

  /** A peer that keeps the protocol: the connection pauses between messages only, until it ends,
      which it may do anywhere; and it announces an id that can be registered. */
  ghost predicate WellFormed(tape: Tape) {
    Aligned(tape, 0) && (|Until(tape)| >= ID_SIZE ==> Registrable(Until(tape)[..ID_SIZE]))
  }

  predicate Registrable(b: Bytes) { M.IdOf(b) != NONE && M.IdOf(b) < MAX_CLIENTS_COUNT }

  /** How far the stream has got: not started, id in a reader's hands, or registered with these
      frames taken. Nothing is skipped, nothing is torn. Once the session has ended, the frames
      taken are still the first ones of the stream. */
  ghost predicate OnTrack(v: View) {
    var whole, rest := Until(v.conn.whole), Until(v.conn.rest);
    if v.ended then
      if v.id == NONE then v.frames == []
      else exists left: Bytes :: |whole| >= ID_SIZE && whole == whole[..ID_SIZE] + Flat(v.frames) + left
    else if v.id != NONE then
      && |whole| >= ID_SIZE && whole == whole[..ID_SIZE] + Flat(v.frames) + rest
      && Aligned(v.conn.rest, ID_SIZE + FRAME_SIZE * |v.frames|)
    else if v.claim.Some? then
      && v.frames == [] && |v.claim.value| == ID_SIZE && whole == v.claim.value + rest
      && Aligned(v.conn.rest, ID_SIZE)
    else v.frames == [] && whole == rest && Aligned(v.conn.rest, 0)
  }

  ghost predicate StreamOk(v: View) { WellFormed(v.conn.whole) ==> OnTrack(v) }

  ghost predicate Streaming(s: System) {
    forall h :: 0 <= h < |s.reg.cells| ==> Connected(s, h) && StreamOk(ViewOf(s, h))
  }

  lemma StreamEnds(v: View, rest: Tape)
    requires StreamOk(v)
    ensures StreamOk(v.(ended := true))
    ensures StreamOk(v.(ended := true, conn := v.conn.(rest := rest)))
  {
    hide Aligned, Until, Flat;
  }

  // ---------------------------------------------------------------- the two steps that matter

  /** `read_async` on a session that has no id yet. */
  lemma HandshakeRead(v: View, r: ReadResult)
    requires StreamOk(v) && !v.ended && v.id == NONE && v.claim.None? && r == ReadN(v.conn.rest, ID_SIZE)
    ensures r.code == SOCKET_ERROR ==> StreamOk(v.(conn := v.conn.(rest := r.rest), ended := true))
    ensures r.code == ID_SIZE ==>
      StreamOk(v.(conn := v.conn.(rest := r.rest), claim := Some(r.got)))
    ensures r.code != ID_SIZE && r.code != SOCKET_ERROR ==> StreamOk(v.(conn := v.conn.(rest := r.rest)))
  {
    StreamEnds(v, r.rest);
    if WellFormed(v.conn.whole) {
      AlignedRead(v.conn.rest, 0);
      ReadNConsumes(v.conn.rest, ID_SIZE);
      ReadNUntil(v.conn.rest, ID_SIZE);
      hide ReadN, Aligned, Until, Stream;
      assert Boundary(0) && Demand(0) == ID_SIZE;
      if r.code == 0 { assert Until(v.conn.rest) == Until(r.rest); }
    }
  }

  lemma BoundaryAfter(n: nat)
    ensures Boundary(ID_SIZE + FRAME_SIZE * n) && Demand(ID_SIZE + FRAME_SIZE * n) == FRAME_SIZE
  {
  }

  lemma FlatAppend(frames: seq<Frame>, f: Frame)
    ensures Flat(frames + [f]) == Flat(frames) + f
  {
    assert (frames + [f])[..|frames|] == frames;
  }

  lemma TakeFrame(whole: Bytes, frames: seq<Frame>, f: Frame, before: Bytes, after: Bytes)
    requires |whole| >= ID_SIZE && whole == whole[..ID_SIZE] + Flat(frames) + before && before == f + after
    ensures whole == whole[..ID_SIZE] + Flat(frames + [f]) + after
  {
    FlatAppend(frames, f);
    hide Flat;
    Regroup(whole[..ID_SIZE], Flat(frames), f, after);
  }

  lemma Regroup(a: Bytes, b: Bytes, f: Bytes, rest: Bytes)
    ensures a + b + (f + rest) == a + (b + f) + rest
  {
  }

  lemma FrameTracked(v: View, f: Frame, rest: Tape)
    requires OnTrack(v) && !v.ended && v.id != NONE
    requires Until(v.conn.rest) == f + Until(rest)
    requires Aligned(rest, ID_SIZE + FRAME_SIZE * |v.frames| + FRAME_SIZE)
    ensures OnTrack(v.(conn := v.conn.(rest := rest), frames := v.frames + [f]))
  {
    hide Aligned, Until, Flat;
    TakeFrame(Until(v.conn.whole), v.frames, f, Until(v.conn.rest), Until(rest));
  }

  lemma PauseTracked(v: View, rest: Tape)
    requires OnTrack(v) && !v.ended && v.id != NONE && Until(v.conn.rest) == Until(rest)
    requires Aligned(rest, ID_SIZE + FRAME_SIZE * |v.frames|)
    ensures OnTrack(v.(conn := v.conn.(rest := rest)))
  {
    hide Aligned, Until, Flat;
  }

  /** `read_async` on a registered session. */
  lemma FrameRead(v: View, r: ReadResult)
    requires StreamOk(v) && !v.ended && v.id != NONE && r == ReadN(v.conn.rest, FRAME_SIZE)
    ensures r.code == SOCKET_ERROR ==> StreamOk(v.(conn := v.conn.(rest := r.rest), ended := true))
    ensures r.code == FRAME_SIZE ==> |r.got| == FRAME_SIZE
    ensures r.code == FRAME_SIZE ==>
      StreamOk(v.(conn := v.conn.(rest := r.rest), frames := v.frames + [r.got]))
    ensures r.code != FRAME_SIZE && r.code != SOCKET_ERROR ==> StreamOk(v.(conn := v.conn.(rest := r.rest)))
  {
    StreamEnds(v, r.rest);
    var off := ID_SIZE + FRAME_SIZE * |v.frames|;
    ReadNConsumes(v.conn.rest, FRAME_SIZE);
    ReadNUntil(v.conn.rest, FRAME_SIZE);
    hide ReadN, Until, Stream, Flat;
    if WellFormed(v.conn.whole) {
      assert Aligned(v.conn.rest, off);
      hide OnTrack, Aligned, WellFormed;
      BoundaryAfter(|v.frames|);
      AlignedRead(v.conn.rest, off);
      if r.code == FRAME_SIZE {
        FrameTracked(v, r.got, r.rest);
      } else if r.code == 0 {
        assert r.got + Until(r.rest) == Until(r.rest);
        PauseTracked(v, r.rest);
      }
    }
  }

  /** Registering the id that was read. */
  lemma ClaimRegisters(v: View, b: Bytes)
    requires StreamOk(v) && !v.ended && v.id == NONE && v.claim == Some(b)
    ensures StreamOk(v.(id := if M.IdOf(b) < MAX_CLIENTS_COUNT then M.IdOf(b) else NONE, claim := None))
  {
    hide M.IdOf, Aligned, Until;
    var whole := Until(v.conn.whole);
    if WellFormed(v.conn.whole) {
      assert whole[..ID_SIZE] == b;
      assert whole == b + [] + Until(v.conn.rest);
    }
  }

  // ---------------------------------------------------------------- what a step does to a view

  lemma MarkAfterMove(s: System, s': System, t: nat, next: Pc, h: nat)
    requires LocksOk(s) && t < |s.workers| && s'.workers == s.workers[t := next]
    requires LockMove(s.locks, s'.locks, t, s.workers[t], next)
    ensures Held(s.workers[t]) == Some(h) ==>
      MarkOf(Holder(s, h)) == MarkOf(s.workers[t]) && MarkOf(Holder(s', h)) == MarkOf(next)
    ensures Held(s.workers[t]) != Some(h) && Held(next) == Some(h) ==>
      MarkOf(Holder(s, h)) == Mark(None, false) && MarkOf(Holder(s', h)) == MarkOf(next)
    ensures Held(s.workers[t]) != Some(h) && Held(next) != Some(h) ==>
      MarkOf(Holder(s', h)) == MarkOf(Holder(s, h))
  {
    HolderAfterMove(s, s', t, next, h);
    hide Holder, LocksOk;
  }

  /** The step moves one worker, may pass a mutex, and leaves streams and sockets alone; a session
      may be removed, by a reader that met the end of its connection at the latest now. */
  ghost predicate Aside(s: System, s': System, t: nat) {
    && t < |s.workers| == |s'.workers| && s'.workers == s.workers[t := s'.workers[t]]
    && LockMove(s.locks, s'.locks, t, s.workers[t], s'.workers[t])
    && MarkOf(s'.workers[t]) == Mark(None, false)
    && s'.reg.cells == s.reg.cells && s'.conns == s.conns && s'.open == s.open
    && s'.log.received == s.log.received
    && (forall k :: k in s'.reg.bySocket ==> k in s.reg.bySocket && s'.reg.bySocket[k] == s.reg.bySocket[k])
    && (s.workers[t].ReadRemove? ==> s.workers[t].sock !in s'.reg.bySocket)
  }

  /** Steps that neither read nor register leave every stream where it is; they may end one. */
  lemma QuietView(s: System, s': System, t: nat, h: nat)
    requires LocksOk(s) && Aside(s, s', t) && PcOk(s.reg, s.workers[t]) && !s.workers[t].ReadClaim?
    requires Connected(s, h)
    ensures Connected(s', h)
    ensures var v, v' := ViewOf(s, h), ViewOf(s', h);
      v' == v.(ended := v'.ended) && (v.ended ==> v'.ended)
  {
    MarkAfterMove(s, s', t, s'.workers[t], h);
    hide Holder, LocksOk, LockMove, ReadFrom;
    assert s'.reg.Live(h) ==> s.reg.Live(h);
  }

  lemma QuietKeepsStream(s: System, s': System, t: nat, h: nat)
    requires LocksOk(s) && Aside(s, s', t) && PcOk(s.reg, s.workers[t]) && !s.workers[t].ReadClaim?
    requires Connected(s, h) && StreamOk(ViewOf(s, h))
    ensures Connected(s', h) && StreamOk(ViewOf(s', h))
  {
    QuietView(s, s', t, h);
    hide ViewOf, StreamOk, Aside, LocksOk, PcOk;
    StreamEnds(ViewOf(s, h), ViewOf(s, h).conn.rest);
  }

  lemma RoutingAside(s: System, t: nat)
    requires CanWork(s, t) && Meaningful(s, s.workers[t])
    requires s.workers[t].ReadRoute? || s.workers[t].ReadForward?
    ensures Aside(s, ReaderStep(s, t), t)
  {
    hide M.DstOf;
  }

  lemma ReaderShape(s: System, t: nat)
    requires CanWork(s, t) && Meaningful(s, s.workers[t])
    requires !IsWriter(s.workers[t]) && !s.workers[t].ReadLoop? && !s.workers[t].ReadClaim?
    ensures Aside(s, ReaderStep(s, t), t)
  {
    if s.workers[t].ReadRoute? || s.workers[t].ReadForward? {
      RoutingAside(s, t);
    }
  }

  lemma WriterShape(s: System, t: nat, sendOk: bool)
    requires CanWork(s, t) && Meaningful(s, s.workers[t]) && IsWriter(s.workers[t])
    ensures Aside(s, WriterStep(s, t, sendOk), t)
  {
    hide EraseFirst, Subscript;
  }

  // ---------------------------------------------------------------- receiving

  /** The parts of `Receive`, named. */
  lemma ReceiveShape(s: System, t: nat, sock: int, h: nat, x: nat)
    requires t < |s.workers| && sock in s.conns && x < |s.reg.cells|
    ensures var want := if s.reg.cells[x].id != NONE then FRAME_SIZE else ID_SIZE;
      var r := ReadN(s.conns[sock].rest, want);
      var s' := Receive(s, t, sock, h, x);
      && s'.reg == s.reg && s'.locks == s.locks && s'.open == s.open
      && |s'.workers| == |s.workers| && s'.workers == s.workers[t := s'.workers[t]]
      && s'.conns == s.conns[sock := s.conns[sock].(rest := r.rest)]
      && Held(s'.workers[t]) == Some(h)
      && -1 <= r.code <= want && (r.code >= 0 ==> r.code == |r.got|)
      && (r.code != want ==>
            s'.log == s.log && MarkOf(s'.workers[t]) == Mark(None, r.code == SOCKET_ERROR))
      && (r.code == want == ID_SIZE ==> s'.log == s.log && MarkOf(s'.workers[t]) == Mark(Some(r.got), false))
      && (r.code == want == FRAME_SIZE ==>
            && s'.log.received == s.log.received + [Read(sock, r.got)]
            && MarkOf(s'.workers[t]) == Mark(None, false))
  {
    ReadNConsumes(s.conns[sock].rest, if s.reg.cells[x].id != NONE then FRAME_SIZE else ID_SIZE);
    hide ReadN;
  }

  /** The view of the session a reader serves, after its read. */
  lemma ReceiveOwnView(s: System, t: nat, sock: int, h: nat)
    requires LocksOk(s) && t < |s.workers| && s.workers[t] == ReadLoop(sock, h, h)
    requires Connected(s, h) && s.reg.cells[h].socket == sock && s.reg.Live(h)
    ensures var v, s' := ViewOf(s, h), Receive(s, t, sock, h, h);
      var want := if v.id != NONE then FRAME_SIZE else ID_SIZE;
      var r := ReadN(v.conn.rest, want);
      && v.claim.None? && !v.ended && Connected(s', h)
      && (r.code == want == FRAME_SIZE ==> |r.got| == FRAME_SIZE)
      && ViewOf(s', h) == View(v.conn.(rest := r.rest), v.id,
           if r.code == want == ID_SIZE then Some(r.got) else None,
           if r.code == want == FRAME_SIZE then v.frames + [r.got] else v.frames,
           r.code == SOCKET_ERROR)
  {
    hide ReadN, Receive, ReadFrom, Holder;
    ReceiveShape(s, t, sock, h, h);
    var s' := Receive(s, t, sock, h, h);
    MarkAfterMove(s, s', t, s'.workers[t], h);
    hide LocksOk, LockMove, MarkOf;
    var want := if s.reg.cells[h].id != NONE then FRAME_SIZE else ID_SIZE;
    var r := ReadN(s.conns[sock].rest, want);
    if r.code == want == FRAME_SIZE {
      OrderAppends(s.log, Read(sock, r.got), Routed(sock, r.got, None), sock);
    }
  }

  lemma ReceiveOtherView(s: System, t: nat, sock: int, g: nat, h: nat)
    requires LocksOk(s) && t < |s.workers| && s.workers[t] == ReadLoop(sock, g, g)
    requires Connected(s, g) && s.reg.cells[g].socket == sock
    requires Connected(s, h) && h != g && s.reg.cells[h].socket != sock
    ensures Connected(Receive(s, t, sock, g, g), h)
    ensures ViewOf(Receive(s, t, sock, g, g), h) == ViewOf(s, h)
  {
    hide ReadN, Receive, ReadFrom, Holder;
    ReceiveShape(s, t, sock, g, g);
    var s' := Receive(s, t, sock, g, g);
    MarkAfterMove(s, s', t, s'.workers[t], h);
    hide LocksOk, LockMove, MarkOf;
    var want := if s.reg.cells[g].id != NONE then FRAME_SIZE else ID_SIZE;
    var r := ReadN(s.conns[sock].rest, want);
    if r.code == want == FRAME_SIZE {
      OrderAppends(s.log, Read(sock, r.got), Routed(sock, r.got, None), s.reg.cells[h].socket);
    }
  }

  lemma ReceiveView(s: System, t: nat, h: nat)
    requires LocksOk(s) && CanWork(s, t) && Meaningful(s, s.workers[t]) && s.workers[t].ReadLoop?
    requires PcOk(s.reg, s.workers[t]) && Distinct(s.reg)
    requires Connected(s, h) && StreamOk(ViewOf(s, h))
    ensures Connected(ReaderStep(s, t), h) && StreamOk(ViewOf(ReaderStep(s, t), h))
  {
    var pc := s.workers[t];
    var s' := Receive(s, t, pc.sock, pc.h, pc.x);
    assert ReaderStep(s, t) == s';
    hide Receive, ReaderStep, ReadN, LocksOk, OnTrack, WellFormed, ViewOf;
    if h == pc.h {
      ReceiveOwnView(s, t, pc.sock, h);
      var v := ViewOf(s, h);
      if v.id == NONE {
        HandshakeRead(v, ReadN(v.conn.rest, ID_SIZE));
      } else {
        FrameRead(v, ReadN(v.conn.rest, FRAME_SIZE));
      }
    } else {
      ReceiveOtherView(s, t, pc.sock, pc.h, h);
    }
  }

  /** A session that is being registered has not ended; the views of the others stay. */
  lemma ClaimMovesOne(s: System, t: nat, h: nat)
    requires LocksOk(s) && CanWork(s, t) && Meaningful(s, s.workers[t]) && s.workers[t].ReadClaim?
    requires PcOk(s.reg, s.workers[t]) && Consistent(s.reg) && Connected(s, h)
    ensures Connected(ReaderStep(s, t), h)
    ensures var v, pc := ViewOf(s, h), s.workers[t];
      && (h == pc.h ==> !v.ended && v.id == NONE && v.claim == Some(pc.idBytes))
      && ViewOf(ReaderStep(s, t), h) ==
           if h != pc.h then v
           else v.(id := if M.IdOf(pc.idBytes) < MAX_CLIENTS_COUNT then M.IdOf(pc.idBytes) else NONE, claim := None)
  {
    var pc := s.workers[t];
    var s' := ReaderStep(s, t);
    FirstClaim(s.reg, pc.sock, M.IdOf(pc.idBytes));
    MarkAfterMove(s, s', t, ReadLoop(pc.sock, pc.h, pc.x), h);
    assert s'.reg.Live(h) == s.reg.Live(h);
    hide LocksOk, LockMove, Holder, ReadFrom, Consistent, AddNode, M.IdOf;
  }

  lemma ClaimView(s: System, t: nat, h: nat)
    requires LocksOk(s) && CanWork(s, t) && Meaningful(s, s.workers[t]) && s.workers[t].ReadClaim?
    requires PcOk(s.reg, s.workers[t]) && Consistent(s.reg)
    requires Connected(s, h) && StreamOk(ViewOf(s, h))
    ensures Connected(ReaderStep(s, t), h) && StreamOk(ViewOf(ReaderStep(s, t), h))
  {
    hide LocksOk, Consistent, ReaderStep, ViewOf, StreamOk, Connected, PcOk;
    ClaimMovesOne(s, t, h);
    if h == s.workers[t].h { ClaimRegisters(ViewOf(s, h), s.workers[t].idBytes); }
  }
}
