/** The id index against its history: what `sessions_by_id_` holds is determined by the claims
    and removals that happened, and by nothing else. */
module RegistryLog {
  import opened Registry

  /** The calls that change the registry. */
  datatype Op = AcceptClient(socket: int) | Claim(socket: int, id: int) | RemoveSession(socket: int)

  /** `accept_client` of a registered socket does not return, so no run goes through it. */
  predicate Returns(r: Registry, op: Op) {
    op.AcceptClient? ==> op.socket !in r.bySocket
  }

  function Apply(r: Registry, op: Op): (q: Registry)
    requires r.Typed() && Returns(r, op)
    ensures q.Typed()
  {
    match op
    case AcceptClient(s) => Accept(r, s).registry
    case Claim(s, id) => AddNode(r, s, id)
    case RemoveSession(s) => Remove(r, s)
  }

  ghost predicate ValidRun(r: Registry, ops: seq<Op>)
    requires r.Typed()
    decreases |ops|
  {
    ops == [] || (Returns(r, ops[0]) && ValidRun(Apply(r, ops[0]), ops[1..]))
  }

  ghost function Run(r: Registry, ops: seq<Op>): (q: Registry)
    requires r.Typed() && ValidRun(r, ops)
    ensures q.Typed()
    decreases |ops|
  {
    if ops == [] then r else Run(Apply(r, ops[0]), ops[1..])
  }

  // ---------------------------------------------------------------- the log

  /** A session took an id, or a session that held one went away. */
  datatype Entry = Took(id: int, handle: nat) | Left(id: int)

  function EntryOf(r: Registry, op: Op): seq<Entry>
    requires r.Typed()
  {
    match op
    case AcceptClient(_) => []
    case Claim(s, id) => if Accepts(r, s, id) then [Took(id, r.bySocket[s])] else []
    case RemoveSession(s) =>
      if s in r.bySocket && r.cells[r.bySocket[s]].id != NONE then [Left(r.cells[r.bySocket[s]].id)]
      else []
  }

  ghost function LogOf(r: Registry, ops: seq<Op>): seq<Entry>
    requires r.Typed() && ValidRun(r, ops)
    decreases |ops|
  {
    if ops == [] then [] else EntryOf(r, ops[0]) + LogOf(Apply(r, ops[0]), ops[1..])
  }

  /** The simple account of an id: its last entry decides. */
  function Holder(log: seq<Entry>, id: int): Ptr {
    if log == [] then Null
    else
      var last := log[|log| - 1];
      if last.id != id then Holder(log[..|log| - 1], id)
      else if last.Took? then Ref(last.handle) else Null
  }

  ghost predicate Explains(log: seq<Entry>, r: Registry) {
    forall i :: (i in r.byId <==> Holder(log, i).Ref?) && FindById(r, i) == Holder(log, i)
  }

  lemma ApplyExtendsLog(log: seq<Entry>, r: Registry, op: Op)
    requires r.Typed() && Returns(r, op) && Explains(log, r)
    ensures Explains(log + EntryOf(r, op), Apply(r, op))
  {
    var e := EntryOf(r, op);
    var q := Apply(r, op);
    if e == [] {
      assert log + e == log;
      assert q.byId == r.byId;
    } else {
      assert (log + e)[..|log|] == log;
      forall i
        ensures (i in q.byId <==> Holder(log + e, i).Ref?) && FindById(q, i) == Holder(log + e, i)
      {
        assert FindById(r, i) == Holder(log, i);
      }
    }
  }

  lemma {:induction false} RunExtendsLog(log: seq<Entry>, r: Registry, ops: seq<Op>)
    requires r.Typed() && ValidRun(r, ops) && Explains(log, r)
    ensures Explains(log + LogOf(r, ops), Run(r, ops))
    decreases |ops|
  {
    hide Apply, EntryOf, Explains;
    if ops == [] {
      assert log + [] == log;
    } else {
      ApplyExtendsLog(log, r, ops[0]);
      var q, e := Apply(r, ops[0]), EntryOf(r, ops[0]);
      RunExtendsLog(log + e, q, ops[1..]);
      Regroup(log, e, LogOf(q, ops[1..]));
    }
  }

  lemma Regroup(a: seq<Entry>, b: seq<Entry>, c: seq<Entry>)
    ensures a + b + c == a + (b + c)
  {
  }

  /** After any calls whatever, an id is in the index exactly when the last entry about it is a
      claim, and then it leads to that claimant. */
  lemma IndexIsItsLog(ops: seq<Op>, id: int)
    requires ValidRun(EMPTY, ops)
    ensures FindById(Run(EMPTY, ops), id) == Holder(LogOf(EMPTY, ops), id)
    ensures id in Run(EMPTY, ops).byId <==> Holder(LogOf(EMPTY, ops), id).Ref?
  {
    RunExtendsLog([], EMPTY, ops);
    assert [] + LogOf(EMPTY, ops) == LogOf(EMPTY, ops);
  }

  // ---------------------------------------------------------------- when the index is exact

  /** At this id the index is the inverse of the ids of the live sessions. */
  ghost predicate ExactAt(r: Registry, id: int) {
    forall h: nat :: FindById(r, id) == Ref(h) <==> r.Live(h) && r.cells[h].id == id
  }

  /** The router's use of the registry: fresh descriptors, and claims by sessions with no id. */
  ghost predicate Disciplined(r: Registry, op: Op)
    requires r.Typed()
  {
    match op
    case AcceptClient(s) => FreshSocket(r, s)
    case Claim(s, _) => s in r.bySocket ==> r.cells[r.bySocket[s]].id == NONE
    case RemoveSession(_) => true
  }

  ghost predicate DisciplinedRun(r: Registry, ops: seq<Op>)
    requires r.Typed() && ValidRun(r, ops)
    decreases |ops|
  {
    ops == [] || (Disciplined(r, ops[0]) && DisciplinedRun(Apply(r, ops[0]), ops[1..]))
  }

  lemma OpKeepsConsistent(r: Registry, op: Op)
    requires Consistent(r) && Returns(r, op) && Disciplined(r, op)
    ensures Consistent(Apply(r, op))
  {
    match op
    case AcceptClient(s) => AcceptKeeps(r, s);
    case Claim(s, id) => AddNodeKeeps(r, s, id);
    case RemoveSession(s) => RemoveKeeps(r, s);
  }

  /** The registry invariant holds after every run of the router's calls. */
  lemma {:induction false} RunKeepsConsistent(r: Registry, ops: seq<Op>)
    requires Consistent(r) && ValidRun(r, ops) && DisciplinedRun(r, ops)
    ensures Consistent(Run(r, ops))
    decreases |ops|
  {
    if ops != [] {
      OpKeepsConsistent(r, ops[0]);
      RunKeepsConsistent(Apply(r, ops[0]), ops[1..]);
    }
  }

  /** Whether a call claims this id while some session is indexed under it: the source's
      warning branch. */
  predicate Contested(r: Registry, op: Op, id: int) {
    op.Claim? && op.id == id && Accepts(r, op.socket, op.id) && id in r.byId
  }

  /** One call leaves the index exact at an id if and only if it is not a contested claim of that
      very id; what happens to other ids does not matter. */
  lemma OpKeepsExact(r: Registry, op: Op, id: int)
    requires Consistent(r) && id != NONE && ExactAt(r, id) && Returns(r, op) && Disciplined(r, op)
    ensures ExactAt(Apply(r, op), id) <==> !Contested(r, op, id)
  {
    var q := Apply(r, op);
    match op
    case AcceptClient(s) =>
      AcceptKeeps(r, s);
      forall h: nat ensures FindById(q, id) == Ref(h) <==> q.Live(h) && q.cells[h].id == id {
        assert FindById(r, id) == Ref(h) <==> r.Live(h) && r.cells[h].id == id;
        assert h < |r.cells| ==> (q.Live(h) <==> r.Live(h));
      }
    case RemoveSession(s) =>
      RemoveKeeps(r, s);
      forall h: nat ensures FindById(q, id) == Ref(h) <==> q.Live(h) && q.cells[h].id == id {
        assert FindById(r, id) == Ref(h) <==> r.Live(h) && r.cells[h].id == id;
        if s in r.bySocket { assert r.Live(r.bySocket[s]); }
      }
    case Claim(s, i) =>
      if Accepts(r, s, i) {
        ClaimKeepsExact(r, s, i, id);
      }
  }

  lemma ClaimKeepsExact(r: Registry, s: int, i: int, id: int)
    requires Consistent(r) && id != NONE && ExactAt(r, id)
    requires Accepts(r, s, i) && r.cells[r.bySocket[s]].id == NONE
    ensures ExactAt(AddNode(r, s, i), id) <==> i != id || id !in r.byId
  {
    var q := AddNode(r, s, i);
    var h := r.bySocket[s];
    FirstClaim(r, s, i);
    if i == id && id in r.byId {
      assert EntryOk(r, id);
      var g := r.byId[id].handle;
      assert q.Live(g) && q.cells[g].id == id && FindById(q, id) == Ref(h) && g != h;
    } else {
      forall g: nat ensures FindById(q, id) == Ref(g) <==> q.Live(g) && q.cells[g].id == id {
        assert FindById(r, id) == Ref(g) <==> r.Live(g) && r.cells[g].id == id;
        assert q.Live(g) <==> r.Live(g);
      }
    }
  }

  ghost predicate Uncontested(r: Registry, ops: seq<Op>, id: int)
    requires r.Typed() && ValidRun(r, ops)
    decreases |ops|
  {
    ops == [] || (!Contested(r, ops[0], id) && Uncontested(Apply(r, ops[0]), ops[1..], id))
  }

  /** The index is exact at an id now and after every call of the run. */
  ghost predicate ExactThroughout(r: Registry, ops: seq<Op>, id: int)
    requires r.Typed() && ValidRun(r, ops)
    decreases |ops|
  {
    ExactAt(r, id) && (ops == [] || ExactThroughout(Apply(r, ops[0]), ops[1..], id))
  }

  /** The index is exact at an id throughout a run if and only if no claim of that id in it was
      contested. */
  lemma {:induction false} ExactIffUncontested(r: Registry, ops: seq<Op>, id: int)
    requires Consistent(r) && id != NONE && ExactAt(r, id) && ValidRun(r, ops) && DisciplinedRun(r, ops)
    ensures ExactThroughout(r, ops, id) <==> Uncontested(r, ops, id)
    ensures Uncontested(r, ops, id) ==> ExactAt(Run(r, ops), id)
    decreases |ops|
  {
    if ops != [] {
      OpKeepsConsistent(r, ops[0]);
      OpKeepsExact(r, ops[0], id);
      var q := Apply(r, ops[0]);
      hide Consistent, ExactAt, Contested, Disciplined, Apply;
      if ExactAt(q, id) {
        ExactIffUncontested(q, ops[1..], id);
      }
    }
  }

  // ---------------------------------------------------------------- the key that is no id

  /** Whether a session has claimed a real id since the last claim under -1. */
  predicate NamedSinceNone(log: seq<Entry>, h: nat) {
    log != [] &&
    var last := log[|log| - 1];
    if last.Took? && last.id == NONE then false
    else (last.Took? && last.handle == h) || NamedSinceNone(log[..|log| - 1], h)
  }

  /** Whether a session has ever claimed a real id. */
  predicate MadeRealClaim(log: seq<Entry>, h: nat) {
    exists k :: 0 <= k < |log| && log[k].Took? && log[k].handle == h && log[k].id != NONE
  }

  /** The session indexed under -1 has a real id if and only if it claimed one since. */
  ghost predicate NoneExplained(log: seq<Entry>, r: Registry) {
    var p := FindById(r, NONE);
    p.Ref? ==> p.handle < |r.cells| && (r.cells[p.handle].id != NONE <==> NamedSinceNone(log, p.handle))
  }

  ghost predicate NamesExplained(log: seq<Entry>, r: Registry) {
    forall h :: 0 <= h < |r.cells| ==> (r.cells[h].id != NONE <==> MadeRealClaim(log, h))
  }

  lemma RealClaimAppend(log: seq<Entry>, e: Entry, h: nat)
    ensures MadeRealClaim(log + [e], h) <==>
      MadeRealClaim(log, h) || (e.Took? && e.handle == h && e.id != NONE)
  {
    var all := log + [e];
    if MadeRealClaim(log, h) {
      var k :| 0 <= k < |log| && log[k].Took? && log[k].handle == h && log[k].id != NONE;
      assert all[k] == log[k];
    }
    if MadeRealClaim(all, h) {
      var k :| 0 <= k < |all| && all[k].Took? && all[k].handle == h && all[k].id != NONE;
      if k < |log| { assert log[k] == all[k]; }
    }
    if e.Took? && e.handle == h && e.id != NONE { assert all[|log|] == e; }
  }

  lemma ApplyExplainsNone(log: seq<Entry>, r: Registry, op: Op)
    requires r.Typed() && Returns(r, op) && NoneExplained(log, r)
    ensures NoneExplained(log + EntryOf(r, op), Apply(r, op))
  {
    var e := EntryOf(r, op);
    if e == [] {
      assert log + e == log;
    } else {
      assert (log + e)[..|log|] == log;
    }
  }

  lemma ApplyExplainsNames(log: seq<Entry>, r: Registry, op: Op)
    requires Consistent(r) && Returns(r, op) && Disciplined(r, op) && NamesExplained(log, r)
    requires forall k :: 0 <= k < |log| && log[k].Took? ==> log[k].handle < |r.cells|
    ensures NamesExplained(log + EntryOf(r, op), Apply(r, op))
  {
    var e := EntryOf(r, op);
    var q := Apply(r, op);
    if e == [] {
      assert log + e == log;
    }
    forall h | 0 <= h < |q.cells| ensures q.cells[h].id != NONE <==> MadeRealClaim(log + e, h) {
      if e != [] { RealClaimAppend(log, e[0], h); }
      if h < |r.cells| { assert r.cells[h].id != NONE <==> MadeRealClaim(log, h); }
    }
  }

  /** Both accounts hold after every run of the router's calls. */
  lemma {:induction false} RunExplainsNames(log: seq<Entry>, r: Registry, ops: seq<Op>)
    requires Consistent(r) && ValidRun(r, ops) && DisciplinedRun(r, ops)
    requires NoneExplained(log, r) && NamesExplained(log, r)
    requires forall k :: 0 <= k < |log| && log[k].Took? ==> log[k].handle < |r.cells|
    ensures NoneExplained(log + LogOf(r, ops), Run(r, ops))
    ensures NamesExplained(log + LogOf(r, ops), Run(r, ops))
    decreases |ops|
  {
    if ops == [] {
      assert log + [] == log;
    } else {
      OpKeepsConsistent(r, ops[0]);
      ApplyExplainsNone(log, r, ops[0]);
      ApplyExplainsNames(log, r, ops[0]);
      HandlesInRange(log, r, ops[0]);
      var q, e := Apply(r, ops[0]), EntryOf(r, ops[0]);
      hide Apply, EntryOf, NoneExplained, NamesExplained, Consistent, Disciplined;
      RunExplainsNames(log + e, q, ops[1..]);
      Regroup(log, e, LogOf(q, ops[1..]));
    }
  }

  lemma HandlesInRange(log: seq<Entry>, r: Registry, op: Op)
    requires r.Typed() && Returns(r, op)
    requires forall k :: 0 <= k < |log| && log[k].Took? ==> log[k].handle < |r.cells|
    ensures var all := log + EntryOf(r, op);
      forall k :: 0 <= k < |all| && all[k].Took? ==> all[k].handle < |Apply(r, op).cells|
  {
  }

  /** The failing side, for every registry: once two live sessions hold the same id, removing the
      one that is not indexed hides the other, although it is live and carries the id. */
  lemma RemovalHidesSuccessor(r: Registry, g: nat, h: nat)
    requires Consistent(r) && r.Live(g) && r.Live(h) && g != h
    requires r.cells[g].id == r.cells[h].id != NONE
    requires FindById(r, r.cells[h].id) == Ref(h)
    ensures var q := Remove(r, r.cells[g].socket);
      q.Live(h) && q.cells[h].id == r.cells[h].id && FindById(q, r.cells[h].id) == Null
  {
    RemoveKeeps(r, r.cells[g].socket);
  }

  /** Such registries arise: two connections announce the same id. */
  lemma DuplicateIdsArise(s: int, t: int, id: int)
    requires s != t && id < MAX_CLIENTS_COUNT && id != NONE
    ensures var ops := [AcceptClient(s), AcceptClient(t), Claim(s, id), Claim(t, id)];
      && ValidRun(EMPTY, ops) && DisciplinedRun(EMPTY, ops)
      && var r := Run(EMPTY, ops);
         && Consistent(r) && r.Live(0) && r.Live(1)
         && r.cells[0].id == id == r.cells[1].id && FindById(r, id) == Ref(1)
  {
    var r1 := Apply(EMPTY, AcceptClient(s));
    var r2 := Apply(r1, AcceptClient(t));
    var r3 := Apply(r2, Claim(s, id));
    var r4 := Apply(r3, Claim(t, id));
    var o4 := [Claim(t, id)];
    var o3 := [Claim(s, id)] + o4;
    var o2 := [AcceptClient(t)] + o3;
    var ops := [AcceptClient(s)] + o2;
    assert r2.cells == [Session(s, NONE), Session(t, NONE)];
    assert r3.cells == [Session(s, id), Session(t, NONE)];
    assert r4.cells == [Session(s, id), Session(t, id)];
    assert ValidRun(r4, []) && DisciplinedRun(r4, []) && Run(r4, []) == r4;
    assert o4[1..] == [] && o3[1..] == o4 && o2[1..] == o3 && ops[1..] == o2;
    assert ValidRun(r3, o4) && DisciplinedRun(r3, o4) && Run(r3, o4) == r4;
    assert ValidRun(r2, o3) && DisciplinedRun(r2, o3) && Run(r2, o3) == r4;
    assert ValidRun(r1, o2) && DisciplinedRun(r1, o2) && Run(r1, o2) == r4;
    assert ops == [AcceptClient(s), AcceptClient(t), Claim(s, id), Claim(t, id)];
    RunKeepsConsistent(EMPTY, ops);
  }

  /** The key -1 is not an id: a failed parse registers under it without naming the session, so
      the entry outlives both the session's real registration and its removal. This is why
      routing makes no promise for frames whose destination does not parse. */
  lemma NoneEntryGoesStale(r: Registry, s: int, id: int)
    requires Consistent(r) && s in r.bySocket && r.cells[r.bySocket[s]].id == NONE
    requires id < MAX_CLIENTS_COUNT && id != NONE
    ensures var h := r.bySocket[s];
      var named := AddNode(AddNode(r, s, NONE), s, id);
      && Consistent(named) && FindById(named, NONE) == Ref(h) && named.cells[h].id == id
      && var gone := Remove(named, s);
         Consistent(gone) && FindById(gone, NONE) == Ref(h) && !gone.Live(h) && FindById(gone, id) == Null
  {
    FirstClaim(r, s, NONE);
    var r1 := AddNode(r, s, NONE);
    FirstClaim(r1, s, id);
    RemoveKeeps(AddNode(r1, s, id), s);
  }
}
