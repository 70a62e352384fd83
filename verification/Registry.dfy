/** The session registry as a value: every session ever created, and the three collections the
    router keeps about them. */
module Registry {

  const NONE := -1
  const MAX_CLIENTS_COUNT := 999

  /** A `Session`: its socket is fixed, its id is set later. */
  datatype Session = Session(socket: int, id: int)

  /** A `shared_ptr<Session>`. */
  datatype Ptr = Null | Ref(handle: nat)

  /** `cells` is the heap of sessions, addressed by handle; the other three are the fields of
      `Sessions`. An id slot may be null, because reading it with `operator[]` creates it. */
  datatype Registry = Registry(
    cells: seq<Session>,
    bySocket: map<int, nat>,
    byId: map<int, Ptr>,
    accepted: seq<int>)
  {
    predicate Typed() {
      && (forall s :: s in bySocket ==> bySocket[s] < |cells|)
      && (forall i :: i in byId && byId[i].Ref? ==> byId[i].handle < |cells|)
    }

    predicate Live(h: nat) {
      h < |cells| && cells[h].socket in bySocket && bySocket[cells[h].socket] == h
    }
  }

  const EMPTY := Registry([], map[], map[], [])

  predicate NoDuplicates(s: seq<int>) { forall i, j :: 0 <= i < j < |s| ==> s[i] != s[j] }

  /** `std::find` followed by `erase` of what it found. */
  function EraseFirst(s: seq<int>, x: int): seq<int> {
    if s == [] then [] else if s[0] == x then s[1..] else [s[0]] + EraseFirst(s[1..], x)
  }

  /** `operator[]` on the id map: an absent key is created with a null pointer. */
  function Subscript(m: map<int, Ptr>, i: int): map<int, Ptr> {
    if i in m then m else m[i := Null]
  }

  /** `accept_client` re-enters `removeSession`, and with it the mutex it already holds, when the
      socket has a session already: that call never returns. */
  datatype AcceptResult = Registered(registry: Registry) | SelfLocked

  function Accept(r: Registry, s: int): AcceptResult {
    var accepted := if s in r.accepted then r.accepted else r.accepted + [s];
    if s in r.bySocket then SelfLocked
    else Registered(r.(cells := r.cells + [Session(s, NONE)],
                       bySocket := r.bySocket[s := |r.cells|],
                       accepted := accepted))
  }

  predicate Accepts(r: Registry, s: int, id: int) { s in r.bySocket && id < MAX_CLIENTS_COUNT }

  function AddNode(r: Registry, s: int, id: int): Registry
    requires r.Typed()
  {
    if !Accepts(r, s, id) then r
    else
      var h := r.bySocket[s];
      r.(cells := r.cells[h := r.cells[h].(id := id)], byId := r.byId[id := Ref(h)])
  }

  function FindBySocket(r: Registry, s: int): Ptr {
    if s in r.bySocket then Ref(r.bySocket[s]) else Null
  }

  function FindById(r: Registry, id: int): Ptr {
    if id in r.byId then r.byId[id] else Null
  }

  function Remove(r: Registry, s: int): Registry
    requires r.Typed()
  {
    var accepted := EraseFirst(r.accepted, s);
    if s !in r.bySocket then r.(accepted := accepted)
    else
      var id := r.cells[r.bySocket[s]].id;
      r.(bySocket := r.bySocket - {s},
         byId := if id != NONE then Subscript(r.byId, id) - {id} else r.byId,
         accepted := accepted)
  }

  // ---------------------------------------------------------------- the three views agree

  /** Sockets are never closed once registered, so none of them comes back with a new session. */
  ghost predicate Distinct(r: Registry) {
    forall g, h :: 0 <= g < h < |r.cells| ==> r.cells[g].socket != r.cells[h].socket
  }

  ghost predicate AcceptedAgrees(r: Registry) {
    NoDuplicates(r.accepted) && (forall s :: s in r.accepted <==> s in r.bySocket)
  }

  ghost predicate SocketsAgree(r: Registry)
    requires r.Typed()
  {
    forall s :: s in r.bySocket ==> r.cells[r.bySocket[s]].socket == s
  }

  ghost predicate EntryOk(r: Registry, i: int) {
    i in r.byId && r.byId[i].Ref? &&
    (i != NONE ==> i < MAX_CLIENTS_COUNT && r.Live(r.byId[i].handle) && r.cells[r.byId[i].handle].id == i)
  }

  ghost predicate IdsAgree(r: Registry) { forall i :: i in r.byId ==> EntryOk(r, i) }

  ghost predicate Consistent(r: Registry) {
    && r.Typed() && Distinct(r) && AcceptedAgrees(r) && SocketsAgree(r)
    && IdsAgree(r)
    && forall h :: 0 <= h < |r.cells| ==> r.cells[h].id < MAX_CLIENTS_COUNT
  }

  predicate FreshSocket(r: Registry, s: int) {
    forall h :: 0 <= h < |r.cells| ==> r.cells[h].socket != s
  }

  lemma {:induction false} EraseFirstContents(s: seq<int>, x: int)
    requires NoDuplicates(s)
    ensures NoDuplicates(EraseFirst(s, x))
    ensures forall y :: y in EraseFirst(s, x) <==> y in s && y != x
  {
    if s != [] {
      var t := s[1..];
      assert forall y :: y in s <==> y == s[0] || y in t;
      if s[0] == x {
        assert x !in t;
      } else {
        EraseFirstContents(t, x);
        var e := EraseFirst(t, x);
        assert s[0] !in e;
      }
    }
  }

  /** A descriptor no session ever had is registered, without touching the self-locking branch. */
  lemma AcceptKeeps(r: Registry, s: int)
    requires Consistent(r) && FreshSocket(r, s)
    ensures Accept(r, s).Registered?
    ensures var q := Accept(r, s).registry;
      && Consistent(q) && q.Live(|r.cells|)
      && q.cells == r.cells + [Session(s, NONE)] && q.byId == r.byId
      && (forall h :: 0 <= h < |r.cells| ==> (q.Live(h) <==> r.Live(h)))
  {
    assert s !in r.bySocket;
    var q := Accept(r, s).registry;
    assert forall y :: y in q.accepted <==> y in r.accepted || y == s;
    forall i | i in q.byId ensures EntryOk(q, i) { assert EntryOk(r, i); }
  }

  /** Removal is total and complete: the socket leaves both views, its id leaves the index, no
      null slot is left behind, and everything else stays as it was. */
  lemma RemoveKeeps(r: Registry, s: int)
    requires Consistent(r)
    ensures var q := Remove(r, s);
      && Consistent(q) && q.cells == r.cells
      && s !in q.bySocket && s !in q.accepted
      && q.bySocket == r.bySocket - {s}
      && (forall h :: 0 <= h < |r.cells| ==> (q.Live(h) <==> r.Live(h) && r.cells[h].socket != s))
      && (forall i :: i in q.byId <==>
            i in r.byId && !(i != NONE && s in r.bySocket && r.cells[r.bySocket[s]].id == i))
      && (forall i :: i in q.byId ==> q.byId[i] == r.byId[i])
  {
    EraseFirstContents(r.accepted, s);
    var q := Remove(r, s);
    forall i | i in q.byId ensures EntryOk(q, i) {
      assert EntryOk(r, i);
    }
  }

  /** A claim keeps the views in agreement unless the session already answers for another id:
      then, and only then, the old entry goes stale. The router claims only for sessions
      without an id, so it is always on the good side of this condition. */
  lemma AddNodeKeeps(r: Registry, s: int, id: int)
    requires Consistent(r)
    ensures var q := AddNode(r, s, id);
      Consistent(q) <==>
        !(Accepts(r, s, id)
          && var h := r.bySocket[s];
             var was := r.cells[h].id;
             was != NONE && was != id && FindById(r, was) == Ref(h))
  {
    var q := AddNode(r, s, id);
    if Accepts(r, s, id) {
      var h := r.bySocket[s];
      var was := r.cells[h].id;
      assert forall g :: 0 <= g < |r.cells| ==> q.cells[g].socket == r.cells[g].socket;
      assert forall g :: 0 <= g < |r.cells| ==> (q.Live(g) <==> r.Live(g));
      if was != NONE && was != id && FindById(r, was) == Ref(h) {
        assert was in q.byId && !EntryOk(q, was);
      } else {
        forall i | i in q.byId ensures EntryOk(q, i) {
          if i != id {
            assert EntryOk(r, i);
          }
        }
      }
    }
  }

  /** What a claim by a session without an id changes, and what it does not. */
  lemma FirstClaim(r: Registry, s: int, id: int)
    requires Consistent(r) && s in r.bySocket && r.cells[r.bySocket[s]].id == NONE
    ensures var q := AddNode(r, s, id);
      && Consistent(q) && |q.cells| == |r.cells|
      && q.bySocket == r.bySocket && q.accepted == r.accepted
      && (forall g :: 0 <= g < |r.cells| ==>
            && q.cells[g].socket == r.cells[g].socket
            && (g != r.bySocket[s] ==> q.cells[g] == r.cells[g]))
      && q.cells[r.bySocket[s]].id == (if id < MAX_CLIENTS_COUNT then id else NONE)
      && (id < MAX_CLIENTS_COUNT ==> FindById(q, id) == Ref(r.bySocket[s]))
  {
    AddNodeKeeps(r, s, id);
  }
}
