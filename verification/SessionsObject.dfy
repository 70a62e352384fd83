/** The registry in the source's own form: `Session` objects and the static fields of
    `Sessions`, updated in place. Each method is tied to the value model of the registry. */
module SessionsObject {
  import R = Registry

  class Session {
    const socket: int
    var id: int
    /** Position of this object in the allocation order of its registry. */
    ghost const handle: nat

    constructor (socket: int, ghost handle: nat)
      ensures this.socket == socket && this.id == R.NONE && this.handle == handle
    {
      this.socket := socket;
      this.id := R.NONE;
      this.handle := handle;
    }

    method SetId(id: int)
      modifies this
      ensures this.id == id
    {
      this.id := id;
    }
  }

  class Sessions {
    var sessionsBySocket: map<int, Session>
    var sessionsById: map<int, Session?>
    var acceptedClients: seq<int>
    /** Every session ever created, in order. */
    ghost var all: seq<Session>

    ghost predicate Known(o: Session)
      reads this
    {
      o.handle < |all| && all[o.handle] == o
    }

    ghost predicate Valid()
      reads this
    {
      && (forall i :: 0 <= i < |all| ==> all[i].handle == i)
      && (forall s :: s in sessionsBySocket ==> Known(sessionsBySocket[s]))
      && (forall i :: i in sessionsById && sessionsById[i] != null ==> Known(sessionsById[i]))
    }

    ghost function PtrOf(o: Session?): R.Ptr
    {
      if o == null then R.Null else R.Ref(o.handle)
    }

    ghost function Cells(): (c: seq<R.Session>)
      reads this`all, all
      ensures |c| == |all|
      ensures forall i :: 0 <= i < |all| ==> c[i] == R.Session(all[i].socket, all[i].id)
    {
      var a := all;
      seq(|a|, i requires 0 <= i < |a| reads a => R.Session(a[i].socket, a[i].id))
    }

    ghost function BySocket(): map<int, nat>
      reads this`sessionsBySocket
    {
      map s | s in sessionsBySocket :: sessionsBySocket[s].handle
    }

    ghost function ById(): map<int, R.Ptr>
      reads this`sessionsById
    {
      map i | i in sessionsById :: PtrOf(sessionsById[i])
    }

    /** The abstract registry this object stands for. */
    ghost function View(): (r: R.Registry)
      reads this, all
      requires Valid()
      ensures r.Typed() && |r.cells| == |all|
    {
      R.Registry(Cells(), BySocket(), ById(), acceptedClients)
    }

    constructor ()
      ensures Valid() && View() == R.EMPTY
    {
      sessionsBySocket, sessionsById, acceptedClients, all := map[], map[], [], [];
    }

    /** `accept_client`. `stuck` stands for the call that waits for its own mutex. */
    method AcceptClient(clientSocket: int) returns (stuck: bool)
      requires Valid()
      modifies this
      ensures Valid()
      ensures stuck <==> R.Accept(old(View()), clientSocket).SelfLocked?
      ensures !stuck ==> R.Registered(View()) == R.Accept(old(View()), clientSocket)
      ensures !stuck ==> |all| == |old(all)| + 1 && all[..|old(all)|] == old(all) && fresh(all[|old(all)|])
      ensures stuck ==> all == old(all)
    {
      hide Cells, ById;
      ghost var before := View();
      if clientSocket !in acceptedClients {
        acceptedClients := acceptedClients + [clientSocket];
      }
      if clientSocket in sessionsBySocket {
        return true;
      }
      var session := new Session(clientSocket, |all|);
      all := all + [session];
      sessionsBySocket := sessionsBySocket[clientSocket := session];
      stuck := false;
      assert Cells() == before.cells + [R.Session(clientSocket, R.NONE)];
      assert BySocket() == before.bySocket[clientSocket := |before.cells|];
    }

    /** `add_node`. */
    method AddNode(clientSocket: int, nodeId: int)
      requires Valid()
      modifies this, all
      ensures Valid() && all == old(all)
      ensures View() == R.AddNode(old(View()), clientSocket, nodeId)
    {
      hide Cells;
      if clientSocket !in sessionsBySocket { return; }
      if nodeId >= R.MAX_CLIENTS_COUNT { return; }
      var session := sessionsBySocket[clientSocket];
      ghost var before := View();
      session.SetId(nodeId);
      sessionsById := sessionsById[nodeId := session];
      assert Cells() == before.cells[session.handle := before.cells[session.handle].(id := nodeId)];
      assert ById() == before.byId[nodeId := R.Ref(session.handle)];
    }

    /** `find_session_by_socket`. */
    method FindSessionBySocket(clientSocket: int) returns (session: Session?)
      requires Valid()
      ensures PtrOf(session) == R.FindBySocket(View(), clientSocket)
      ensures session != null ==> Known(session)
    {
      if clientSocket !in sessionsBySocket { return null; }
      session := sessionsBySocket[clientSocket];
    }

    /** `find_session_by_id`. */
    method FindSessionById(nodeId: int) returns (session: Session?)
      requires Valid()
      ensures PtrOf(session) == R.FindById(View(), nodeId)
      ensures session != null ==> Known(session)
    {
      if nodeId !in sessionsById { return null; }
      session := sessionsById[nodeId];
    }

    /** `removeSession`, with the `operator[]` read that may create a null slot. */
    method RemoveSession(socket: int)
      requires Valid()
      modifies this
      ensures Valid() && all == old(all)
      ensures View() == R.Remove(old(View()), socket)
    {
      hide Cells, ById;
      ghost var before := View();
      if socket in sessionsBySocket {
        var session := sessionsBySocket[socket];
        sessionsBySocket := sessionsBySocket - {socket};
        assert BySocket() == before.bySocket - {socket};
        var id := session.id;
        if id != R.NONE {
          EraseId(id);
        }
      }
      acceptedClients := R.EraseFirst(acceptedClients, socket);
    }

    /** The read of an id slot, which creates the slot if need be, and its erasure. */
    method EraseId(id: int)
      requires Valid()
      modifies this`sessionsById
      ensures Valid()
      ensures View() == old(View()).(byId := R.Subscript(old(View()).byId, id) - {id})
    {
      hide Cells, BySocket;
      ghost var before := View();
      if id !in sessionsById {
        sessionsById := sessionsById[id := null];
      }
      sessionsById := sessionsById - {id};
      assert ById() == R.Subscript(before.byId, id) - {id};
    }
  }
}
