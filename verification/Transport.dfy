/** The TCP layer the router reads through: what `recv` may do, and the `read_async` loop. */
module Transport {
  import opened Text
  import RouterMessage

  const SOCKET_ERROR := -1

  /** One outcome of `recv`: some bytes, nothing for now, end of stream, or an error. */
  datatype Outcome = Data(bytes: Bytes) | WouldBlock | Closed | Failed

  /** `recv` never returns an empty success: zero means that the peer has closed. */
  type Event = e: Outcome | e.Data? ==> e.bytes != [] witness WouldBlock

  /** Everything `recv` is going to report on one socket, in order. Any run of `recv` results is
      such a tape; past its end nothing has arrived yet. */
  type Tape = seq<Event>

  /** One `recv` of at most `want` bytes: data that does not fit stays queued. */
  function Take(tape: Tape, want: nat): (r: (Event, Tape))
    requires want > 0
  {
    if tape == [] then (WouldBlock, [])
    else if tape[0].Data? && |tape[0].bytes| > want then
      (Data(tape[0].bytes[..want]), [Data(tape[0].bytes[want..])] + tape[1..])
    else (tape[0], tape[1..])
  }

  /** All the bytes on a tape. */
  function Stream(tape: Tape): Bytes {
    if tape == [] then []
    else (if tape[0].Data? then tape[0].bytes else []) + Stream(tape[1..])
  }

  /** The bytes that arrive before the connection ends. */
  function Until(tape: Tape): Bytes {
    if tape == [] then []
    else match tape[0]
      case Data(b) => b + Until(tape[1..])
      case WouldBlock => Until(tape[1..])
      case Closed => []
      case Failed => []
  }

  /** The bytes that arrive before the first outcome that is not data. */
  function Available(tape: Tape): Bytes {
    if tape == [] || !tape[0].Data? then [] else tape[0].bytes + Available(tape[1..])
  }

  /** That first outcome that is not data, and what comes after it. */
  function Stop(tape: Tape): Event {
    if tape == [] then WouldBlock
    else if tape[0].Data? then Stop(tape[1..]) else tape[0]
  }

  function AfterStop(tape: Tape): Tape {
    if tape == [] then []
    else if tape[0].Data? then AfterStop(tape[1..]) else tape[1..]
  }

  /** What one call of `read_async` does: its result, the bytes it stored, the tape it left. */
  datatype ReadResult = ReadResult(code: int, got: Bytes, rest: Tape)

  /** `read_async`, one `recv` at a time. */
  function ReadN(tape: Tape, n: nat): ReadResult
    requires n > 0
  {
    var (e, rest) := Take(tape, n);
    match e
    case Data(b) =>
      if |b| < n then
        var more := ReadN(rest, n - |b|);
        ReadResult(if more.code < 0 then more.code else |b| + more.code, b + more.got, more.rest)
      else ReadResult(n, b, rest)
    case WouldBlock => ReadResult(0, [], rest)
    case Closed => ReadResult(SOCKET_ERROR, [], rest)
    case Failed => ReadResult(SOCKET_ERROR, [], rest)
  }

  // ---------------------------------------------------------------- what read_async achieves

  lemma {:induction false} TakeData(tape: Tape, want: nat)
    requires want > 0 && Take(tape, want).0.Data?
    ensures var (e, rest) := Take(tape, want);
      && 0 < |e.bytes| <= want
      && Available(tape) == e.bytes + Available(rest)
      && Stream(tape) == e.bytes + Stream(rest)
      && Until(tape) == e.bytes + Until(rest)
      && Stop(rest) == Stop(tape) && AfterStop(rest) == AfterStop(tape)
  {
    var b := tape[0].bytes;
    var (e, rest) := Take(tape, want);
    if |b| > want {
      assert rest[0] == Data(b[want..]) && rest[1..] == tape[1..];
      assert b == e.bytes + b[want..];
      assert b + Available(tape[1..]) == e.bytes + (b[want..] + Available(tape[1..]));
      assert b + Stream(tape[1..]) == e.bytes + (b[want..] + Stream(tape[1..]));
      assert b + Until(tape[1..]) == e.bytes + (b[want..] + Until(tape[1..]));
    }
  }

  /** Unfolding one turn of the loop. */
  lemma ReadNStep(tape: Tape, n: nat)
    requires n > 0
    ensures var (e, rest) := Take(tape, n);
      && (e.Data? ==> 0 < |e.bytes| <= n)
      && (e.Data? && |e.bytes| == n ==> ReadN(tape, n) == ReadResult(n, e.bytes, rest))
      && (e.Data? && |e.bytes| < n ==>
            var more := ReadN(rest, n - |e.bytes|);
            && ReadN(tape, n).got == e.bytes + more.got && ReadN(tape, n).rest == more.rest
            && ReadN(tape, n).code == (if more.code < 0 then more.code else |e.bytes| + more.code))
      && (e.WouldBlock? ==> ReadN(tape, n) == ReadResult(0, [], rest))
      && (e.Closed? || e.Failed? ==> ReadN(tape, n) == ReadResult(SOCKET_ERROR, [], rest))
  {
  }

  /** The splitting into `recv` chunks does not matter: the result is a function of the bytes
      available before the next gap and of the kind of that gap. Either all `n` bytes are there
      and exactly they are taken, or the call drains what is there and reports the gap. */
  lemma {:induction false} ReadNExactly(tape: Tape, n: nat)
    requires n > 0
    ensures var r := ReadN(tape, n);
      && (|Available(tape)| >= n ==>
            && r.code == n && r.got == Available(tape)[..n]
            && Available(r.rest) == Available(tape)[n..]
            && Stop(r.rest) == Stop(tape) && AfterStop(r.rest) == AfterStop(tape))
      && (|Available(tape)| < n ==>
            && r.got == Available(tape) && r.rest == AfterStop(tape)
            && r.code == (if Stop(tape) == WouldBlock then |r.got| else SOCKET_ERROR))
    decreases n
  {
    ReadNStep(tape, n);
    var (e, rest) := Take(tape, n);
    if e.Data? {
      TakeData(tape, n);
      hide ReadN, Take, Available, Stop, AfterStop;
      if |e.bytes| < n {
        ReadNExactly(rest, n - |e.bytes|);
      }
    }
  }

  /** Exactly when bytes are torn off, to be dropped by the callers: some but not all of the unit
      has arrived when the socket runs dry. */
  lemma PartialReadExactly(tape: Tape, n: nat)
    requires n > 0
    ensures 0 < ReadN(tape, n).code < n <==> 0 < |Available(tape)| < n && Stop(tape) == WouldBlock
  {
    ReadNExactly(tape, n);
    hide ReadN;
  }

  lemma TakeOther(tape: Tape, want: nat)
    requires want > 0 && !Take(tape, want).0.Data?
    ensures var (e, rest) := Take(tape, want);
      && Stream(tape) == Stream(rest)
      && Until(tape) == (if e.WouldBlock? then Until(rest) else [])
  {
  }

  lemma Concat3(a: Bytes, b: Bytes, c: Bytes)
    ensures a + (b + c) == (a + b) + c
  {
  }

  /** No byte is skipped or repeated: the bytes stored are the next ones of the stream, and a
      non-negative result counts them. */
  lemma {:induction false} ReadNConsumes(tape: Tape, n: nat)
    requires n > 0
    ensures var r := ReadN(tape, n);
      && Stream(tape) == r.got + Stream(r.rest)
      && |r.got| <= n
      && -1 <= r.code <= n
      && (r.code >= 0 ==> r.code == |r.got|)
    decreases n
  {
    hide ReadN, Take, Stream;
    ReadNStep(tape, n);
    var (e, rest) := Take(tape, n);
    if e.Data? {
      TakeData(tape, n);
      if |e.bytes| < n {
        ReadNConsumes(rest, n - |e.bytes|);
        var more := ReadN(rest, n - |e.bytes|);
        Concat3(e.bytes, more.got, Stream(more.rest));
      }
    } else {
      TakeOther(tape, n);
    }
  }

  /** The same up to the end of the connection; an error means that the end has been reached, and
      takes the beginning of a torn message with it. */
  lemma {:induction false} ReadNUntil(tape: Tape, n: nat)
    requires n > 0
    ensures var r := ReadN(tape, n);
      Until(tape) == r.got + (if r.code < 0 then [] else Until(r.rest))
    decreases n
  {
    hide ReadN, Take, Until;
    ReadNStep(tape, n);
    var (e, rest) := Take(tape, n);
    if e.Data? {
      TakeData(tape, n);
      if |e.bytes| < n {
        ReadNUntil(rest, n - |e.bytes|);
        var more := ReadN(rest, n - |e.bytes|);
        Concat3(e.bytes, more.got, if more.code < 0 then [] else Until(more.rest));
      }
    } else {
      TakeOther(tape, n);
    }
  }

  // ---------------------------------------------------------------- the loop itself

  /** A buffer after bytes have been stored at an offset. */
  function Overwrite(buffer: Bytes, offset: nat, b: Bytes): (r: Bytes)
    requires offset + |b| <= |buffer|
    ensures |r| == |buffer|
  {
    buffer[..offset] + b + buffer[offset + |b|..]
  }

  /** A connected socket, as far as reading goes. */
  class Connection {
    var tape: Tape

    constructor (tape: Tape)
      ensures this.tape == tape
    {
      this.tape := tape;
    }

    /** The contract of the system call: between one and `want` bytes, in stream order, stored
        at `offset`, or one of the three other outcomes. Asking for nothing is not allowed. */
    method Recv(buffer: array<Byte>, offset: nat, want: nat) returns (e: Event)
      requires want > 0 && offset + want <= buffer.Length
      modifies this, buffer
      ensures (e, tape) == Take(old(tape), want)
      ensures e.Data? ==> |e.bytes| <= want
      ensures buffer[..] == if e.Data? then Overwrite(old(buffer[..]), offset, e.bytes) else old(buffer[..])
    {
      var r := Take(tape, want);
      e, tape := r.0, r.1;
      if e.Data? {
        forall i | 0 <= i < |e.bytes| { buffer[offset + i] := e.bytes[i]; }
      }
    }
  }

  /** `TcpServer::read_async`. Nothing outside the bytes counted as received is written. */
  method ReadAsync(client: Connection, buffer: array<Byte>, bufferLen: nat) returns (code: int)
    requires 0 < bufferLen <= buffer.Length
    modifies client, buffer
    ensures var r := ReadN(old(client.tape), bufferLen);
      && code == r.code && client.tape == r.rest
      && |r.got| <= bufferLen
      && buffer[..] == r.got + old(buffer[..])[|r.got|..]
  {
    hide ReadN, Take, Extends, Stream, Stored, Overwrite;
    var totalRead := 0;
    ghost var was, sofar := buffer[..], [];
    ghost var goal := ReadN(client.tape, bufferLen);
    ReadNConsumes(client.tape, bufferLen);
    ExtendsStart(goal);
    StoredStart(was);
    while true
      invariant 0 <= totalRead < bufferLen && totalRead == |sofar|
      invariant Extends(goal, sofar, ReadN(client.tape, bufferLen - totalRead))
      invariant Stored(buffer[..], was, sofar)
      decreases bufferLen - totalRead
    {
      ghost var before, tapeBefore := buffer[..], client.tape;
      var e := client.Recv(buffer, totalRead, bufferLen - totalRead);
      ExtendsStep(goal, sofar, tapeBefore, bufferLen - totalRead);
      if e.Data? {
        StoredMore(before, buffer[..], was, sofar, e.bytes);
        totalRead, sofar := totalRead + |e.bytes|, sofar + e.bytes;
        if totalRead == bufferLen {
          StoredAll(buffer[..], was, goal.got);
          return totalRead;
        }
      } else {
        StoredAll(buffer[..], was, goal.got);
        return if e.WouldBlock? then totalRead else SOCKET_ERROR;
      }
    }
  }

  /** The buffer holds what has been read so far, and behind it what it held before. */
  ghost predicate Stored(now: Bytes, was: Bytes, sofar: Bytes) {
    |sofar| <= |was| && now == sofar + was[|sofar|..]
  }

  lemma StoredStart(was: Bytes)
    ensures Stored(was, was, [])
  {
  }

  lemma StoredMore(before: Bytes, after: Bytes, was: Bytes, sofar: Bytes, b: Bytes)
    requires Stored(before, was, sofar) && |sofar| + |b| <= |before|
    requires after == Overwrite(before, |sofar|, b)
    ensures Stored(after, was, sofar + b)
  {
    assert before[..|sofar|] == sofar && before[|sofar| + |b|..] == was[|sofar| + |b|..];
  }

  lemma StoredAll(now: Bytes, was: Bytes, got: Bytes)
    requires Stored(now, was, got)
    ensures |got| <= |was| && now == got + was[|got|..]
  {
  }

  /** What has been read so far, continued by `r`, is the result of the whole call. */
  ghost predicate Extends(goal: ReadResult, sofar: Bytes, r: ReadResult) {
    && goal.rest == r.rest && goal.got == sofar + r.got
    && goal.code == (if r.code < 0 then r.code else |sofar| + r.code)
  }

  lemma ExtendsStart(goal: ReadResult)
    ensures Extends(goal, [], goal)
  {
    assert [] + goal.got == goal.got;
  }

  lemma ExtendsStep(goal: ReadResult, sofar: Bytes, tape: Tape, n: nat)
    requires n > 0 && Extends(goal, sofar, ReadN(tape, n))
    ensures var (e, rest) := Take(tape, n);
      && (e.Data? ==> 0 < |e.bytes| <= n)
      && (e.Data? && |e.bytes| < n ==> Extends(goal, sofar + e.bytes, ReadN(rest, n - |e.bytes|)))
      && (e.Data? && |e.bytes| == n ==> goal == ReadResult(|sofar| + n, sofar + e.bytes, rest))
      && (!e.Data? ==> goal == ReadResult(if e.WouldBlock? then |sofar| else SOCKET_ERROR, sofar, rest))
  {
    ReadNStep(tape, n);
    hide ReadN, Take;
    var (e, rest) := Take(tape, n);
    if e.Data? && |e.bytes| < n {
      var more := ReadN(rest, n - |e.bytes|);
      assert sofar + (e.bytes + more.got) == (sofar + e.bytes) + more.got;
    }
  }

  /** `send_to_client`: `send` reports how many bytes went out; anything short of the whole
      message is an error. */
  function SendToClient(size: nat, bytesSent: int): (r: int)
    ensures r == size || r == SOCKET_ERROR
    ensures r == size <==> bytesSent == size
  {
    if bytesSent != size then SOCKET_ERROR else bytesSent
  }

  /** `reset_fd_set`: the monitored set is the server socket and every accepted client, and the
      returned bound is its largest member. */
  method ResetFdSet(serverSocket: int, clients: seq<int>) returns (fd: set<int>, maxSd: int)
    ensures fd == {serverSocket} + (set s | s in clients)
    ensures maxSd in fd && forall s :: s in fd ==> s <= maxSd
  {
    fd, maxSd := {serverSocket}, serverSocket;
    for i := 0 to |clients|
      invariant fd == {serverSocket} + (set s | s in clients[..i])
      invariant maxSd in fd && forall s :: s in fd ==> s <= maxSd
    {
      var sd := clients[i];
      assert clients[..i + 1] == clients[..i] + [sd];
      fd := fd + {sd};
      if sd > maxSd { maxSd := sd; }
    }
    assert clients[..|clients|] == clients;
  }

  // ---------------------------------------------------------------- frame boundaries

  const ID_SIZE := RouterMessage.ID_MESSAGE_SIZE
  const FRAME_SIZE := RouterMessage.DATA_MESSAGE_SIZE

  /** Offsets of a stream at which the router starts a read: 0, 3, 35, 67, ... */
  predicate Boundary(off: nat) {
    off == 0 || (off >= ID_SIZE && (off - ID_SIZE) % FRAME_SIZE == 0)
  }

  /** How many bytes the router asks for at a boundary. */
  function Demand(off: nat): nat { if off == 0 then ID_SIZE else FRAME_SIZE }

  /** From offset `off` on, the connection pauses at boundaries only, until it ends. It may end
      anywhere. */
  predicate Aligned(tape: Tape, off: nat) {
    if tape == [] then Boundary(off)
    else match tape[0]
      case Data(b) => Aligned(tape[1..], off + |b|)
      case WouldBlock => Boundary(off) && Aligned(tape[1..], off)
      case Closed => true
      case Failed => true
  }

  lemma AlignedAfterTake(tape: Tape, want: nat, off: nat)
    requires want > 0 && Aligned(tape, off)
    ensures var (e, rest) := Take(tape, want);
      && (e.Data? ==> |e.bytes| <= want && Aligned(rest, off + |e.bytes|))
      && (e.WouldBlock? ==> Boundary(off) && Aligned(rest, off))
  {
  }

  /** Inside a message an aligned tape never pauses. */
  lemma {:induction false} AlignedReadInside(tape: Tape, n: nat, off: nat)
    requires 0 < n && Aligned(tape, off) && Boundary(off + n)
    requires forall k :: off <= k < off + n ==> !Boundary(k)
    ensures var r := ReadN(tape, n);
      r.code == SOCKET_ERROR || (r.code == n && Aligned(r.rest, off + n))
    decreases n
  {
    AlignedAfterTake(tape, n, off);
    ReadNStep(tape, n);
    assert !Boundary(off);
    var (e, rest) := Take(tape, n);
    hide ReadN, Take, Aligned;
    if e.Data? && |e.bytes| < n {
      AlignedReadInside(rest, n - |e.bytes|, off + |e.bytes|);
    }
  }

  lemma NextBoundary(off: nat)
    requires Boundary(off)
    ensures Boundary(off + Demand(off))
    ensures forall k :: off < k < off + Demand(off) ==> !Boundary(k)
  {
    var q := if off == 0 then 0 else off - ID_SIZE;
    forall k | off < k < off + Demand(off) ensures !Boundary(k) {
      if off > 0 { assert (k - ID_SIZE) % FRAME_SIZE == k - off; }
    }
  }

  /** At a boundary a read takes a whole unit or nothing, and leaves the tape aligned, or it meets
      the end of the connection. */
  lemma AlignedRead(tape: Tape, off: nat)
    requires Aligned(tape, off) && Boundary(off)
    ensures var r := ReadN(tape, Demand(off));
      || (r.code == Demand(off) && Aligned(r.rest, off + Demand(off)))
      || (r.code == 0 && r.got == [] && Aligned(r.rest, off))
      || r.code == SOCKET_ERROR
  {
    hide ReadN, Take, Aligned;
    var n := Demand(off);
    NextBoundary(off);
    AlignedAfterTake(tape, n, off);
    ReadNStep(tape, n);
    var (e, rest) := Take(tape, n);
    if e.Data? && |e.bytes| < n {
      AlignedReadInside(rest, n - |e.bytes|, off + |e.bytes|);
    }
  }
}
