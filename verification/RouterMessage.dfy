/** The router's view of a frame: two parsers over a NUL-terminated receive buffer. */
module RouterMessage {
  import opened Text

  const ID_MESSAGE_SIZE := 3
  const DATA_MESSAGE_SIZE := 32
  const NO_ID := -1

  /** `catch (const std::invalid_argument&)` and nothing else: `out_of_range` would escape. */
  datatype Extracted = Id(id: int) | Uncaught

  function Catch(p: Parsed): Extracted {
    match p
    case Number(v) => Id(v)
    case InvalidArgument => Id(NO_ID)
    case OutOfRange => Uncaught
  }

  function ExtractSrcId(buffer: Bytes, len: int): Extracted {
    if len < ID_MESSAGE_SIZE then Id(NO_ID) else Catch(Stoi(CString(buffer)))
  }

  function ExtractDstId(buffer: Bytes, len: int): Extracted
    requires len >= DATA_MESSAGE_SIZE ==> |buffer| >= DATA_MESSAGE_SIZE
  {
    if len < DATA_MESSAGE_SIZE then Id(NO_ID) else Catch(Stoi(CString(buffer[29..])))
  }

  /** The destination field of a frame. */
  function DstField(frame: Bytes): (r: Bytes)
    requires |frame| == DATA_MESSAGE_SIZE
    ensures |r| == 3
  {
    frame[29..]
  }

  /** The id a three-byte slice denotes for the router, `NO_ID` when it denotes none. */
  function IdOf(field: Bytes): int {
    match Stoi(field)
    case Number(v) => v
    case InvalidArgument => NO_ID
    case OutOfRange => NO_ID
  }

  /** The destination the router reads out of a frame. */
  function DstOf(frame: Bytes): int
    requires |frame| == DATA_MESSAGE_SIZE
  {
    IdOf(DstField(frame))
  }

  /** Router and node parse the same three bytes: on every frame, behind whatever the buffer
      held before, the terminated parse is the parse of the slice, and never escapes. */
  lemma DstParseIsSliceParse(frame: Bytes, stale: Bytes)
    requires |frame| == DATA_MESSAGE_SIZE
    ensures ExtractDstId(frame + [NUL] + stale, DATA_MESSAGE_SIZE) == Id(DstOf(frame))
    ensures forall v :: Stoi(DstField(frame)) == Number(v) ==> DstOf(frame) == v
    ensures Stoi(DstField(frame)).InvalidArgument? ==> DstOf(frame) == NO_ID
  {
    var field := DstField(frame);
    assert (frame + [NUL] + stale)[29..] == field + [NUL] + stale;
    CStringOfTerminated(field, stale);
    StoiOfCString(field);
    StoiShort(field);
  }

  /** The same for the three bytes of the id message. */
  lemma SrcParseIsSliceParse(field: Bytes, stale: Bytes)
    requires |field| == ID_MESSAGE_SIZE
    ensures ExtractSrcId(field + [NUL] + stale, ID_MESSAGE_SIZE) == Id(IdOf(field))
    ensures -100 < IdOf(field) < 1000
  {
    CStringOfTerminated(field, stale);
    StoiOfCString(field);
    StoiShort(field);
    Pow10Small();
  }

  /** What a parse of a received buffer gives, for messages of every length: -1 when the message is
      too short, or the text behind the field's offset is no number; otherwise that number; and the
      exception gets out exactly when the number fits no `int`. What the buffer held before never
      matters. */
  lemma ExtractExactly(got: Bytes, stale: Bytes)
    ensures var parsed := if |got| < 3 then InvalidArgument else Stoi(got);
      ExtractSrcId(got + [NUL] + stale, |got|) ==
        match parsed
        case Number(v) => Id(v)
        case InvalidArgument => Id(-1)
        case OutOfRange => Uncaught
    ensures var parsed := if |got| < 32 then InvalidArgument else Stoi(got[29..]);
      ExtractDstId(got + [NUL] + stale, |got|) ==
        match parsed
        case Number(v) => Id(v)
        case InvalidArgument => Id(-1)
        case OutOfRange => Uncaught
  {
    hide Stoi, CString;
    CStringOfTerminated(got, stale);
    StoiOfCString(got);
    if |got| >= 32 {
      assert (got + [NUL] + stale)[29..] == got[29..] + [NUL] + stale;
      CStringOfTerminated(got[29..], stale);
      StoiOfCString(got[29..]);
    }
  }
}
