/** The node's side of the wire format: building the first messages and answering a frame. */
module NodeMessage {
  import opened Text
  import RouterMessage

  const MSG_LEN := 32

  /** C++ `%` truncates toward zero. */
  function TruncatedRemainder(a: int, b: int): int
    requires b > 0
  {
    if a >= 0 then a % b else -((-a) % b)
  }

  /** A returned string (empty when the frame is ignored), or the exception of an
      unguarded `std::stoi`. */
  datatype Response = Returns(text: Bytes) | Throws

  function Src(m: Bytes): Bytes requires |m| == MSG_LEN { m[..3] }
  function Mti(m: Bytes): Bytes requires |m| == MSG_LEN { m[3..7] }
  function Trace(m: Bytes): Bytes requires |m| == MSG_LEN { m[7..13] }
  function Pan(m: Bytes): Bytes requires |m| == MSG_LEN { m[13..29] }
  function Dst(m: Bytes): Bytes requires |m| == MSG_LEN { m[29..] }

  function NextMti(mti: int): Bytes {
    Padded(TruncatedRemainder(mti + 10, 10000), 4)
  }

  function ProcessMessage(currentNodeId: int, message: Bytes): Response {
    if |message| != MSG_LEN then Returns([])
    else
      var dst := Stoi(Dst(message));
      if !dst.Number? then Throws
      else if dst.value != currentNodeId then Returns([])
      else
        var mti := Stoi(Mti(message));
        if !mti.Number? then Throws
        else
          Returns(Dst(message) + NextMti(mti.value) + Trace(message) + Pan(message) + Src(message))
  }

  const FIRST_MTI: Bytes := [50, 50, 48, 48]
  const FIRST_TRACE: Bytes := [49, 50, 51, 52, 53, 54]
  const FIRST_PAN: Bytes := [49, 49, 49, 49, 49, 49, 49, 49, 49, 49, 49, 49, 49, 49, 49, 49]

  function BuildFirstMessage(srcNodeId: int, dstNodeId: int): Bytes {
    Padded(srcNodeId, 3) + FIRST_MTI + FIRST_TRACE + FIRST_PAN + Padded(dstNodeId, 3)
  }

  function BuildIdMessage(currentNodeId: int): Bytes {
    Padded(currentNodeId, 3)
  }

  // ---------------------------------------------------------------- one reply

  lemma DecimalShort(n: nat)
    requires n < 1000
    ensures |Decimal(n)| <= 3
  {
    Pow10Small();
    PaddedIsFixed(n, 3);
  }

  /** Four characters parse to a number in (-1000, 10000); ten more, reduced by the truncating
      remainder, still prints in four characters, sign included. */
  lemma NextMtiFits(s: Bytes)
    requires |s| == 4 && Stoi(s).Number?
    ensures |NextMti(Stoi(s).value)| == 4
  {
    StoiShort(s);
    Pow10Small();
    var v := Stoi(s).value;
    hide Stoi, Padded, Fixed;
    NextMtiRange(v);
    var n := TruncatedRemainder(v + 10, 10000);
    hide TruncatedRemainder;
    if n < 0 {
      DecimalShort(-n);
      PaddedNegative(n);
    } else {
      PaddedIsFixed(n, 4);
    }
  }

  lemma NextMtiRange(v: int)
    requires -1000 < v < 10000
    ensures -1000 < TruncatedRemainder(v + 10, 10000) < 10000
  {
  }

  lemma PaddedNegative(n: int)
    requires n < 0 && |Decimal(-n)| <= 3
    ensures |Padded(n, 4)| == 4
  {
  }

  /** Exactly which frames are answered, by whom, and that every answer is a whole frame
      with the addresses swapped and the payload kept. */
  lemma ReplyExactly(id: int, m: Bytes)
    ensures (exists r :: ProcessMessage(id, m) == Returns(r) && r != [])
       <==> |m| == MSG_LEN && Stoi(Dst(m)) == Number(id) && Stoi(Mti(m)).Number?
    ensures forall r :: ProcessMessage(id, m) == Returns(r) && r != [] ==>
      && |r| == MSG_LEN
      && Src(r) == Dst(m) && Dst(r) == Src(m)
      && Trace(r) == Trace(m) && Pan(r) == Pan(m)
      && Mti(r) == NextMti(Stoi(Mti(m)).value)
    ensures ProcessMessage(id, m).Throws? <==>
      && |m| == MSG_LEN
      && (Stoi(Dst(m)).InvalidArgument?
          || (Stoi(Dst(m)) == Number(id) && Stoi(Mti(m)).InvalidArgument?))
  {
    if |m| == MSG_LEN {
      StoiShort(Dst(m));
      StoiShort(Mti(m));
      if Stoi(Dst(m)) == Number(id) && Stoi(Mti(m)).Number? {
        NextMtiFits(Mti(m));
        var r := ProcessMessage(id, m).text;
        assert ProcessMessage(id, m) == Returns(r) && r != [];
        assert Src(r) == Dst(m);
        assert Dst(r) == Src(m);
        assert Trace(r) == Trace(m);
        assert Pan(r) == Pan(m);
        assert Mti(r) == NextMti(Stoi(Mti(m)).value);
      }
    }
  }

  // ---------------------------------------------------------------- a whole conversation

  /** The `n`-th frame of a conversation opened by `m` between node `a`, who sent it, and node
      `b`, to whom it goes; empty once a node stops answering. */
  function Exchange(m: Bytes, a: int, b: int, n: nat): Bytes {
    if n == 0 then m
    else
      match ProcessMessage(if n % 2 == 1 then b else a, Exchange(m, a, b, n - 1))
      case Returns(r) => r
      case Throws => []
  }

  /** The MTI after `n` replies, one reply at a time. */
  function MtiAfter(v: nat, n: nat): (k: nat)
    requires v < 10000
    ensures k < 10000
  {
    if n == 0 then v else (MtiAfter(v, n - 1) + 10) % 10000
  }

  lemma {:induction false} MtiAfterClosed(v: nat, n: nat)
    requires v < 10000
    ensures MtiAfter(v, n) == (v + 10 * n) % 10000
  {
    if n > 0 {
      MtiAfterClosed(v, n - 1);
      AddTen(v + 10 * (n - 1));
    }
  }

  lemma AddTen(x: nat)
    ensures (x % 10000 + 10) % 10000 == (x + 10) % 10000
  {
    var q, r := x / 10000, x % 10000;
    assert x + 10 == 10000 * q + (r + 10);
    if r + 10 >= 10000 { assert x + 10 == 10000 * (q + 1) + (r + 10 - 10000); }
  }

  lemma MtiPeriod(v: nat, n: nat)
    requires v < 10000
    ensures (v + 10 * n) % 10000 == v <==> n % 1000 == 0
  {
  }

  /** One reply inside a conversation whose current MTI is the four digits of `k`. */
  lemma ReplyStep(id: int, e: Bytes, k: nat)
    requires |e| == MSG_LEN && k < 10000 && Mti(e) == Padded(k, 4) && Stoi(Dst(e)) == Number(id)
    ensures var p := ProcessMessage(id, e);
      && p.Returns? && |p.text| == MSG_LEN
      && Mti(p.text) == Padded((k + 10) % 10000, 4)
      && Src(p.text) == Dst(e) && Dst(p.text) == Src(e)
      && Trace(p.text) == Trace(e) && Pan(p.text) == Pan(e)
  {
    Pow10Small();
    PaddedRoundTrip(k, 4);
    ReplyExactly(id, e);
  }

  lemma {:induction false} ExchangeFields(m: Bytes, a: int, b: int, n: nat, v: nat)
    requires |m| == MSG_LEN && v < 10000 && Mti(m) == Padded(v, 4)
    requires Stoi(Src(m)) == Number(a) && Stoi(Dst(m)) == Number(b)
    ensures var e := Exchange(m, a, b, n);
      && |e| == MSG_LEN
      && Mti(e) == Padded(MtiAfter(v, n), 4)
      && Trace(e) == Trace(m) && Pan(e) == Pan(m)
      && Src(e) == (if n % 2 == 0 then Src(m) else Dst(m))
      && Dst(e) == (if n % 2 == 0 then Dst(m) else Src(m))
  {
    hide ProcessMessage, Stoi, Padded;
    if n > 0 {
      ExchangeFields(m, a, b, n - 1, v);
      ReplyStep(if n % 2 == 1 then b else a, Exchange(m, a, b, n - 1), MtiAfter(v, n - 1));
    }
  }

  /** Replies never run dry: the MTI counts up by ten modulo 10000, the addresses alternate,
      the rest is carried along, and every frame is 32 bytes. */
  lemma ReplyIteration(m: Bytes, a: int, b: int, n: nat)
    requires |m| == MSG_LEN && AllDigits(Mti(m))
    requires Stoi(Src(m)) == Number(a) && Stoi(Dst(m)) == Number(b)
    ensures var e := Exchange(m, a, b, n);
      && |e| == MSG_LEN
      && Mti(e) == Padded((Value(Mti(m)) + 10 * n) % 10000, 4)
      && Trace(e) == Trace(m) && Pan(e) == Pan(m)
      && Src(e) == (if n % 2 == 0 then Src(m) else Dst(m))
      && Dst(e) == (if n % 2 == 0 then Dst(m) else Src(m))
  {
    hide ProcessMessage, Stoi, Padded;
    OpeningMti(m);
    ExchangeFields(m, a, b, n, Value(Mti(m)));
    MtiAfterClosed(Value(Mti(m)), n);
  }

  lemma OpeningMti(m: Bytes)
    requires |m| == MSG_LEN && AllDigits(Mti(m))
    ensures Value(Mti(m)) < 10000
    ensures Mti(m) == Padded(Value(Mti(m)), 4)
  {
    ValueBound(Mti(m));
    Pow10Small();
    DigitsRoundTrip(Mti(m));
  }

  lemma PaddedInjective(k: nat, v: nat)
    requires k < 10000 && v < 10000 && Padded(k, 4) == Padded(v, 4)
    ensures k == v
  {
    Pow10Small();
    PaddedRoundTrip(k, 4);
    PaddedRoundTrip(v, 4);
  }

  lemma FieldsDetermineFrame(x: Bytes, y: Bytes)
    requires |x| == MSG_LEN && |y| == MSG_LEN
    requires Src(x) == Src(y) && Mti(x) == Mti(y) && Trace(x) == Trace(y)
    requires Pan(x) == Pan(y) && Dst(x) == Dst(y)
    ensures x == y
  {
    assert x == Src(x) + Mti(x) + Trace(x) + Pan(x) + Dst(x);
    assert y == Src(y) + Mti(y) + Trace(y) + Pan(y) + Dst(y);
  }

  /** The opening frame comes back after a thousand replies, and at no other distance. */
  lemma ConversationPeriod(m: Bytes, a: int, b: int, n: nat)
    requires |m| == MSG_LEN && AllDigits(Mti(m))
    requires Stoi(Src(m)) == Number(a) && Stoi(Dst(m)) == Number(b)
    ensures Exchange(m, a, b, n) == m <==> n % 1000 == 0
  {
    hide ProcessMessage, Stoi, Padded;
    OpeningMti(m);
    var v := Value(Mti(m));
    ExchangeFields(m, a, b, n, v);
    MtiAfterClosed(v, n);
    MtiPeriod(v, n);
    if n % 1000 == 0 {
      FieldsDetermineFrame(Exchange(m, a, b, n), m);
    } else if Exchange(m, a, b, n) == m {
      PaddedInjective(MtiAfter(v, n), v);
    }
  }

  // ---------------------------------------------------------------- the numbers on the wire

  /** The number of decimal digits of a number below 1000. */
  function DigitCount(n: nat): (w: nat)
    ensures 1 <= w <= 3
  {
    if n < 10 then 1 else if n < 100 then 2 else 3
  }

  function ZeroFill(k: nat): Bytes { if k == 0 then [] else ZeroFill(k - 1) + [48] }

  /** The next MTI, digit by digit. From -10 on it is the last four digits of the sum. Below, the
      truncating remainder keeps the sign, and the fill goes in front of it: "-015" is answered
      with "00-5". */
  lemma NextMtiExactly(v: int)
    requires -1000 < v < 10000
    ensures v >= -10 ==> NextMti(v) == Fixed((v + 10) % 10000, 4)
    ensures v < -10 ==>
      var n := -v - 10;
      NextMti(v) == ZeroFill(3 - DigitCount(n)) + [45] + Fixed(n, DigitCount(n))
  {
    if v >= -10 {
      Pow10Small();
      PaddedIsFixed((v + 10) % 10000, 4);
      hide Padded, Fixed;
    } else {
      hide Padded, Fixed, ZeroFill, DigitCount;
      PaddedNegatives(-v - 10);
      assert TruncatedRemainder(v + 10, 10000) == 0 - (-v - 10);
    }
  }

  lemma PaddedNegatives(n: nat)
    requires 1 <= n < 1000
    ensures Padded(0 - n, 4) == ZeroFill(3 - DigitCount(n)) + [45] + Fixed(n, DigitCount(n))
  {
    var w := DigitCount(n);
    DecimalExactly(n);
    assert Show(0 - n) == [45] + Fixed(n, w);
    FillIsZeros(3 - w);
    hide Show, Decimal, Fixed, ZeroFill, DigitCount;
    if w < 3 {
      assert Padded(0 - n, 4) == Zeros(3 - w) + ([45] + Fixed(n, w));
    } else {
      assert Zeros(0) == [];
    }
    Grouped(ZeroFill(3 - w), [45], Fixed(n, w));
  }

  lemma {:induction false} FillIsZeros(k: nat)
    ensures Zeros(k) == ZeroFill(k)
  {
    if k > 0 { FillIsZeros(k - 1); }
  }

  lemma Grouped(a: Bytes, b: Bytes, c: Bytes)
    ensures a + (b + c) == a + b + c
  {
  }

  lemma DecimalExactly(n: nat)
    requires n < 1000
    ensures Decimal(n) == Fixed(n, DigitCount(n))
  {
    if n < 10 {
      assert Fixed(n, 1) == [] + [48 + n];
    } else {
      DecimalExactly(n / 10);
    }
  }

  /** The opening frame of a node, field by field: MTI 2200, TRACE 123456, PAN sixteen ones. */
  lemma FirstMessageExactly(src: int, dst: int)
    requires 0 <= src <= 999 && 0 <= dst <= 999
    ensures var m := BuildFirstMessage(src, dst);
      && |m| == MSG_LEN == 32
      && Src(m) == Fixed(src, 3) && Dst(m) == Fixed(dst, 3)
      && Mti(m) == Fixed(2200, 4) && Trace(m) == Fixed(123456, 6)
      && |Pan(m)| == 16 && forall i :: 0 <= i < 16 ==> Pan(m)[i] == 49
  {
    Pow10Small();
    hide Padded, Fixed;
    PaddedIsFixed(src, 3);
    PaddedIsFixed(dst, 3);
    PayloadDigits();
    FieldsOf(Fixed(src, 3), FIRST_MTI, FIRST_TRACE, FIRST_PAN, Fixed(dst, 3));
    hide Src, Mti, Trace, Pan, Dst;
  }

  lemma FieldsOf(src: Bytes, mti: Bytes, trace: Bytes, pan: Bytes, dst: Bytes)
    requires |src| == 3 && |mti| == 4 && |trace| == 6 && |pan| == 16 && |dst| == 3
    ensures var m := src + mti + trace + pan + dst;
      |m| == 32 && Src(m) == src && Mti(m) == mti && Trace(m) == trace && Pan(m) == pan && Dst(m) == dst
  {
    var m := src + mti + trace + pan + dst;
    assert Src(m) == src;
    assert Mti(m) == mti;
    assert Trace(m) == trace;
    assert Pan(m) == pan;
    assert Dst(m) == dst;
  }

  lemma PayloadDigits()
    ensures Fixed(2200, 4) == [50, 50, 48, 48] && Fixed(123456, 6) == [49, 50, 51, 52, 53, 54]
  {
    hide Fixed;
    FixedNothing();
    FixedDigit(0, 2, 0);
    FixedDigit(2, 2, 1);
    FixedDigit(22, 0, 2);
    FixedDigit(220, 0, 3);
    FixedDigit(0, 1, 0);
    FixedDigit(1, 2, 1);
    FixedDigit(12, 3, 2);
    FixedDigit(123, 4, 3);
    FixedDigit(1234, 5, 4);
    FixedDigit(12345, 6, 5);
  }

  lemma FixedNothing()
    ensures Fixed(0, 0) == []
  {
  }

  lemma FixedDigit(n: nat, d: nat, w: nat)
    requires d < 10
    ensures Fixed(10 * n + d, w + 1) == Fixed(n, w) + [48 + d]
  {
  }

  /** The conversation a node opens: the `n`-th frame carries MTI 2200 + 10 n, modulo 10000, and
      the payload of the opening frame; the two ids take turns as source. */
  lemma OpenedConversation(src: int, dst: int, n: nat)
    requires 0 <= src <= 999 && 0 <= dst <= 999
    ensures var e := Exchange(BuildFirstMessage(src, dst), src, dst, n);
      && |e| == 32
      && Mti(e) == Padded((2200 + 10 * n) % 10000, 4)
      && Trace(e) == Fixed(123456, 6) && (forall i :: 0 <= i < 16 ==> Pan(e)[i] == 49)
      && Src(e) == Fixed(if n % 2 == 0 then src else dst, 3)
      && Dst(e) == Fixed(if n % 2 == 0 then dst else src, 3)
  {
    FirstMessageExactly(src, dst);
    FirstMessageRoundTrip(src, dst, []);
    Pow10Small();
    ValueOfFixed(2200, 4);
    hide BuildFirstMessage, Exchange, Fixed, Padded, Src, Dst, Mti, Trace, Stoi;
    ReplyIteration(BuildFirstMessage(src, dst), src, dst, n);
  }

  // ---------------------------------------------------------------- node and router together

  /** For all ids of the wire format, what a node prints is what router and nodes read back. */
  lemma FirstMessageRoundTrip(src: int, dst: int, stale: Bytes)
    requires 0 <= src <= 999 && 0 <= dst <= 999
    ensures |BuildIdMessage(src)| == 3
    ensures RouterMessage.ExtractSrcId(BuildIdMessage(src) + [NUL] + stale, 3) == RouterMessage.Id(src)
    ensures var m := BuildFirstMessage(src, dst);
      && |m| == MSG_LEN && AllDigits(Mti(m))
      && Stoi(Src(m)) == Number(src) && Stoi(Dst(m)) == Number(dst)
      && RouterMessage.ExtractDstId(m + [NUL] + stale, MSG_LEN) == RouterMessage.Id(dst)
  {
    Pow10Small();
    PaddedRoundTrip(src, 3);
    PaddedRoundTrip(dst, 3);
    hide Padded, Stoi;
    var m := BuildFirstMessage(src, dst);
    FirstMessageFields(src, dst);
    hide BuildFirstMessage, Src, Dst, Mti;
    RouterMessage.SrcParseIsSliceParse(Padded(src, 3), stale);
    RouterMessage.DstParseIsSliceParse(m, stale);
  }

  lemma FirstMessageFields(src: int, dst: int)
    requires |Padded(src, 3)| == 3 && |Padded(dst, 3)| == 3
    ensures var m := BuildFirstMessage(src, dst);
      && |m| == MSG_LEN && Src(m) == Padded(src, 3) && Dst(m) == Padded(dst, 3)
      && RouterMessage.DstField(m) == Padded(dst, 3) && AllDigits(Mti(m))
  {
    hide Padded;
    var m := BuildFirstMessage(src, dst);
    assert Mti(m) == FIRST_MTI;
  }

  /** If the router reads destination `d` out of a frame, node `d` does not turn it away:
      it answers with a whole frame, or its MTI is not a number and the node throws. */
  lemma NodeAcceptsWhatRouterAddresses(frame: Bytes, d: int)
    requires |frame| == MSG_LEN && RouterMessage.DstOf(frame) == d && d != RouterMessage.NO_ID
    ensures ProcessMessage(d, frame) != Returns([])
    ensures Stoi(Mti(frame)).Number? ==>
      ProcessMessage(d, frame).Returns? && |ProcessMessage(d, frame).text| == MSG_LEN
    ensures forall other :: other != d ==> ProcessMessage(other, frame) == Returns([])
  {
    ReplyExactly(d, frame);
    StoiShort(Dst(frame));
    assert Dst(frame) == RouterMessage.DstField(frame);
    StoiShort(Mti(frame));
    if Stoi(Mti(frame)).Number? { NextMtiFits(Mti(frame)); }
  }
}
