/** Byte strings as the C++ standard library sees them: `std::stoi` on a `std::string`,
    and `operator<<` of an `int` under `setw`/`setfill('0')`. */
module Text {

  type Byte = b: int | 0 <= b < 256
  type Bytes = seq<Byte>

  const NUL: Byte := 0
  const PLUS: Byte := 43
  const MINUS: Byte := 45
  const ZERO: Byte := 48

  const INT_MAX := 0x7FFF_FFFF
  const INT_MIN := -0x8000_0000

  /** `isspace` of the "C" locale. */
  predicate IsSpace(b: Byte) { b == 32 || 9 <= b <= 13 }

  predicate IsDigit(b: Byte) { 48 <= b <= 57 }

  predicate AllDigits(s: Bytes) { forall i :: 0 <= i < |s| ==> IsDigit(s[i]) }

  /** What `std::stoi` does: a value, or one of the two exceptions it throws. */
  datatype Parsed = Number(value: int) | InvalidArgument | OutOfRange

  function SkipSpace(s: Bytes): (r: Bytes)
    ensures |r| <= |s|
  {
    if s != [] && IsSpace(s[0]) then SkipSpace(s[1..]) else s
  }

  /** The longest prefix of digits. */
  function DigitPrefix(s: Bytes): (r: Bytes)
    ensures AllDigits(r) && r <= s
    ensures |r| < |s| ==> !IsDigit(s[|r|])
  {
    if s != [] && IsDigit(s[0]) then [s[0]] + DigitPrefix(s[1..]) else []
  }

  /** The number a digit string denotes in base ten. */
  function Value(s: Bytes): nat
    requires AllDigits(s)
  {
    if s == [] then 0 else 10 * Value(s[..|s| - 1]) + (s[|s| - 1] - 48)
  }

  predicate Negative(s: Bytes) { s != [] && s[0] == MINUS }

  function SkipSign(s: Bytes): (r: Bytes)
    ensures |r| <= |s|
  {
    if s != [] && (s[0] == PLUS || s[0] == MINUS) then s[1..] else s
  }

  /** `strtol` in base ten followed by the range check of `stoi`. An embedded NUL needs no
      case of its own: it is no space, no sign and no digit, so scanning stops there. */
  function Stoi(s: Bytes): Parsed {
    var t := SkipSpace(s);
    var digits := DigitPrefix(SkipSign(t));
    if digits == [] then InvalidArgument
    else
      var v: int := if Negative(t) then 0 - Value(digits) else Value(digits);
      if INT_MIN <= v <= INT_MAX then Number(v) else OutOfRange
  }

  /** The `std::string` built from a `const char*`: the bytes before the first NUL. */
  function CString(s: Bytes): (r: Bytes)
    ensures r <= s && NUL !in r
    ensures |r| < |s| ==> s[|r|] == NUL
  {
    if s == [] || s[0] == NUL then [] else [s[0]] + CString(s[1..])
  }

  function Pow10(n: nat): (p: nat)
    ensures p > 0
  {
    if n == 0 then 1 else 10 * Pow10(n - 1)
  }

  // ---------------------------------------------------------------- printing

  function Decimal(n: nat): (r: Bytes)
    ensures AllDigits(r) && r != []
  {
    if n < 10 then [48 + n] else Decimal(n / 10) + [48 + n % 10]
  }

  function Show(n: int): Bytes {
    if n < 0 then [MINUS] + Decimal(-n) else Decimal(n)
  }

  function Zeros(n: nat): (r: Bytes)
    ensures |r| == n && AllDigits(r)
  {
    seq(n, _ => ZERO)
  }

  /** `setw(w) << setfill('0') << n`. The fill goes in front of the sign. */
  function Padded(n: int, w: nat): (r: Bytes)
    ensures |r| >= w
  {
    var s := Show(n);
    if |s| < w then Zeros(w - |s|) + s else s
  }

  /** The last `w` decimal digits of `n`: an independent account of fixed-width printing. */
  function Fixed(n: nat, w: nat): (r: Bytes)
    ensures |r| == w && AllDigits(r)
  {
    if w == 0 then [] else Fixed(n / 10, w - 1) + [48 + n % 10]
  }

  // ---------------------------------------------------------------- parsing lemmas

  lemma {:induction false} SkipSpaceBeforeNul(a: Bytes, b: Bytes)
    ensures SkipSpace(a + [NUL] + b) == SkipSpace(a) + [NUL] + b
  {
    if a != [] && IsSpace(a[0]) {
      assert (a + [NUL] + b)[1..] == a[1..] + [NUL] + b;
      SkipSpaceBeforeNul(a[1..], b);
    }
  }

  lemma {:induction false} DigitPrefixBeforeNul(a: Bytes, b: Bytes)
    ensures DigitPrefix(a + [NUL] + b) == DigitPrefix(a)
  {
    if a != [] && IsDigit(a[0]) {
      assert (a + [NUL] + b)[1..] == a[1..] + [NUL] + b;
      DigitPrefixBeforeNul(a[1..], b);
    }
  }

  /** Whatever follows a NUL is invisible to `stoi`. */
  lemma StoiStopsAtNul(a: Bytes, b: Bytes)
    ensures Stoi(a + [NUL] + b) == Stoi(a)
  {
    SkipSpaceBeforeNul(a, b);
    var t := SkipSpace(a);
    assert SkipSign(t + [NUL] + b) == SkipSign(t) + [NUL] + b;
    DigitPrefixBeforeNul(SkipSign(t), b);
  }

  // ---------------------------------------------------------------- the law of the parser

  predicate AllSpaces(w: Bytes) { forall i :: 0 <= i < |w| ==> w[i] in {32, 9, 10, 11, 12, 13} }

  /** A text is read as white space, a sign or none, digits, and whatever comes after them. The
      bytes are those of the "C" locale: 43 and 45 are the signs, 48 to 57 the digits. */
  predicate Reads(s: Bytes, w: Bytes, g: Bytes, d: Bytes, rest: Bytes) {
    && s == w + (g + (d + rest)) && AllSpaces(w)
    && (g == [] || g == [43] || g == [45])
    && d != [] && (forall i :: 0 <= i < |d| ==> 48 <= d[i] <= 57)
    && (rest == [] || !(48 <= rest[0] <= 57))
  }

  lemma {:induction false} SkipSpaceOver(w: Bytes, t: Bytes)
    requires AllSpaces(w) && (t == [] || !IsSpace(t[0]))
    ensures SkipSpace(w + t) == t
  {
    if w == [] {
      assert w + t == t;
    } else {
      assert (w + t)[1..] == w[1..] + t;
      SkipSpaceOver(w[1..], t);
    }
  }

  lemma {:induction false} DigitPrefixOver(d: Bytes, rest: Bytes)
    requires AllDigits(d) && (rest == [] || !IsDigit(rest[0]))
    ensures DigitPrefix(d + rest) == d
  {
    if d == [] {
      assert d + rest == rest;
    } else {
      assert (d + rest)[1..] == d[1..] + rest;
      DigitPrefixOver(d[1..], rest);
    }
  }

  /** The white space that is skipped. */
  lemma {:induction false} SkippedSpaces(s: Bytes) returns (w: Bytes)
    ensures AllSpaces(w) && s == w + SkipSpace(s)
    ensures SkipSpace(s) == [] || !IsSpace(SkipSpace(s)[0])
  {
    if s != [] && IsSpace(s[0]) {
      var more := SkippedSpaces(s[1..]);
      w := [s[0]] + more;
      assert s == [s[0]] + s[1..];
    } else {
      w := [];
    }
  }

  lemma SkippedSign(t: Bytes) returns (g: Bytes)
    ensures t == g + SkipSign(t) && (g == [] || g == [43] || g == [45])
  {
    g := t[..|t| - |SkipSign(t)|];
  }

  lemma FoundPrefix(u: Bytes) returns (rest: Bytes)
    ensures u == DigitPrefix(u) + rest && (rest == [] || !(48 <= rest[0] <= 57))
    ensures forall i :: 0 <= i < |DigitPrefix(u)| ==> 48 <= DigitPrefix(u)[i] <= 57
  {
    rest := u[|DigitPrefix(u)|..];
    assert AllDigits(DigitPrefix(u));
  }

  /** Where `stoi` finds digits it reads the text in this way. */
  lemma FoundDigits(s: Bytes) returns (w: Bytes, g: Bytes, rest: Bytes)
    requires DigitPrefix(SkipSign(SkipSpace(s))) != []
    ensures Reads(s, w, g, DigitPrefix(SkipSign(SkipSpace(s))), rest)
  {
    hide SkipSpace, SkipSign, DigitPrefix, AllSpaces;
    w := SkippedSpaces(s);
    g := SkippedSign(SkipSpace(s));
    rest := FoundPrefix(SkipSign(SkipSpace(s)));
  }

  /** What the scanner finds in a text read in this way. */
  lemma ScannedText(s: Bytes, w: Bytes, g: Bytes, d: Bytes, rest: Bytes)
    requires Reads(s, w, g, d, rest)
    ensures SkipSpace(s) == g + (d + rest) && DigitPrefix(SkipSign(SkipSpace(s))) == d
    ensures Negative(SkipSpace(s)) <==> g == [45]
  {
    var t := g + (d + rest);
    assert t[0] == if g == [] then d[0] else g[0];
    SkipSpaceOver(w, t);
    assert SkipSign(t) == d + rest;
    DigitPrefixOver(d, rest);
  }

  /** The law of `stoi`: a text that can be read so denotes the number its digits denote, negated
      by a minus, if an `int` can hold it; and exactly the texts that cannot be read so are
      invalid. */
  lemma StoiLaw(s: Bytes)
    ensures forall w, g, d, rest :: Reads(s, w, g, d, rest) ==>
      var v: int := if g == [45] then 0 - Value(d) else Value(d);
      Stoi(s) == if -2147483648 <= v <= 2147483647 then Number(v) else OutOfRange
    ensures Stoi(s) == InvalidArgument <==> !exists w, g, d, rest :: Reads(s, w, g, d, rest)
  {
    forall w, g, d, rest | Reads(s, w, g, d, rest)
      ensures var v: int := if g == [45] then 0 - Value(d) else Value(d);
        Stoi(s) == if -2147483648 <= v <= 2147483647 then Number(v) else OutOfRange
    {
      ScannedText(s, w, g, d, rest);
    }
    if Stoi(s) != InvalidArgument {
      var w, g, rest := FoundDigits(s);
    }
  }

  /** Parsing a slice and parsing it as a NUL-terminated string agree. */
  lemma StoiOfCString(s: Bytes)
    ensures Stoi(CString(s)) == Stoi(s)
  {
    var c := CString(s);
    if |c| < |s| {
      assert s == c + [NUL] + s[|c| + 1..];
      StoiStopsAtNul(c, s[|c| + 1..]);
    } else {
      assert c == s;
    }
  }

  lemma {:induction false} CStringOfTerminated(a: Bytes, b: Bytes)
    ensures CString(a + [NUL] + b) == CString(a)
  {
    if a != [] && a[0] != NUL {
      assert (a + [NUL] + b)[1..] == a[1..] + [NUL] + b;
      CStringOfTerminated(a[1..], b);
    }
  }

  lemma {:induction false} ValueBound(s: Bytes)
    requires AllDigits(s)
    ensures Value(s) < Pow10(|s|)
  {
    if s != [] { ValueBound(s[..|s| - 1]); }
  }

  lemma {:induction false} Pow10Monotone(a: nat, b: nat)
    requires a <= b
    ensures Pow10(a) <= Pow10(b)
  {
    if a < b { Pow10Monotone(a, b - 1); }
  }

  lemma Pow10Small()
    ensures Pow10(0) == 1 && Pow10(1) == 10 && Pow10(2) == 100
    ensures Pow10(3) == 1000 && Pow10(4) == 10000
  {
    assert Pow10(2) == 10 * Pow10(1);
    assert Pow10(3) == 10 * Pow10(2);
    assert Pow10(4) == 10 * Pow10(3);
  }

  lemma DigitPrefixBound(s: Bytes, n: nat)
    requires |s| <= n
    ensures Value(DigitPrefix(s)) < Pow10(n)
  {
    var d := DigitPrefix(s);
    ValueBound(d);
    Pow10Monotone(|d|, n);
  }

  /** A short string cannot overflow, and a sign costs it a digit: this is what keeps
      `out_of_range`, which nobody catches, from being thrown on the wire format. */
  lemma StoiShort(s: Bytes)
    requires 1 <= |s| <= 4
    ensures !Stoi(s).OutOfRange?
    ensures Stoi(s).Number? ==> 0 < Stoi(s).value + Pow10(|s| - 1) && Stoi(s).value < Pow10(|s|)
  {
    hide SkipSpace, DigitPrefix, Value, Pow10;
    var t := SkipSpace(s);
    var u := SkipSign(t);
    DigitPrefixBound(u, |s|);
    if Negative(t) { DigitPrefixBound(u, |s| - 1); }
    Pow10Monotone(|s|, 4);
    Pow10Small();
  }

  // ---------------------------------------------------------------- printing and parsing

  lemma {:induction false} DigitPrefixOfDigits(s: Bytes)
    requires AllDigits(s)
    ensures DigitPrefix(s) == s
  {
    if s != [] { DigitPrefixOfDigits(s[1..]); }
  }

  lemma StoiOfDigits(s: Bytes)
    requires AllDigits(s) && 1 <= |s| <= 4
    ensures Stoi(s) == Number(Value(s))
  {
    DigitPrefixOfDigits(s);
    StoiShort(s);
    assert IsDigit(s[0]);
    assert SkipSpace(s) == s && SkipSign(s) == s;
  }

  lemma {:induction false} ValueOfFixed(n: nat, w: nat)
    requires n < Pow10(w)
    ensures Value(Fixed(n, w)) == n
  {
    if w > 0 {
      ValueOfFixed(n / 10, w - 1);
      assert Fixed(n, w)[..w - 1] == Fixed(n / 10, w - 1);
    }
  }

  lemma {:induction false} FixedOfValue(s: Bytes)
    requires AllDigits(s)
    ensures Fixed(Value(s), |s|) == s
  {
    if s != [] {
      var n := |s| - 1;
      FixedOfValue(s[..n]);
      assert s == s[..n] + [s[n]];
    }
  }

  lemma {:induction false} FixedOfZero(w: nat)
    ensures Fixed(0, w) == Zeros(w)
  {
    if w > 0 { FixedOfZero(w - 1); }
  }

  /** Padding with zeros is printing in fixed width, as long as the number fits. */
  lemma {:induction false} PaddedIsFixed(n: nat, w: nat)
    requires n < Pow10(w)
    ensures |Decimal(n)| <= w || w == 0
    ensures w > 0 ==> Padded(n, w) == Fixed(n, w)
  {
    if w == 0 {
    } else if n < 10 {
      FixedOfZero(w - 1);
      assert Fixed(n, w) == Zeros(w - 1) + [48 + n];
    } else {
      assert w > 1;
      PaddedIsFixed(n / 10, w - 1);
      var d := Decimal(n / 10);
      assert Show(n) == d + [48 + n % 10];
      if |d| < w - 1 {
        assert Padded(n, w) == Zeros(w - 1 - |d|) + (d + [48 + n % 10]);
        assert Padded(n, w) == (Zeros(w - 1 - |d|) + d) + [48 + n % 10];
      }
    }
  }

  /** Printing then parsing a number that fits is the identity. */
  lemma PaddedRoundTrip(n: nat, w: nat)
    requires 1 <= w <= 4 && n < Pow10(w)
    ensures |Padded(n, w)| == w && AllDigits(Padded(n, w))
    ensures Stoi(Padded(n, w)) == Number(n)
  {
    PaddedIsFixed(n, w);
    ValueOfFixed(n, w);
    StoiOfDigits(Fixed(n, w));
  }

  /** Parsing then printing a digit string is the identity. */
  lemma DigitsRoundTrip(s: Bytes)
    requires AllDigits(s) && 1 <= |s| <= 4
    ensures Stoi(s) == Number(Value(s)) && Padded(Value(s), |s|) == s
  {
    StoiOfDigits(s);
    ValueBound(s);
    PaddedIsFixed(Value(s), |s|);
    FixedOfValue(s);
  }
}
