/**
 The JSON encoder as far as audit records use it: strings escaped as RFC 8259, section 7 allows and as
 encoding/json does with HTML escaping on, 64-bit integers, booleans, arrays and objects.
 */
module Json {
  import opened Wrappers
  import opened Utf8

  type Int64 = n: int | -0x8000_0000_0000_0000 <= n < 0x8000_0000_0000_0000

  const QUOTE: Byte := 34
  const BACKSLASH: Byte := 92

  function HexDigit(v: nat): Byte
    requires v < 16
  {
    if v < 10 then 48 + v else 87 + v
  }

  function HexValue(b: Byte): Option<nat> {
    if 48 <= b <= 57 then Some(b - 48)
    else if 97 <= b <= 102 then Some(b - 87)
    else if 65 <= b <= 70 then Some(b - 55)
    else None
  }

  /** ASCII bytes that stand for themselves: printable, and none of quote, backslash, <, > or &. */
  predicate Safe(b: Byte) {
    0x20 <= b <= 0x7F && b != QUOTE && b != BACKSLASH && b != 60 && b != 62 && b != 38
  }

  function EscapedAscii(b: Byte): (r: Bytes)
    requires b <= 0x7F
    ensures 1 <= |r| <= 6
  {
    if Safe(b) then [b]
    else if b == QUOTE || b == BACKSLASH then [BACKSLASH, b]
    else if b == 8 then [BACKSLASH, 98]
    else if b == 12 then [BACKSLASH, 102]
    else if b == 10 then [BACKSLASH, 110]
    else if b == 13 then [BACKSLASH, 114]
    else if b == 9 then [BACKSLASH, 116]
    else [BACKSLASH, 117, 48, 48, HexDigit(b / 16), HexDigit(b % 16)]
  }

  /** The four hex digits of \ufffd, \u2028 or \u2029. */
  function UnicodeEscape(d0: Byte, d1: Byte, d2: Byte, d3: Byte): Bytes {
    [BACKSLASH, 117, d0, d1, d2, d3]
  }

  predicate LineSeparator(s: Bytes) {
    |s| >= 3 && s[0] == 0xE2 && s[1] == 0x80 && (s[2] == 0xA8 || s[2] == 0xA9)
  }

  /** The escaped form of the first decoded rune of a non-empty string. */
  function EscapedHead(s: Bytes): (r: Bytes)
    requires s != []
    ensures |r| <= 6 * DecodedSize(s)
  {
    if s[0] <= 0x7F then EscapedAscii(s[0])
    else if HeadSize(s) == 0 then UnicodeEscape(102, 102, 102, 100)
    else if LineSeparator(s) then UnicodeEscape(50, 48, 50, HexDigit(s[2] % 16))
    else s[..HeadSize(s)]
  }

  /** Escaping grows a string at most sixfold. */
  function Escaped(s: Bytes): (r: Bytes)
    ensures |r| <= 6 * |s|
    decreases |s|
  {
    if s == [] then [] else EscapedHead(s) + Escaped(s[DecodedSize(s)..])
  }

  function Quoted(s: Bytes): (r: Bytes)
    ensures |r| <= 6 * |s| + 2
  {
    [QUOTE] + Escaped(s) + [QUOTE]
  }

  // ----- Reading a string body back -----

  function SimpleEscape(b: Byte): Option<Byte> {
    if b == QUOTE || b == BACKSLASH || b == 47 then Some(b)
    else if b == 98 then Some(8)
    else if b == 102 then Some(12)
    else if b == 110 then Some(10)
    else if b == 114 then Some(13)
    else if b == 116 then Some(9)
    else None
  }

  function Prefixed(head: Bytes, rest: Option<Bytes>): Option<Bytes> {
    match rest
    case None => None
    case Some(tail) => Some(head + tail)
  }

  /** A reader of string bodies. Surrogate escapes, which the encoder never writes, are refused. */
  function Unescaped(t: Bytes): Option<Bytes>
    decreases |t|
  {
    if t == [] then Some([])
    else if t[0] == BACKSLASH then
      if |t| >= 2 && SimpleEscape(t[1]).Some? then Prefixed([SimpleEscape(t[1]).value], Unescaped(t[2..]))
      else if |t| >= 6 && t[1] == 117 && HexValue(t[2]).Some? && HexValue(t[3]).Some?
              && HexValue(t[4]).Some? && HexValue(t[5]).Some? then
        var high := HexValue(t[2]).value * 16 + HexValue(t[3]).value;
        var cp := (high * 16 + HexValue(t[4]).value) * 16 + HexValue(t[5]).value;
        if Scalar(cp) then Prefixed(EncodeRune(cp), Unescaped(t[6..])) else None
      else None
    else if t[0] < 0x20 || t[0] == QUOTE then None
    else Prefixed([t[0]], Unescaped(t[1..]))
  }

  /** What the encoder makes of a string: every invalid byte becomes U+FFFD. */
  function Coerced(s: Bytes): Bytes
    decreases |s|
  {
    if s == [] then []
    else (if HeadSize(s) == 0 then REPLACEMENT else s[..HeadSize(s)]) + Coerced(s[DecodedSize(s)..])
  }

  lemma {:induction false} UnescapedRaw(raw: Bytes, rest: Bytes)
    requires forall k :: 0 <= k < |raw| ==> raw[k] >= 0x80
    ensures Unescaped(raw + rest) == Prefixed(raw, Unescaped(rest))
  {
    if raw == [] {
      assert raw + rest == rest;
      PrefixedAgain([], [], Unescaped(rest));
    } else {
      UnescapedRaw(raw[1..], rest);
      assert (raw + rest)[1..] == raw[1..] + rest;
      assert [raw[0]] + raw[1..] == raw;
      PrefixedAgain([raw[0]], raw[1..], Unescaped(rest));
    }
  }

  lemma PrefixedAgain(head: Bytes, more: Bytes, rest: Option<Bytes>)
    ensures Prefixed(head, Prefixed(more, rest)) == Prefixed(head + more, rest)
    ensures Prefixed([], rest) == rest
  {
    if rest.Some? {
      assert head + (more + rest.value) == head + more + rest.value;
      assert [] + rest.value == rest.value;
    }
  }

  lemma HexRoundTrip(v: nat)
    requires v < 16
    ensures HexValue(HexDigit(v)) == Some(v)
  {
  }

  lemma UnescapedAscii(b: Byte, rest: Bytes)
    requires b <= 0x7F
    ensures Unescaped(EscapedAscii(b) + rest) == Prefixed([b], Unescaped(rest))
  {
    var t := EscapedAscii(b) + rest;
    assert t[|EscapedAscii(b)|..] == rest;
    if !Safe(b) && |EscapedAscii(b)| == 6 {
      HexRoundTrip(b / 16);
      HexRoundTrip(b % 16);
      assert t[1] == 117 && t[2] == 48 && t[3] == 48;
      assert t[4] == HexDigit(b / 16) && t[5] == HexDigit(b % 16);
      assert b / 16 * 16 + b % 16 == b;
    }
  }

  lemma UnescapedReplacement(rest: Bytes)
    ensures Unescaped(UnicodeEscape(102, 102, 102, 100) + rest) == Prefixed(REPLACEMENT, Unescaped(rest))
  {
    var t := UnicodeEscape(102, 102, 102, 100) + rest;
    assert t[6..] == rest;
    assert EncodeRune(0xFFFD) == REPLACEMENT;
  }

  lemma UnescapedSeparator(s: Bytes, rest: Bytes)
    requires LineSeparator(s)
    ensures Unescaped(UnicodeEscape(50, 48, 50, HexDigit(s[2] % 16)) + rest) == Prefixed(s[..3], Unescaped(rest))
  {
    var t := UnicodeEscape(50, 48, 50, HexDigit(s[2] % 16)) + rest;
    assert t[6..] == rest;
    HexRoundTrip(s[2] % 16);
    assert EncodeRune(0x2020 + s[2] as int % 16) == s[..3];
  }

  lemma UnescapedHead(s: Bytes, rest: Bytes)
    requires s != []
    ensures Unescaped(EscapedHead(s) + rest)
            == Prefixed(if HeadSize(s) == 0 then REPLACEMENT else s[..HeadSize(s)], Unescaped(rest))
  {
    if s[0] <= 0x7F {
      UnescapedAscii(s[0], rest);
      assert s[..1] == [s[0]];
    } else if HeadSize(s) == 0 {
      UnescapedReplacement(rest);
    } else if LineSeparator(s) {
      UnescapedSeparator(s, rest);
    } else {
      UnescapedRaw(s[..HeadSize(s)], rest);
    }
  }

  /** Reading an escaped string back gives the string, invalid bytes replaced. */
  lemma {:induction false} StringRoundTrip(s: Bytes)
    ensures Unescaped(Escaped(s)) == Some(Coerced(s))
    decreases |s|
  {
    if s != [] {
      StringRoundTrip(s[DecodedSize(s)..]);
      UnescapedHead(s, Escaped(s[DecodedSize(s)..]));
    }
  }

  /** Valid UTF-8, as every truncated field is, survives encoding unchanged. */
  lemma {:induction false} ValidSurvives(s: Bytes)
    requires Valid(s)
    ensures Coerced(s) == s
    decreases |s|
  {
    if s != [] {
      ValidSurvives(s[HeadSize(s)..]);
    }
  }

  /** How any string reads back, piece by piece: well-formed text as it is, each undecodable byte as U+FFFD. */
  lemma ReadsBackInPieces(text: Bytes, b: Byte, rest: Bytes)
    requires Valid(text)
    ensures Unescaped(Escaped(text)) == Some(text)
    ensures Unescaped(Escaped(rest)).Some?
    ensures Unescaped(Escaped(text + rest)) == Some(text + Unescaped(Escaped(rest)).value)
    ensures HeadSize([b] + rest) == 0 ==>
              Unescaped(Escaped([b] + rest)) == Some([0xEF, 0xBF, 0xBD] + Unescaped(Escaped(rest)).value)
  {
    ValidSurvives(text);
    StringRoundTrip(text);
    StringRoundTrip(rest);
    StringRoundTrip(text + rest);
    CoercedConcat(text, rest);
    StringRoundTrip([b] + rest);
    assert ([b] + rest)[1..] == rest;
  }

  lemma {:induction false} CoercedConcat(text: Bytes, rest: Bytes)
    requires Valid(text)
    ensures Coerced(text + rest) == text + Coerced(rest)
    decreases |text|
  {
    if text == [] {
      assert text + rest == rest;
    } else {
      var n := HeadSize(text);
      HeadExtends(text, rest);
      ConcatSuffix(text, rest, n);
      CoercedConcat(text[n..], rest);
      CoercedStep(text + rest);
      Regrouped(text, rest, n, Coerced(rest));
    }
  }

  lemma CoercedStep(s: Bytes)
    requires HeadSize(s) > 0
    ensures Coerced(s) == s[..HeadSize(s)] + Coerced(s[HeadSize(s)..])
  {
  }

  /** No control byte, in particular no newline, and no bare quote occurs in an escaped string, so one
      record stays on one line and a string ends where it should. */
  lemma {:induction false} EscapedIsClean(s: Bytes)
    ensures forall k :: 0 <= k < |Escaped(s)| ==> Escaped(s)[k] >= 0x20
    ensures forall k :: 0 <= k < |Escaped(s)| && Escaped(s)[k] == QUOTE ==> k > 0 && Escaped(s)[k - 1] == BACKSLASH
    decreases |s|
  {
    if s != [] {
      EscapedIsClean(s[DecodedSize(s)..]);
      HeadIsClean(s);
    }
  }

  lemma HeadIsClean(s: Bytes)
    requires s != []
    ensures forall k :: 0 <= k < |EscapedHead(s)| ==> EscapedHead(s)[k] >= 0x20
    ensures forall k :: 0 <= k < |EscapedHead(s)| && EscapedHead(s)[k] == QUOTE ==>
              k > 0 && EscapedHead(s)[k - 1] == BACKSLASH
  {
    if s[0] > 0x7F && HeadSize(s) > 0 && !LineSeparator(s) {
      assert forall k :: 0 <= k < HeadSize(s) ==> s[k] >= 0x80;
    }
  }

  // ----- Integers -----

  function Digits(n: nat): Bytes {
    if n < 10 then [48 + n] else Digits(n / 10) + [48 + n % 10]
  }

  function Pow10(k: nat): nat {
    if k == 0 then 1 else 10 * Pow10(k - 1)
  }

  lemma {:induction false} DigitsBounded(n: nat, k: nat)
    requires k >= 1 && n < Pow10(k)
    ensures |Digits(n)| <= k
  {
    if n >= 10 {
      DigitsBounded(n / 10, k - 1);
    }
  }

  function DigitsValue(digits: Bytes): int {
    if digits == [] then 0 else 10 * DigitsValue(digits[..|digits| - 1]) + (digits[|digits| - 1] as int - 48)
  }

  lemma {:induction false} DigitsRoundTrip(n: nat)
    ensures DigitsValue(Digits(n)) == n
  {
    if n >= 10 {
      DigitsRoundTrip(n / 10);
      assert Digits(n)[..|Digits(n)| - 1] == Digits(n / 10);
    } else {
      assert Digits(n)[..0] == [];
    }
  }

  lemma Pow10Of19()
    ensures Pow10(19) == 10_000_000_000_000_000_000
  {
    assert Pow10(7) == 10_000_000;
    assert Pow10(14) == 100_000_000_000_000;
  }

  function Decimal(n: Int64): (r: Bytes)
    ensures |r| <= 20
  {
    Pow10Of19();
    DigitsBounded(if n < 0 then -(n as int) else n, 19);
    if n < 0 then [45] + Digits(-(n as int)) else Digits(n)
  }

  function DecimalValue(text: Bytes): int {
    if text != [] && text[0] == 45 then -DigitsValue(text[1..]) else DigitsValue(text)
  }

  lemma {:induction false} DigitsAreDigits(n: nat)
    ensures |Digits(n)| >= 1 && forall k :: 0 <= k < |Digits(n)| ==> 48 <= Digits(n)[k] <= 57
  {
    if n >= 10 {
      DigitsAreDigits(n / 10);
    }
  }

  /** A 64-bit integer reads back from its decimal text. */
  lemma DecimalRoundTrip(n: Int64)
    ensures DecimalValue(Decimal(n)) == n
  {
    var magnitude: nat := if n < 0 then -(n as int) else n;
    DigitsRoundTrip(magnitude);
    DigitsAreDigits(magnitude);
    if n < 0 {
      assert Decimal(n)[1..] == Digits(magnitude);
    }
  }

  function Boolean(b: bool): (r: Bytes)
    ensures |r| <= 5
  {
    if b then Ascii("true") else Ascii("false")
  }

  // ----- Objects and arrays -----

  /** One more member of the object written so far; the first one opens the brace. */
  function Put(acc: Bytes, key: string, value: Bytes): (r: Bytes)
    ensures |r| == |acc| + |key| + |value| + 4
  {
    acc + [if acc == [] then 123 else 44] + [QUOTE] + Ascii(key) + [QUOTE, 58] + value
  }

  /** A member left out when empty. */
  function PutUnless(empty: bool, acc: Bytes, key: string, value: Bytes): (r: Bytes)
    ensures |r| <= |acc| + |key| + |value| + 4
  {
    if empty then acc else Put(acc, key, value)
  }

  function Closed(acc: Bytes): (r: Bytes)
    ensures |r| <= |acc| + 2
  {
    if acc == [] then [123, 125] else acc + [125]
  }

  function Joined(items: seq<Bytes>): Bytes {
    if items == [] then []
    else if |items| == 1 then items[0]
    else items[0] + [44] + Joined(items[1..])
  }

  function Array(items: seq<Bytes>): (r: Bytes) {
    [91] + Joined(items) + [93]
  }
}
