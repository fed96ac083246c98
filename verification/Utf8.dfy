/**
 Byte strings, well-formed UTF-8 as a decoder sees it (the byte table of RFC 3629, section 4) and as an
 encoder produces it (section 3), sanitising, and the audit logger's rune-safe truncation.
 */
module Utf8 {

  type Byte = b: int | 0 <= b < 256

  type Bytes = seq<Byte>

  predicate Continuation(b: Byte) {
    0x80 <= b <= 0xBF
  }

  /** Length of the well-formed sequence at the front of `s`, or 0 when there is none. */
  function HeadSize(s: Bytes): (n: nat)
    ensures n <= |s| && n <= 4
  {
    if |s| == 0 then 0
    else if s[0] <= 0x7F then 1
    else if |s| >= 2 && 0xC2 <= s[0] <= 0xDF && Continuation(s[1]) then 2
    else if |s| >= 3 && Continuation(s[2]) && (
              || (s[0] == 0xE0 && 0xA0 <= s[1] <= 0xBF)
              || (0xE1 <= s[0] <= 0xEC && Continuation(s[1]))
              || (s[0] == 0xED && 0x80 <= s[1] <= 0x9F)
              || (0xEE <= s[0] <= 0xEF && Continuation(s[1]))) then 3
    else if |s| >= 4 && Continuation(s[2]) && Continuation(s[3]) && (
              || (s[0] == 0xF0 && 0x90 <= s[1] <= 0xBF)
              || (0xF1 <= s[0] <= 0xF3 && Continuation(s[1]))
              || (s[0] == 0xF4 && 0x80 <= s[1] <= 0x8F)) then 4
    else 0
  }

  /** The size utf8.DecodeRuneInString reports: an invalid byte counts one, the empty string none. */
  function DecodedSize(s: Bytes): (n: nat)
    ensures n <= |s| && (s != [] ==> n >= 1)
  {
    if s == [] then 0 else if HeadSize(s) == 0 then 1 else HeadSize(s)
  }

  predicate Valid(s: Bytes)
    decreases |s|
  {
    s == [] || (HeadSize(s) > 0 && Valid(s[HeadSize(s)..]))
  }

  // ----- The encoder of section 3 agrees with the table -----

  predicate Scalar(cp: int) {
    0 <= cp <= 0x10FFFF && !(0xD800 <= cp <= 0xDFFF)
  }

  function EncodeRune(cp: int): (r: Bytes)
    requires Scalar(cp)
    ensures 1 <= |r| <= 4
  {
    if cp < 0x80 then [cp]
    else if cp < 0x800 then [0xC0 + cp / 64, 0x80 + cp % 64]
    else if cp < 0x10000 then [0xE0 + cp / 64 / 64, 0x80 + cp / 64 % 64, 0x80 + cp % 64]
    else [0xF0 + cp / 64 / 64 / 64, 0x80 + cp / 64 / 64 % 64, 0x80 + cp / 64 % 64, 0x80 + cp % 64]
  }

  function CodePoint(s: Bytes): int
    requires HeadSize(s) > 0
  {
    match HeadSize(s)
    case 1 => s[0]
    case 2 => SixMore(s[0] - 0xC0, s[1])
    case 3 => SixMore(SixMore(s[0] - 0xE0, s[1]), s[2])
    case _ => SixMore(SixMore(SixMore(s[0] - 0xF0, s[1]), s[2]), s[3])
  }

  /** The bits of a continuation byte appended to the code point read so far. */
  function SixMore(high: int, b: Byte): int {
    high * 64 + (b - 0x80)
  }

  lemma SixMoreSplits(high: int, b: Byte)
    requires Continuation(b)
    ensures SixMore(high, b) / 64 == high
    ensures SixMore(high, b) % 64 == b - 0x80
  {
  }

  lemma EncodedIsHead(cp: int, rest: Bytes)
    requires Scalar(cp)
    ensures HeadSize(EncodeRune(cp) + rest) == |EncodeRune(cp)|
    ensures CodePoint(EncodeRune(cp) + rest) == cp
  {
    var s := EncodeRune(cp) + rest;
    assert s[..|EncodeRune(cp)|] == EncodeRune(cp);
    if cp < 0x80 {
    } else if cp < 0x800 {
      assert s[0] == 0xC0 + cp / 64 && s[1] == 0x80 + cp % 64;
    } else if cp < 0x10000 {
      assert s[0] == 0xE0 + cp / 64 / 64 && s[1] == 0x80 + cp / 64 % 64 && s[2] == 0x80 + cp % 64;
    } else {
      assert s[0] == 0xF0 + cp / 64 / 64 / 64 && s[1] == 0x80 + cp / 64 / 64 % 64;
      assert s[2] == 0x80 + cp / 64 % 64 && s[3] == 0x80 + cp % 64;
    }
  }

  lemma HeadIsEncoded(s: Bytes)
    requires HeadSize(s) > 0
    ensures Scalar(CodePoint(s))
    ensures EncodeRune(CodePoint(s)) == s[..HeadSize(s)]
  {
    if HeadSize(s) == 2 {
      SixMoreSplits(s[0] - 0xC0, s[1]);
    } else if HeadSize(s) == 3 {
      var high := SixMore(s[0] - 0xE0, s[1]);
      SixMoreSplits(s[0] - 0xE0, s[1]);
      SixMoreSplits(high, s[2]);
    } else if HeadSize(s) == 4 {
      var high := SixMore(s[0] - 0xF0, s[1]);
      var mid := SixMore(high, s[2]);
      SixMoreSplits(s[0] - 0xF0, s[1]);
      SixMoreSplits(high, s[2]);
      SixMoreSplits(mid, s[3]);
    }
  }

  function EncodeAll(cps: seq<int>): Bytes
    requires forall k :: 0 <= k < |cps| ==> Scalar(cps[k])
  {
    if cps == [] then [] else EncodeRune(cps[0]) + EncodeAll(cps[1..])
  }

  lemma {:induction false} EncodedIsValid(cps: seq<int>)
    requires forall k :: 0 <= k < |cps| ==> Scalar(cps[k])
    ensures Valid(EncodeAll(cps))
  {
    if cps != [] {
      EncodedIsValid(cps[1..]);
      EncodedIsHead(cps[0], EncodeAll(cps[1..]));
      assert EncodeAll(cps)[|EncodeRune(cps[0])|..] == EncodeAll(cps[1..]);
    }
  }

  lemma {:induction false} ValidIsEncoded(s: Bytes) returns (cps: seq<int>)
    requires Valid(s)
    ensures forall k :: 0 <= k < |cps| ==> Scalar(cps[k])
    ensures EncodeAll(cps) == s
    decreases |s|
  {
    if s == [] {
      cps := [];
    } else {
      var n := HeadSize(s);
      var rest := ValidIsEncoded(s[n..]);
      assert s == s[..n] + s[n..];
      HeadIsEncoded(s);
      cps := EncodedCons(CodePoint(s), rest);
    }
  }

  lemma EncodedCons(cp: int, rest: seq<int>) returns (cps: seq<int>)
    requires Scalar(cp) && forall k :: 0 <= k < |rest| ==> Scalar(rest[k])
    ensures forall k :: 0 <= k < |cps| ==> Scalar(cps[k])
    ensures EncodeAll(cps) == EncodeRune(cp) + EncodeAll(rest)
  {
    cps := [cp] + rest;
    assert cps[1..] == rest;
  }

  /** The decoder's table accepts exactly the encodings of Unicode scalar values. */
  lemma ValidIffEncoded(s: Bytes)
    ensures Valid(s) <==>
            exists cps: seq<int> :: (forall k :: 0 <= k < |cps| ==> Scalar(cps[k])) && EncodeAll(cps) == s
  {
    if Valid(s) {
      var cps := ValidIsEncoded(s);
    }
    forall cps: seq<int> | (forall k :: 0 <= k < |cps| ==> Scalar(cps[k])) && EncodeAll(cps) == s
      ensures Valid(s)
    {
      EncodedIsValid(cps);
    }
  }

  // ----- Valid strings -----

  lemma HeadExtends(s: Bytes, rest: Bytes)
    requires HeadSize(s) > 0
    ensures HeadSize(s + rest) == HeadSize(s)
  {
  }

  lemma {:induction false} ValidConcat(s: Bytes, rest: Bytes)
    requires Valid(s) && Valid(rest)
    ensures Valid(s + rest)
    decreases |s|
  {
    if s == [] {
      assert s + rest == rest;
    } else {
      var n := HeadSize(s);
      ValidConcat(s[n..], rest);
      HeadExtends(s, rest);
      ConcatSuffix(s, rest, n);
      ValidStep(s + rest, n);
    }
  }

  lemma ConcatSuffix(s: Bytes, rest: Bytes, n: nat)
    requires n <= |s|
    ensures (s + rest)[n..] == s[n..] + rest
  {
  }

  lemma ValidStep(s: Bytes, n: nat)
    requires n == HeadSize(s) > 0 && Valid(s[n..])
    ensures Valid(s)
  {
  }

  lemma {:induction false} AsciiIsValid(s: Bytes)
    requires forall k :: 0 <= k < |s| ==> s[k] <= 0x7F
    ensures Valid(s)
  {
    if s != [] {
      AsciiIsValid(s[1..]);
    }
  }

  /** The bytes of an ASCII literal. */
  function Ascii(literal: string): (r: Bytes)
    ensures |r| == |literal|
    ensures forall k :: 0 <= k < |r| ==> r[k] <= 0x7F
  {
    seq(|literal|, i requires 0 <= i < |literal| => literal[i] as int % 128)
  }

  // ----- strings.ToValidUTF8 with U+FFFD -----

  const REPLACEMENT: Bytes := [0xEF, 0xBF, 0xBD]

  /** Each maximal run of invalid bytes becomes one replacement character. */
  function Sanitised(s: Bytes, inRun: bool := false): Bytes
    decreases |s|
  {
    if s == [] then []
    else if HeadSize(s) == 0 then (if inRun then [] else REPLACEMENT) + Sanitised(s[1..], true)
    else s[..HeadSize(s)] + Sanitised(s[HeadSize(s)..])
  }

  lemma HeadAloneIsValid(s: Bytes)
    requires HeadSize(s) > 0
    ensures Valid(s[..HeadSize(s)])
  {
    var head := s[..HeadSize(s)];
    assert HeadSize(head) == |head|;
  }

  lemma {:induction false} SanitisedIsValid(s: Bytes, inRun: bool)
    ensures Valid(Sanitised(s, inRun))
    decreases |s|
  {
    if s == [] {
    } else if HeadSize(s) == 0 {
      SanitisedIsValid(s[1..], true);
      assert Valid(REPLACEMENT) by {
        assert HeadSize(REPLACEMENT) == 3;
      }
      ValidConcat(REPLACEMENT, Sanitised(s[1..], true));
      assert inRun ==> Sanitised(s, inRun) == Sanitised(s[1..], true);
    } else {
      SanitisedIsValid(s[HeadSize(s)..], false);
      HeadAloneIsValid(s);
      ValidConcat(s[..HeadSize(s)], Sanitised(s[HeadSize(s)..]));
    }
  }

  lemma {:induction false} ValidIsUntouched(s: Bytes, inRun: bool)
    requires Valid(s)
    ensures Sanitised(s, inRun) == s
    decreases |s|
  {
    if s != [] {
      ValidIsUntouched(s[HeadSize(s)..], false);
    }
  }

  /** Every position of `run` is undecodable where it stands, in front of `rest`. */
  predicate InvalidRun(run: Bytes, rest: Bytes) {
    forall i :: 0 <= i < |run| ==> HeadSize((run + rest)[i..]) == 0
  }

  lemma {:induction false} RestOfRun(run: Bytes, rest: Bytes)
    requires InvalidRun(run, rest) && (rest != [] ==> HeadSize(rest) > 0)
    ensures Sanitised(run + rest, true) == Sanitised(rest)
    decreases |run|
  {
    if run == [] {
      assert run + rest == rest;
    } else {
      assert (run + rest)[0..] == run + rest;
      assert (run + rest)[1..] == run[1..] + rest;
      forall i | 0 <= i < |run[1..]|
        ensures HeadSize((run[1..] + rest)[i..]) == 0
      {
        assert (run[1..] + rest)[i..] == (run + rest)[i + 1..];
      }
      RestOfRun(run[1..], rest);
    }
  }

  /** A maximal run of undecodable bytes, up to a decodable rune or the end, becomes one U+FFFD. */
  lemma RunBecomesReplacement(run: Bytes, rest: Bytes)
    requires run != [] && InvalidRun(run, rest) && (rest != [] ==> HeadSize(rest) > 0)
    ensures Sanitised(run + rest) == [0xEF, 0xBF, 0xBD] + Sanitised(rest)
  {
    RestOfRun(run, rest);
    assert (run + rest)[0..] == run + rest;
    assert Sanitised(run + rest, true) == Sanitised((run + rest)[1..], true);
  }

  /** Well-formed text in front is kept as it is. */
  lemma {:induction false} ValidPrefixStays(text: Bytes, rest: Bytes)
    requires Valid(text)
    ensures Sanitised(text + rest) == text + Sanitised(rest)
    decreases |text|
  {
    if text == [] {
      assert text + rest == rest;
    } else {
      var n := HeadSize(text);
      HeadExtends(text, rest);
      ConcatSuffix(text, rest, n);
      ValidPrefixStays(text[n..], rest);
      SanitisedStep(text + rest);
      Regrouped(text, rest, n, Sanitised(rest));
    }
  }

  lemma SanitisedStep(s: Bytes)
    requires HeadSize(s) > 0
    ensures Sanitised(s) == s[..HeadSize(s)] + Sanitised(s[HeadSize(s)..])
  {
  }

  lemma Regrouped(text: Bytes, rest: Bytes, n: nat, tail: Bytes)
    requires n <= |text|
    ensures (text + rest)[..n] + (text[n..] + tail) == text + tail
  {
    assert (text + rest)[..n] == text[..n];
  }

  /** Every string falls apart into such pieces: well-formed text, then a maximal undecodable run, if any. */
  lemma {:induction false} FallsApart(s: Bytes) returns (text: Bytes, run: Bytes, rest: Bytes)
    ensures s == text + run + rest && Valid(text) && InvalidRun(run, rest)
    ensures rest != [] ==> run != [] && HeadSize(rest) > 0
    decreases |s|
  {
    if s == [] {
      text, run, rest := [], [], [];
    } else if HeadSize(s) > 0 {
      var n := HeadSize(s);
      text, run, rest := FallsApart(s[n..]);
      text := LongerText(s, text, run, rest);
    } else {
      text := [];
      run, rest := LeadingRun(s);
      assert s == [] + run + rest;
    }
  }

  lemma LongerText(s: Bytes, text: Bytes, run: Bytes, rest: Bytes) returns (longer: Bytes)
    requires HeadSize(s) > 0 && s[HeadSize(s)..] == text + run + rest && Valid(text)
    ensures s == longer + run + rest && Valid(longer)
  {
    var n := HeadSize(s);
    HeadAloneIsValid(s);
    ValidConcat(s[..n], text);
    longer := s[..n] + text;
    assert s == s[..n] + s[n..];
  }

  lemma {:induction false} LeadingRun(s: Bytes) returns (run: Bytes, rest: Bytes)
    requires s != [] && HeadSize(s) == 0
    ensures s == run + rest && run != [] && InvalidRun(run, rest) && (rest != [] ==> HeadSize(rest) > 0)
    decreases |s|
  {
    var tail := s[1..];
    if tail == [] || HeadSize(tail) > 0 {
      run, rest := [s[0]], tail;
      assert run + rest == s && (run + rest)[0..] == s;
    } else {
      run, rest := LeadingRun(tail);
      var more := run;
      run := [s[0]] + run;
      assert run + rest == s;
      forall i | 0 <= i < |run|
        ensures HeadSize((run + rest)[i..]) == 0
      {
        if i == 0 {
          assert (run + rest)[0..] == s;
        } else {
          assert (run + rest)[i..] == (more + rest)[i - 1..];
        }
      }
    }
  }

  /** Sanitising changes exactly the strings that are not valid UTF-8. */
  lemma SanitisedIffValid(s: Bytes)
    ensures Sanitised(s) == s <==> Valid(s)
  {
    SanitisedIsValid(s, false);
    if Valid(s) {
      ValidIsUntouched(s, false);
    }
  }

  // ----- Truncation -----

  const MARKER := Ascii("[truncated]")

  lemma MarkerIsValid()
    ensures |MARKER| == 11 && Valid(MARKER)
  {
    AsciiIsValid(MARKER);
  }

  /** Where a scan over whole runes stops that may not pass `limit`. */
  function Cutoff(s: Bytes, limit: nat): (k: nat)
    ensures k <= |s| && k <= limit
    decreases |s|
  {
    var n := DecodedSize(s);
    if s == [] || n > limit then 0 else n + Cutoff(s[n..], limit - n)
  }

  function ContentLimit(limit: int): nat {
    if limit - |MARKER| < 0 then 0 else limit - |MARKER|
  }

  function Truncated(value: Bytes, limit: int): Bytes {
    var clean := Sanitised(value);
    if |clean| <= limit then clean else clean[..Cutoff(clean, ContentLimit(limit))] + MARKER
  }

  lemma SliceConcat(s: Bytes, n: nat, k: nat)
    requires n + k <= |s|
    ensures s[..n] + s[n..][..k] == s[..n + k]
  {
  }

  lemma BoundaryStep(s: Bytes, n: nat, k: nat)
    requires n + k <= |s| && Valid(s[..n]) && Valid(s[n..][..k])
    ensures Valid(s[..n + k])
  {
    ValidConcat(s[..n], s[n..][..k]);
    SliceConcat(s, n, k);
  }

  lemma {:induction false} CutoffIsBoundary(s: Bytes, limit: nat)
    requires Valid(s)
    ensures Valid(s[..Cutoff(s, limit)])
    decreases |s|
  {
    var n := HeadSize(s);
    if s != [] && n <= limit {
      CutoffIsBoundary(s[n..], limit - n);
      HeadAloneIsValid(s);
      BoundaryStep(s, n, Cutoff(s[n..], limit - n));
    }
  }

  /** No longer prefix within the limit is valid UTF-8. */
  lemma {:induction false} CutoffIsLongest(s: Bytes, limit: nat, k: nat)
    requires Valid(s) && k <= |s| && k <= limit && Valid(s[..k])
    ensures k <= Cutoff(s, limit)
    decreases |s|
  {
    if k > 0 {
      var n := HeadSize(s[..k]);
      HeadExtends(s[..k], s[k..]);
      assert s[..k] + s[k..] == s;
      SliceOfPrefix(s, n, k);
      CutoffIsLongest(s[n..], limit - n, k - n);
    }
  }

  lemma SliceOfPrefix(s: Bytes, n: nat, k: nat)
    requires n <= k <= |s|
    ensures s[n..][..k - n] == s[..k][n..]
  {
  }

  /** What an overlong string becomes: the sanitised value when that fits, else its longest well-formed
      prefix that leaves room for the 11 bytes "[truncated]", and those. */
  ghost predicate Shortened(value: Bytes, limit: nat, r: Bytes)
    requires limit >= 11
  {
    var clean := Sanitised(value);
    if |clean| <= limit then r == clean
    else exists k: nat ::
           && k <= |clean| && k <= limit - 11 && Valid(clean[..k])
           && r == clean[..k] + [91, 116, 114, 117, 110, 99, 97, 116, 101, 100, 93]
           && forall j: nat :: j <= |clean| && j <= limit - 11 && Valid(clean[..j]) ==> j <= k
  }

  lemma MarkerBytes()
    ensures MARKER == [91, 116, 114, 117, 110, 99, 97, 116, 101, 100, 93]
  {
  }

  lemma TruncatedIsShortened(value: Bytes, limit: nat)
    requires limit >= 11
    ensures Shortened(value, limit, Truncated(value, limit))
  {
    MarkerBytes();
    var clean := Sanitised(value);
    if |clean| > limit {
      SanitisedIsValid(value, false);
      CutoffIsBest(clean, limit - 11);
    }
  }

  lemma CutoffIsBest(s: Bytes, limit: nat)
    requires Valid(s)
    ensures var k := Cutoff(s, limit);
            Valid(s[..k]) && forall j: nat :: j <= |s| && j <= limit && Valid(s[..j]) ==> j <= k
  {
    CutoffIsBoundary(s, limit);
    forall j: nat | j <= |s| && j <= limit && Valid(s[..j])
      ensures j <= Cutoff(s, limit)
    {
      CutoffIsLongest(s, limit, j);
    }
  }

  /** There is only one such result. */
  lemma ShortenedIsUnique(value: Bytes, limit: nat, r: Bytes)
    requires limit >= 11 && Shortened(value, limit, r)
    ensures r == Truncated(value, limit)
  {
    TruncatedIsShortened(value, limit);
    var clean := Sanitised(value);
    if |clean| > limit {
      var k: nat :| k <= |clean| && k <= limit - 11 && Valid(clean[..k])
                    && r == clean[..k] + [91, 116, 114, 117, 110, 99, 97, 116, 101, 100, 93]
                    && forall j: nat :: j <= |clean| && j <= limit - 11 && Valid(clean[..j]) ==> j <= k;
      var k': nat :| k' <= |clean| && k' <= limit - 11 && Valid(clean[..k'])
                     && Truncated(value, limit) == clean[..k'] + [91, 116, 114, 117, 110, 99, 97, 116, 101, 100, 93]
                     && forall j: nat :: j <= |clean| && j <= limit - 11 && Valid(clean[..j]) ==> j <= k';
      assert k <= k' && k' <= k;
    }
  }

  /** For every byte string and limit: the result is valid UTF-8; it is the sanitised value when that
      fits, and otherwise the longest valid prefix within limit minus 11 bytes, plus the marker. */
  lemma TruncatedSpec(value: Bytes, limit: int)
    ensures var r, clean := Truncated(value, limit), Sanitised(value);
            && Valid(r)
            && (|clean| <= limit ==> r == clean)
            && (|clean| > limit ==>
                  exists k: nat ::
                    && k <= |clean| && k <= ContentLimit(limit) && r == clean[..k] + MARKER && Valid(clean[..k])
                    && forall j: nat :: j <= |clean| && j <= ContentLimit(limit) && Valid(clean[..j]) ==> j <= k)
  {
    var clean := Sanitised(value);
    SanitisedIsValid(value, false);
    MarkerIsValid();
    if |clean| > limit {
      var k := Cutoff(clean, ContentLimit(limit));
      CutoffIsBoundary(clean, ContentLimit(limit));
      ValidConcat(clean[..k], MARKER);
      forall j: nat | j <= |clean| && j <= ContentLimit(limit) && Valid(clean[..j])
        ensures j <= k
      {
        CutoffIsLongest(clean, ContentLimit(limit), j);
      }
    }
  }

  /** The limit is kept whenever the marker fits in it; below that the result is the bare marker. */
  lemma TruncatedFits(value: Bytes, limit: int)
    ensures limit >= 11 ==> |Truncated(value, limit)| <= limit
    ensures limit < 11 && |Sanitised(value)| > limit ==> Truncated(value, limit) == MARKER
  {
    MarkerIsValid();
    var clean := Sanitised(value);
    assert clean[..0] + MARKER == MARKER;
  }

  lemma TruncatedIdempotent(value: Bytes, limit: int)
    ensures Truncated(Truncated(value, limit), limit) == Truncated(value, limit)
  {
    var r := Truncated(value, limit);
    TruncatedSpec(value, limit);
    ValidIsUntouched(r, false);
    TruncatedFits(value, limit);
    MarkerIsValid();
    if limit < 11 && |Sanitised(value)| > limit {
      assert MARKER[..0] + MARKER == MARKER;
    }
  }

  lemma SliceOfSuffix(s: Bytes, at: nat, size: nat)
    requires at + size <= |s|
    ensures s[at..][size..] == s[at + size..]
  {
  }

  lemma CutoffStep(s: Bytes, limit: nat)
    requires s != []
    ensures Cutoff(s, limit)
            == if DecodedSize(s) > limit then 0
               else DecodedSize(s) + Cutoff(s[DecodedSize(s)..], limit - DecodedSize(s))
  {
  }

  /** The rest of the scan, from `at` on. */
  function RestOfScan(s: Bytes, limit: nat, at: nat): nat
    requires at <= |s| && at <= limit
  {
    Cutoff(s[at..], limit - at)
  }

  lemma RestStep(s: Bytes, limit: nat, at: nat, size: nat)
    requires at < |s| && at <= limit && size == DecodedSize(s[at..])
    ensures size >= 1 && at + size <= |s|
    ensures at + size > limit ==> RestOfScan(s, limit, at) == 0
    ensures at + size <= limit ==> RestOfScan(s, limit, at) == size + RestOfScan(s, limit, at + size)
  {
    SliceOfSuffix(s, at, size);
    CutoffStep(s[at..], limit - at);
  }

  /** A scan that has reached `at` will stop where the whole scan stops. */
  ghost predicate ScanReaches(s: Bytes, limit: nat, at: nat) {
    at <= |s| && at <= limit && Cutoff(s, limit) == at + RestOfScan(s, limit, at)
  }

  lemma ScanEnds(s: Bytes, limit: nat)
    ensures ScanReaches(s, limit, 0)
    ensures ScanReaches(s, limit, |s|) ==> Cutoff(s, limit) == |s|
  {
    assert s[0..] == s;
  }

  /** The loop: it advances by decoded sizes until the next rune would pass the limit. */
  method ScanRunes(value: Bytes, contentLimit: nat) returns (cutoff: nat)
    ensures cutoff == Cutoff(value, contentLimit)
  {
    cutoff := 0;
    ScanEnds(value, contentLimit);
    while cutoff < |value|
      invariant ScanReaches(value, contentLimit, cutoff)
    {
      var size := DecodedSize(value[cutoff..]);
      RestStep(value, contentLimit, cutoff, size);
      if cutoff + size > contentLimit {
        return;
      }
      cutoff := cutoff + size;
    }
  }

  method TruncateUTF8(value: Bytes, limit: int) returns (r: Bytes)
    ensures r == Truncated(value, limit)
  {
    var clean := Sanitised(value);
    if |clean| <= limit {
      return clean;
    }
    var contentLimit := limit - |MARKER|;
    if contentLimit < 0 {
      contentLimit := 0;
    }
    var cutoff := ScanRunes(clean, contentLimit);
    r := clean[..cutoff] + MARKER;
  }
}
