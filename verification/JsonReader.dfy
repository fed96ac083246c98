/**
 A reader of JSON text (RFC 8259) without insignificant white space, which the encoder never writes, and
 what it makes of the pieces the encoder writes: strings, integers, booleans, arrays and objects.
 */
module JsonReader {
  import opened Wrappers
  import opened Utf8
  import opened Json

  datatype Value =
    | Text(text: Bytes)
    | Number(number: int)
    | Truth(truth: bool)
    | List(items: seq<Value>)
    | Object(members: seq<Member>)

  datatype Member = Member(key: Bytes, value: Value)

  type Read<T> = Option<(T, Bytes)>

  const COMMA: Byte := 44

  // ----- The reader -----

  /** Length of the string body in front: up to the first quote that no backslash escapes. */
  function BodyEnd(t: Bytes): (n: nat)
    ensures n <= |t|
  {
    if t == [] || t[0] == QUOTE then 0
    else if t[0] == BACKSLASH && |t| >= 2 then 2 + BodyEnd(t[2..])
    else 1 + BodyEnd(t[1..])
  }

  /** A string from behind its opening quote to behind its closing one. */
  function ReadString(t: Bytes): (r: Read<Bytes>)
    ensures r.Some? ==> |r.value.1| < |t|
  {
    var n := BodyEnd(t);
    if n < |t| && Unescaped(t[..n]).Some? then Some((Unescaped(t[..n]).value, t[n + 1..])) else None
  }

  function DigitsEnd(t: Bytes): (n: nat)
    ensures n <= |t|
  {
    if t != [] && 48 <= t[0] <= 57 then 1 + DigitsEnd(t[1..]) else 0
  }

  function ReadNumber(t: Bytes): (r: Read<Value>)
    ensures r.Some? ==> |r.value.1| < |t|
  {
    var sign := if t != [] && t[0] == 45 then 1 else 0;
    var n := DigitsEnd(t[sign..]);
    if n == 0 then None else Some((Number(DecimalValue(t[..sign + n])), t[sign + n..]))
  }

  function ReadValue(t: Bytes): (r: Read<Value>)
    ensures r.Some? ==> |r.value.1| < |t|
    decreases |t|, 0
  {
    if t == [] then None
    else if t[0] == QUOTE then
      var s := ReadString(t[1..]);
      if s.None? then None else Some((Text(s.value.0), s.value.1))
    else if t[0] == 91 then
      if |t| >= 2 && t[1] == 93 then Some((List([]), t[2..])) else ReadItems(t[1..], [])
    else if t[0] == 123 then
      if |t| >= 2 && t[1] == 125 then Some((Object([]), t[2..])) else ReadMembers(t[1..], [])
    else if |t| >= 4 && t[..4] == TRUE then Some((Truth(true), t[4..]))
    else if |t| >= 5 && t[..5] == FALSE then Some((Truth(false), t[5..]))
    else ReadNumber(t)
  }

  const TRUE := Ascii("true")
  const FALSE := Ascii("false")

  /** The rest of an array, behind its bracket or a comma, after the given items. */
  function ReadItems(t: Bytes, items: seq<Value>): (r: Read<Value>)
    ensures r.Some? ==> |r.value.1| < |t|
    decreases |t|, 1
  {
    var v := ReadValue(t);
    if v.None? || v.value.1 == [] then None
    else
      var rest := v.value.1;
      if rest[0] == COMMA then ReadItems(rest[1..], items + [v.value.0])
      else if rest[0] == 93 then Some((List(items + [v.value.0]), rest[1..]))
      else None
  }

  /** The rest of an object, behind its brace or a comma, after the given members. */
  function ReadMembers(t: Bytes, members: seq<Member>): (r: Read<Value>)
    ensures r.Some? ==> |r.value.1| < |t|
    decreases |t|, 1
  {
    if t == [] || t[0] != QUOTE then None
    else
      var key := ReadString(t[1..]);
      if key.None? || key.value.1 == [] || key.value.1[0] != 58 then None
      else
        var v := ReadValue(key.value.1[1..]);
        if v.None? || v.value.1 == [] then None
        else
          var rest, longer := v.value.1, members + [Member(key.value.0, v.value.0)];
          if rest[0] == COMMA then ReadMembers(rest[1..], longer)
          else if rest[0] == 125 then Some((Object(longer), rest[1..]))
          else None
  }

  // ----- What a piece of text denotes -----

  /** What may follow a value. */
  predicate Ends(rest: Bytes) {
    rest == [] || rest[0] == COMMA || rest[0] == 93 || rest[0] == 125
  }

  predicate ReadsBefore(t: Bytes, v: Value, rest: Bytes) {
    Ends(rest) ==> ReadValue(t + rest) == Some((v, rest))
  }

  /** Wherever it stands, the text is read as the value. */
  ghost predicate Denotes(t: Bytes, v: Value) {
    forall rest :: ReadsBefore(t, v, rest)
  }

  // ----- Strings -----

  lemma {:induction false} PlainBody(plain: Bytes, rest: Bytes)
    requires forall k :: 0 <= k < |plain| ==> plain[k] != QUOTE && plain[k] != BACKSLASH
    ensures BodyEnd(plain + rest) == |plain| + BodyEnd(rest)
  {
    if plain == [] {
      assert plain + rest == rest;
    } else {
      assert (plain + rest)[1..] == plain[1..] + rest;
      PlainBody(plain[1..], rest);
    }
  }

  lemma EscapeBody(escape: Bytes, rest: Bytes)
    requires |escape| >= 2 && escape[0] == BACKSLASH
    requires forall k :: 2 <= k < |escape| ==> escape[k] != QUOTE && escape[k] != BACKSLASH
    ensures BodyEnd(escape + rest) == |escape| + BodyEnd(rest)
  {
    assert (escape + rest)[2..] == escape[2..] + rest;
    PlainBody(escape[2..], rest);
  }

  lemma HeadBody(s: Bytes, rest: Bytes)
    requires s != []
    ensures BodyEnd(EscapedHead(s) + rest) == |EscapedHead(s)| + BodyEnd(rest)
  {
    var head := EscapedHead(s);
    if head[0] == BACKSLASH {
      EscapeBody(head, rest);
    } else {
      PlainBody(head, rest);
    }
  }

  lemma {:induction false} EscapedBody(s: Bytes, rest: Bytes)
    ensures BodyEnd(Escaped(s) + rest) == |Escaped(s)| + BodyEnd(rest)
    decreases |s|
  {
    if s == [] {
      assert Escaped(s) + rest == rest;
    } else {
      var tail := Escaped(s[DecodedSize(s)..]);
      EscapedBody(s[DecodedSize(s)..], rest);
      HeadBody(s, tail + rest);
      assert Escaped(s) + rest == EscapedHead(s) + (tail + rest);
    }
  }

  lemma StringReads(body: Bytes, text: Bytes, rest: Bytes)
    requires BodyEnd(body + ([QUOTE] + rest)) == |body| && Unescaped(body) == Some(text)
    ensures ReadString(body + [QUOTE] + rest) == Some((text, rest))
  {
    var t := body + [QUOTE] + rest;
    assert t == body + ([QUOTE] + rest);
    assert t[..|body|] == body && t[|body| + 1..] == rest;
  }

  lemma QuotedDenotes(s: Bytes)
    ensures Denotes(Quoted(s), Text(Coerced(s)))
  {
    forall rest
      ensures ReadsBefore(Quoted(s), Text(Coerced(s)), rest)
    {
      QuotedReads(s, rest);
    }
  }

  lemma QuotedReads(s: Bytes, rest: Bytes)
    ensures ReadValue(Quoted(s) + rest) == Some((Text(Coerced(s)), rest))
  {
    EscapedBody(s, [QUOTE] + rest);
    StringRoundTrip(s);
    StringReads(Escaped(s), Coerced(s), rest);
    QuoteOpens(Escaped(s), rest);
  }

  lemma QuoteOpens(body: Bytes, rest: Bytes)
    ensures ([QUOTE] + body + [QUOTE] + rest)[1..] == body + [QUOTE] + rest
  {
  }

  // ----- Integers and booleans -----

  lemma {:induction false} DigitsReads(digits: Bytes, rest: Bytes)
    requires forall k :: 0 <= k < |digits| ==> 48 <= digits[k] <= 57
    requires Ends(rest)
    ensures DigitsEnd(digits + rest) == |digits|
  {
    if digits == [] {
      assert digits + rest == rest;
    } else {
      assert (digits + rest)[1..] == digits[1..] + rest;
      DigitsReads(digits[1..], rest);
    }
  }

  lemma DecimalDenotes(n: Int64)
    ensures Denotes(Decimal(n), Number(n))
  {
    forall rest
      ensures ReadsBefore(Decimal(n), Number(n), rest)
    {
      if Ends(rest) {
        DecimalReads(n, rest);
      }
    }
  }

  lemma DecimalReads(n: Int64, rest: Bytes)
    requires Ends(rest)
    ensures ReadValue(Decimal(n) + rest) == Some((Number(n), rest))
  {
    var magnitude: nat := if n < 0 then -(n as int) else n;
    var t, d := Decimal(n) + rest, Decimal(n);
    DigitsAreDigits(magnitude);
    DigitsReads(Digits(magnitude), rest);
    DecimalRoundTrip(n);
    var sign := if n < 0 then 1 else 0;
    assert t[sign..] == Digits(magnitude) + rest;
    assert t[..|d|] == d && t[|d|..] == rest;
    NotAWord(t);
  }

  /** A number is not taken for a boolean. */
  lemma NotAWord(t: Bytes)
    requires t != [] && (t[0] == 45 || 48 <= t[0] <= 57)
    ensures ReadValue(t) == ReadNumber(t)
  {
    assert TRUE[0] == 116 && FALSE[0] == 102;
    assert |t| >= 4 ==> t[..4][0] == t[0];
    assert |t| >= 5 ==> t[..5][0] == t[0];
  }

  lemma BooleanDenotes(b: bool)
    ensures Denotes(Boolean(b), Truth(b))
  {
    forall rest
      ensures ReadsBefore(Boolean(b), Truth(b), rest)
    {
      var t := Boolean(b) + rest;
      assert TRUE[0] == 116 && FALSE[0] == 102;
      if b {
        assert t[..4] == TRUE && t[4..] == rest;
      } else {
        assert t[..5] == FALSE && t[5..] == rest;
        assert t[..4][0] == 102;
      }
    }
  }

  // ----- Arrays -----

  ghost predicate AllDenote(texts: seq<Bytes>, values: seq<Value>) {
    |texts| == |values| && forall i :: 0 <= i < |texts| ==> Denotes(texts[i], values[i])
  }

  lemma {:induction false} ItemsRead(texts: seq<Bytes>, values: seq<Value>, before: seq<Value>, rest: Bytes)
    requires texts != [] && AllDenote(texts, values)
    ensures ReadItems(Joined(texts) + [93] + rest, before) == Some((List(before + values), rest))
    decreases |texts|
  {
    if |texts| == 1 {
      assert ReadsBefore(texts[0], values[0], [93] + rest);
      assert Joined(texts) + [93] + rest == texts[0] + ([93] + rest);
      assert before + values == before + [values[0]];
      assert ([93] + rest)[1..] == rest;
    } else {
      var tail := Joined(texts[1..]) + [93] + rest;
      assert ReadsBefore(texts[0], values[0], [COMMA] + tail);
      assert Joined(texts) + [93] + rest == texts[0] + ([COMMA] + tail);
      assert ([COMMA] + tail)[1..] == tail;
      ItemsRead(texts[1..], values[1..], before + [values[0]], rest);
      assert before + [values[0]] + values[1..] == before + values;
    }
  }

  lemma ArrayDenotes(texts: seq<Bytes>, values: seq<Value>)
    requires AllDenote(texts, values)
    requires forall i :: 0 <= i < |texts| ==> texts[i] != [] && texts[i][0] != 93
    ensures Denotes(Array(texts), List(values))
  {
    forall rest
      ensures ReadsBefore(Array(texts), List(values), rest)
    {
      var t := Array(texts) + rest;
      if texts == [] {
        assert t[2..] == rest;
      } else {
        ItemsRead(texts, values, [], rest);
        assert t[1..] == Joined(texts) + [93] + rest;
        assert Joined(texts)[0] == texts[0][0];
        assert [] + values == values;
      }
    }
  }

  // ----- Objects -----

  predicate ContinuesAs(acc: Bytes, members: seq<Member>, t: Bytes) {
    && ReadValue(acc + [COMMA] + t) == ReadMembers(t, members)
    && ReadValue(acc + [125] + t) == Some((Object(members), t))
  }

  /** The text of an object so far, which has exactly these members and can be closed or continued. */
  ghost predicate Opens(acc: Bytes, members: seq<Member>) {
    acc != [] && forall t :: ContinuesAs(acc, members, t)
  }

  /** As Opens, or nothing written yet. */
  ghost predicate Before(acc: Bytes, members: seq<Member>) {
    (acc == [] && members == []) || Opens(acc, members)
  }

  predicate PlainKey(key: string) {
    forall k :: 0 <= k < |key| ==> 'a' <= key[k] <= 'z' || key[k] == '_'
  }

  lemma {:induction false} SafeReads(body: Bytes)
    requires forall k :: 0 <= k < |body| ==> Safe(body[k])
    ensures Unescaped(body) == Some(body)
  {
    if body != [] {
      SafeReads(body[1..]);
      assert [body[0]] + body[1..] == body;
    }
  }

  lemma KeyReads(key: string, rest: Bytes)
    requires PlainKey(key)
    ensures ReadString(Ascii(key) + [QUOTE] + rest) == Some((Ascii(key), rest))
  {
    var body := Ascii(key);
    forall k | 0 <= k < |body|
      ensures Safe(body[k]) && body[k] != QUOTE && body[k] != BACKSLASH
    {
      assert body[k] == key[k] as int % 128;
    }
    SafeReads(body);
    PlainBody(body, [QUOTE] + rest);
    StringReads(body, body, rest);
  }

  function MemberText(key: string, text: Bytes): Bytes {
    [QUOTE] + Ascii(key) + [QUOTE, 58] + text
  }

  /** What the reader makes of the members so far once it sees what follows them. */
  function Followed(members: seq<Member>, follow: Bytes): Read<Value>
    requires follow != []
  {
    if follow[0] == COMMA then ReadMembers(follow[1..], members)
    else if follow[0] == 125 then Some((Object(members), follow[1..]))
    else None
  }

  lemma MemberSplits(key: string, text: Bytes, follow: Bytes)
    ensures (MemberText(key, text) + follow)[1..] == Ascii(key) + [QUOTE] + ([58] + text + follow)
    ensures ([58] + text + follow)[1..] == text + follow
  {
  }

  /** One member and what follows it. */
  lemma MemberReads(key: string, text: Bytes, v: Value, members: seq<Member>, follow: Bytes)
    requires PlainKey(key) && Denotes(text, v) && follow != [] && Ends(follow)
    ensures ReadMembers(MemberText(key, text) + follow, members)
            == Followed(members + [Member(Ascii(key), v)], follow)
  {
    MemberSplits(key, text, follow);
    KeyReads(key, [58] + text + follow);
    assert ReadsBefore(text, v, follow);
  }

  lemma PutSplits(acc: Bytes, key: string, text: Bytes, follow: Bytes)
    ensures acc == [] ==> Put(acc, key, text) + follow == [123] + (MemberText(key, text) + follow)
    ensures acc != [] ==> Put(acc, key, text) + follow == acc + [COMMA] + (MemberText(key, text) + follow)
  {
  }

  lemma BraceReads(t: Bytes)
    requires t != [] && t[0] == QUOTE
    ensures ReadValue([123] + t) == ReadMembers(t, [])
  {
    assert ([123] + t)[1..] == t;
  }

  lemma PutContinues(acc: Bytes, members: seq<Member>, key: string, text: Bytes, v: Value, follow: Bytes)
    requires Before(acc, members) && PlainKey(key) && Denotes(text, v) && follow != [] && Ends(follow)
    ensures ReadValue(Put(acc, key, text) + follow) == Followed(members + [Member(Ascii(key), v)], follow)
  {
    PutSplits(acc, key, text, follow);
    MemberReads(key, text, v, members, follow);
    if acc == [] {
      BraceReads(MemberText(key, text) + follow);
    } else {
      assert ContinuesAs(acc, members, MemberText(key, text) + follow);
    }
  }

  lemma PutOpens(acc: Bytes, members: seq<Member>, key: string, text: Bytes, v: Value)
    requires Before(acc, members) && PlainKey(key) && Denotes(text, v)
    ensures Before(Put(acc, key, text), members + [Member(Ascii(key), v)])
  {
    forall t
      ensures ContinuesAs(Put(acc, key, text), members + [Member(Ascii(key), v)], t)
    {
      PutContinues(acc, members, key, text, v, [COMMA] + t);
      PutContinues(acc, members, key, text, v, [125] + t);
      FollowedBy(Put(acc, key, text), members + [Member(Ascii(key), v)], t);
    }
  }

  lemma FollowedBy(put: Bytes, longer: seq<Member>, t: Bytes)
    requires ReadValue(put + ([COMMA] + t)) == Followed(longer, [COMMA] + t)
    requires ReadValue(put + ([125] + t)) == Followed(longer, [125] + t)
    ensures ContinuesAs(put, longer, t)
  {
    assert ([COMMA] + t)[1..] == t && ([125] + t)[1..] == t;
    assert put + [COMMA] + t == put + ([COMMA] + t) && put + [125] + t == put + ([125] + t);
  }

  function Unless(empty: bool, member: Member): seq<Member> {
    if empty then [] else [member]
  }

  lemma PutUnlessReads(empty: bool, acc: Bytes, members: seq<Member>, key: string, text: Bytes, v: Value)
    requires Before(acc, members) && PlainKey(key) && (!empty ==> Denotes(text, v))
    ensures Before(PutUnless(empty, acc, key, text), members + Unless(empty, Member(Ascii(key), v)))
  {
    if empty {
      assert members + [] == members;
    } else {
      PutOpens(acc, members, key, text, v);
    }
  }

  lemma ClosedDenotes(acc: Bytes, members: seq<Member>)
    requires Before(acc, members)
    ensures Denotes(Closed(acc), Object(members))
  {
    forall rest
      ensures ReadsBefore(Closed(acc), Object(members), rest)
    {
      var t := Closed(acc) + rest;
      if acc == [] {
        assert t[2..] == rest;
      } else {
        assert ContinuesAs(acc, members, rest);
        assert t == acc + [125] + rest;
      }
    }
  }
}
