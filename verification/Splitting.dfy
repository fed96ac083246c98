/** strings.Split and strings.Join with a one-character separator. */
module Splitting {

  /** One more character in front of split parts. */
  function Prepended(c: char, parts: seq<string>, sep: char): seq<string>
    requires parts != []
  {
    if c == sep then [""] + parts else [[c] + parts[0]] + parts[1..]
  }

  function SplitOn(s: string, sep: char): (parts: seq<string>)
    ensures |parts| >= 1
  {
    if s == "" then [""] else Prepended(s[0], SplitOn(s[1..], sep), sep)
  }

  function JoinWith(parts: seq<string>, sep: string): string {
    if parts == [] then ""
    else if |parts| == 1 then parts[0]
    else parts[0] + sep + JoinWith(parts[1..], sep)
  }

  predicate AllFreeOf(parts: seq<string>, sep: char) {
    forall i :: 0 <= i < |parts| ==> sep !in parts[i]
  }

  lemma {:induction false} SplitIsFree(s: string, sep: char)
    ensures AllFreeOf(SplitOn(s, sep), sep)
  {
    if s != "" {
      SplitIsFree(s[1..], sep);
      var rest := SplitOn(s[1..], sep);
      if s[0] != sep {
        assert sep !in rest[0];
      }
    }
  }

  lemma {:induction false} JoinOfSplit(s: string, sep: char)
    ensures JoinWith(SplitOn(s, sep), [sep]) == s
  {
    if s != "" {
      JoinOfSplit(s[1..], sep);
      var rest := SplitOn(s[1..], sep);
      if s[0] == sep {
        assert ([""] + rest)[1..] == rest;
      } else {
        var parts := [[s[0]] + rest[0]] + rest[1..];
        assert parts[1..] == rest[1..];
      }
    }
  }

  /** A prefix without separators joins the first part. */
  lemma {:induction false} SplitOfPrefixed(s: string, t: string, sep: char)
    requires sep !in s
    ensures SplitOn(s + t, sep) == [s + SplitOn(t, sep)[0]] + SplitOn(t, sep)[1..]
  {
    var parts := SplitOn(t, sep);
    if s == "" {
      assert s + t == t;
      assert s + parts[0] == parts[0];
      assert [parts[0]] + parts[1..] == parts;
    } else {
      assert s[0] in s;
      SplitOfPrefixed(s[1..], t, sep);
      assert (s + t)[1..] == s[1..] + t;
      var rest := SplitOn(s[1..] + t, sep);
      assert rest[1..] == parts[1..];
      assert [s[0]] + (s[1..] + parts[0]) == s + parts[0];
    }
  }

  lemma SplitOfOne(s: string, sep: char)
    requires sep !in s
    ensures SplitOn(s, sep) == [s]
  {
    SplitOfPrefixed(s, "", sep);
    assert s + "" == s;
  }

  /** A string joined at a separator splits there. */
  lemma {:induction false} SplitOfJoined(s: string, t: string, sep: char)
    ensures SplitOn(s + [sep] + t, sep) == SplitOn(s, sep) + SplitOn(t, sep)
  {
    var all := s + [sep] + t;
    if s == "" {
      assert all[0] == sep && all[1..] == t;
    } else {
      SplitOfJoined(s[1..], t, sep);
      assert all[0] == s[0] && all[1..] == s[1..] + [sep] + t;
      PrependedConcat(s[0], SplitOn(s[1..], sep), SplitOn(t, sep), sep);
    }
  }

  lemma PrependedConcat(c: char, left: seq<string>, right: seq<string>, sep: char)
    requires left != []
    ensures Prepended(c, left + right, sep) == Prepended(c, left, sep) + right
  {
    if c != sep {
      assert (left + right)[1..] == left[1..] + right;
    }
  }

  lemma {:induction false} SplitOfJoin(parts: seq<string>, sep: char)
    requires parts != [] && AllFreeOf(parts, sep)
    ensures SplitOn(JoinWith(parts, [sep]), sep) == parts
  {
    SplitOfOne(parts[0], sep);
    if |parts| > 1 {
      assert AllFreeOf(parts[1..], sep);
      SplitOfJoin(parts[1..], sep);
      SplitOfJoined(parts[0], JoinWith(parts[1..], [sep]), sep);
      assert parts == [parts[0]] + parts[1..];
    }
  }

  /** `text` is the parts with `sep` between neighbours: nothing for no part, the one part, or the first, the
      separator and the others joined. */
  ghost predicate IsJoined(parts: seq<string>, sep: string, text: string) {
    if parts == [] then text == ""
    else if |parts| == 1 then text == parts[0]
    else exists rest :: IsJoined(parts[1..], sep, rest) && text == parts[0] + sep + rest
  }

  lemma {:induction false} JoinedIffIs(parts: seq<string>, sep: string, text: string)
    ensures IsJoined(parts, sep, text) <==> text == JoinWith(parts, sep)
  {
    if |parts| > 1 {
      var rest := JoinWith(parts[1..], sep);
      JoinedIffIs(parts[1..], sep, rest);
      if IsJoined(parts, sep, text) {
        var other :| IsJoined(parts[1..], sep, other) && text == parts[0] + sep + other;
        JoinedIffIs(parts[1..], sep, other);
      }
    }
  }
}
