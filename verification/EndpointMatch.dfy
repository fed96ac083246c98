/**
 The Format2 path pattern language: patterns with {name} captures and * wildcards, the matcher over
 cleaned request paths, and the capture extractor, against the meaning of a pattern as the set of paths
 it can be filled in to.
 */
module EndpointMatch {
  import opened Wrappers
  import opened Splitting
  import opened Paths

  predicate IsCapture(part: string) {
    |part| >= 2 && part[0] == '{' && part[|part| - 1] == '}'
  }

  function CaptureName(part: string): string
    requires IsCapture(part)
  {
    part[1..|part| - 1]
  }

  predicate HasBrace(part: string) {
    '{' in part || '}' in part
  }

  // ----- The matcher and the extractor -----

  /** Only the matcher reads the empty request path as the root. */
  function Effective(requestPath: string): string {
    if requestPath == "" then "/" else requestPath
  }

  predicate SegmentMatches(part: string, segment: string) {
    IsCapture(part) || part == "*" || (!HasBrace(part) && segment == part)
  }

  predicate SegmentsMatch(parts: seq<string>, segments: seq<string>) {
    |segments| == |parts| && forall i :: 0 <= i < |parts| ==> SegmentMatches(parts[i], segments[i])
  }

  /** matchEndpoint over the prepared pattern parts; unprepared endpoints have none and never match. */
  predicate Match(requestPath: string, parts: seq<string>) {
    parts != [] && SegmentsMatch(parts, Split(Clean(Effective(requestPath))))
  }

  /** Every capture segment has a request segment to read. */
  predicate InRange(parts: seq<string>, segments: seq<string>) {
    forall i :: 0 <= i < |parts| && IsCapture(parts[i]) ==> i < |segments|
  }

  function CapturesUpTo(parts: seq<string>, segments: seq<string>, n: nat): map<string, string>
    requires n <= |parts| && InRange(parts, segments)
  {
    if n == 0 then map[]
    else
      var before := CapturesUpTo(parts, segments, n - 1);
      if IsCapture(parts[n - 1]) then before[CaptureName(parts[n - 1]) := segments[n - 1]] else before
  }

  /** The captured values, or None where the extractor indexes past the request segments and panics. */
  function Extracted(requestPath: string, parts: seq<string>): Option<map<string, string>> {
    var segments := Split(Clean(requestPath));
    if InRange(parts, segments) then Some(CapturesUpTo(parts, segments, |parts|)) else None
  }

  method ExtractPathCaptures(requestPath: string, parts: seq<string>) returns (captured: Option<map<string, string>>)
    ensures captured == Extracted(requestPath, parts)
  {
    var segments := Split(Clean(requestPath));
    var values: map<string, string> := map[];
    var i := 0;
    while i < |parts|
      invariant 0 <= i <= |parts|
      invariant forall k :: 0 <= k < i && IsCapture(parts[k]) ==> k < |segments|
      invariant InRange(parts, segments) ==> values == CapturesUpTo(parts, segments, i)
    {
      if IsCapture(parts[i]) {
        if i >= |segments| {
          return None;
        }
        values := values[CaptureName(parts[i]) := segments[i]];
      }
      i := i + 1;
    }
    captured := Some(values);
  }

  // ----- Patterns and what they stand for -----

  predicate Letter(c: char) {
    'a' <= c <= 'z' || 'A' <= c <= 'Z'
  }

  predicate ValidName(name: string) {
    name != "" && forall i :: 0 <= i < |name| ==>
      Letter(name[i]) || (i > 0 && ('0' <= name[i] <= '9' || name[i] == '_'))
  }

  predicate ValidPart(part: string) {
    HasBrace(part) ==> |part| >= 3 && IsCapture(part) && ValidName(CaptureName(part))
  }

  /** No two of the first n parts capture the same name. */
  predicate DistinctCaptures(parts: seq<string>, n: nat)
    requires n <= |parts|
  {
    forall i, j :: 0 <= i < j < n && IsCapture(parts[i]) && IsCapture(parts[j]) ==>
      CaptureName(parts[i]) != CaptureName(parts[j])
  }

  /** What validation accepts of an endpoint path's segments. */
  predicate ValidParts(parts: seq<string>) {
    (forall i :: 0 <= i < |parts| ==> ValidPart(parts[i])) && DistinctCaptures(parts, |parts|)
  }

  function CaptureNames(parts: seq<string>): set<string> {
    set i | 0 <= i < |parts| && IsCapture(parts[i]) :: CaptureName(parts[i])
  }

  function Wildcards(parts: seq<string>): set<nat> {
    set i: nat | i < |parts| && parts[i] == "*"
  }

  /** Slash-free values for exactly the captures and wildcards of a pattern. */
  predicate Assignment(parts: seq<string>, named: map<string, string>, wild: map<nat, string>) {
    && named.Keys == CaptureNames(parts)
    && wild.Keys == Wildcards(parts)
    && (forall name :: name in named ==> SlashFree(named[name]))
    && (forall i :: i in wild ==> SlashFree(wild[i]))
  }

  /** The pattern with its captures and wildcards replaced by values. */
  function Filled(parts: seq<string>, named: map<string, string>, wild: map<nat, string>): (segments: seq<string>)
    requires Assignment(parts, named, wild)
    ensures |segments| == |parts|
  {
    seq(|parts|, i requires 0 <= i < |parts| =>
      if IsCapture(parts[i]) then named[CaptureName(parts[i])]
      else if parts[i] == "*" then wild[i]
      else parts[i])
  }

  ghost predicate Instance(parts: seq<string>, named: map<string, string>, wild: map<nat, string>, p: string) {
    Assignment(parts, named, wild) && Join(Filled(parts, named, wild)) == p
  }

  lemma InstanceSegments(parts: seq<string>, named: map<string, string>, wild: map<nat, string>, p: string)
    requires parts != [] && AllSlashFree(parts) && Instance(parts, named, wild, p)
    ensures Split(p) == Filled(parts, named, wild)
  {
    SplitOfJoin(Filled(parts, named, wild), '/');
  }

  /** The values a list of segments gives to each capture and wildcard. */
  lemma ReadBack(parts: seq<string>, segments: seq<string>) returns (named: map<string, string>, wild: map<nat, string>)
    requires ValidParts(parts) && SegmentsMatch(parts, segments) && AllSlashFree(segments)
    ensures Assignment(parts, named, wild) && Filled(parts, named, wild) == segments
    ensures named == CapturesUpTo(parts, segments, |parts|)
  {
    named := CapturesUpTo(parts, segments, |parts|);
    wild := map i: nat | i < |parts| && parts[i] == "*" :: segments[i];
    CapturesExact(parts, segments, |parts|);
    assert forall i :: 0 <= i < |parts| ==> Filled(parts, named, wild)[i] == segments[i];
  }

  lemma {:induction false} CapturesExact(parts: seq<string>, segments: seq<string>, n: nat)
    requires n <= |parts| && InRange(parts, segments) && DistinctCaptures(parts, n)
    ensures var m := CapturesUpTo(parts, segments, n);
            && m.Keys == CaptureNames(parts[..n])
            && (forall i :: 0 <= i < n && IsCapture(parts[i]) ==> m[CaptureName(parts[i])] == segments[i])
            && (AllSlashFree(segments) ==> forall name :: name in m ==> SlashFree(m[name]))
  {
    if n > 0 {
      CapturesExact(parts, segments, n - 1);
      var before, part := parts[..n - 1], parts[n - 1];
      assert parts[..n] == before + [part];
      var added := if IsCapture(part) then {CaptureName(part)} else {};
      assert CaptureNames(parts[..n]) == CaptureNames(before) + added by {
        forall name
          ensures name in CaptureNames(parts[..n])
                  <==> name in CaptureNames(before) || (IsCapture(part) && name == CaptureName(part))
        {
          if name in CaptureNames(before) {
            var i :| 0 <= i < |before| && IsCapture(before[i]) && CaptureName(before[i]) == name;
            assert parts[..n][i] == before[i];
          }
          if IsCapture(part) && name == CaptureName(part) {
            assert parts[..n][n - 1] == part;
          }
        }
      }
      forall i | 0 <= i < n - 1 && IsCapture(parts[i])
        ensures CaptureName(parts[i]) in CaptureNames(before)
      {
        assert before[i] == parts[i];
      }
    } else {
      assert parts[..0] == [];
    }
  }

  /** The matcher decides the meaning: a validated pattern matches a request path if and only if some
      assignment of slash-free values, substituted into the pattern, gives the cleaned path. */
  lemma MatchIffInstance(requestPath: string, pattern: string)
    requires ValidParts(Split(pattern))
    ensures Match(requestPath, Split(pattern)) <==>
            exists named, wild :: Instance(Split(pattern), named, wild, Clean(Effective(requestPath)))
  {
    var parts, p := Split(pattern), Clean(Effective(requestPath));
    SplitIsFree(pattern, '/');
    SplitIsFree(p, '/');
    if Match(requestPath, parts) {
      var named, wild := ReadBack(parts, Split(p));
      JoinOfSplit(p, '/');
      assert Instance(parts, named, wild, p);
    }
    forall named, wild | Instance(parts, named, wild, p)
      ensures Match(requestPath, parts)
    {
      InstanceSegments(parts, named, wild, p);
    }
  }

  /** A path is an instance of a pattern in at most one way. */
  lemma InstanceUnique(pattern: string, p: string, named: map<string, string>, wild: map<nat, string>,
                       named': map<string, string>, wild': map<nat, string>)
    requires Instance(Split(pattern), named, wild, p) && Instance(Split(pattern), named', wild', p)
    ensures named == named' && wild == wild'
  {
    var parts := Split(pattern);
    SplitIsFree(pattern, '/');
    InstanceSegments(parts, named, wild, p);
    InstanceSegments(parts, named', wild', p);
    var segments := Split(p);
    forall name | name in named
      ensures named[name] == named'[name]
    {
      var i :| 0 <= i < |parts| && IsCapture(parts[i]) && CaptureName(parts[i]) == name;
      assert segments[i] == named[name] && segments[i] == named'[name];
    }
    forall i | i in wild
      ensures wild[i] == wild'[i]
    {
      assert segments[i] == wild[i] && segments[i] == wild'[i];
    }
  }

  /** On a non-empty matched path the extractor stays in range and returns exactly that assignment. */
  lemma ExtractedIsTheAssignment(requestPath: string, pattern: string,
                                 named: map<string, string>, wild: map<nat, string>)
    requires ValidParts(Split(pattern)) && requestPath != ""
    requires Instance(Split(pattern), named, wild, Clean(requestPath))
    ensures Extracted(requestPath, Split(pattern)) == Some(named)
  {
    var parts, p := Split(pattern), Clean(requestPath);
    MatchIffInstance(requestPath, pattern);
    assert SegmentsMatch(parts, Split(p));
    SplitIsFree(p, '/');
    var named', wild' := ReadBack(parts, Split(p));
    JoinOfSplit(p, '/');
    InstanceUnique(pattern, p, named, wild, named', wild');
  }

  /** On any matched path the extractor is in range unless the path is empty and the pattern's last
      segment is a capture: only the matcher reads the empty path as "/". */
  lemma ExtractionInRangeIff(requestPath: string, parts: seq<string>)
    requires Match(requestPath, parts)
    ensures Extracted(requestPath, parts).Some? <==> requestPath != "" || !IsCapture(parts[|parts| - 1])
  {
    if requestPath == "" {
      CleanOfEmpty();
    }
  }

  lemma CleanOfEmpty()
    ensures Split(Clean("")) == ["."] && Split(Clean("/")) == ["", ""]
  {
    assert Resolve([], [""], false) == Resolve([], [""][1..], false);
    assert Split("/") == ["", ""] by {
      assert Split("") == [""];
      assert "/"[1..] == "";
    }
    assert Resolve([], ["", ""], true) == Resolve([], ["", ""][1..], true);
    assert Resolve([], [""], true) == Resolve([], [""][1..], true);
    assert Clean("") == "." && Clean("/") == "/";
    SplitOfOne(".", '/');
  }

  /** An accepted pattern that matches the empty path but finds no segment to extract there. What a server in
      front of the handlers makes of an empty path is not modelled. */
  lemma EmptyPathPanics()
    ensures Split("/{t}") == ["", "{t}"]
    ensures ValidParts(["", "{t}"])
    ensures Match("", ["", "{t}"]) && Extracted("", ["", "{t}"]).None?
  {
    var parts := ["", "{t}"];
    SplitOfOne("{t}", '/');
    SplitOfJoined("", "{t}", '/');
    assert "" + "/" + "{t}" == "/{t}";
    CleanOfEmpty();
    assert IsCapture(parts[1]) && CaptureName(parts[1]) == "t";
    assert Match("", parts);
    ExtractionInRangeIff("", parts);
  }

  // ----- Consequences -----

  /** After validation the matcher's malformed-brace branch is dead. */
  lemma ValidatedPartsAreClean(parts: seq<string>, i: nat)
    requires ValidParts(parts) && i < |parts|
    ensures IsCapture(parts[i]) || !HasBrace(parts[i])
    ensures IsCapture(parts[i]) ==> !HasBrace(CaptureName(parts[i])) && CaptureName(parts[i]) != ""
  {
    if IsCapture(parts[i]) {
      assert parts[i][0] == '{' && HasBrace(parts[i]);
      var name := CaptureName(parts[i]);
      if HasBrace(name) {
        var k :| 0 <= k < |name| && (name[k] == '{' || name[k] == '}');
        assert false;
      }
    }
  }

  /** Matching and captures depend only on the cleaned path. */
  lemma OnlyCleanedPathMatters(p: string, q: string, parts: seq<string>)
    requires p != "" && q != "" && Clean(p) == Clean(q)
    ensures Match(p, parts) == Match(q, parts)
    ensures Extracted(p, parts) == Extracted(q, parts)
    ensures Match(Clean(p), parts) == Match(p, parts)
    ensures Extracted(Clean(p), parts) == Extracted(p, parts)
  {
    CleanIdempotent(p);
    CleanKeepsRoot(p);
  }

  /** A pattern that starts with a slash matches only rooted paths. */
  lemma RootedPatternMatchesRootedPath(p: string, pattern: string)
    requires p != "" && Rooted(pattern) && Match(p, Split(pattern))
    ensures Rooted(p)
  {
    var parts := Split(pattern);
    assert parts[0] == "";
    if !Rooted(p) {
      ElementsNormal(p);
      SplitRendered(Elements(p), false);
      assert false;
    }
  }

  /** Captured values are single ordinary path segments; one is empty only for the root path. */
  lemma CapturedValuesAreSegments(p: string, pattern: string, name: string)
    requires ValidParts(Split(pattern)) && Rooted(pattern) && p != "" && Match(p, Split(pattern))
    requires name in Extracted(p, Split(pattern)).value
    ensures var v := Extracted(p, Split(pattern)).value[name];
            SlashFree(v) && v != "." && v != ".." && (v == "" ==> Clean(p) == "/")
  {
    var parts := Split(pattern);
    RootedPatternMatchesRootedPath(p, pattern);
    CleanSegments(p);
    var segments := Split(Clean(p));
    CapturesExact(parts, segments, |parts|);
    assert parts[..|parts|] == parts;
    var i :| 0 <= i < |parts| && IsCapture(parts[i]) && CaptureName(parts[i]) == name;
    assert parts[0] == "";
    SplitIsFree(Clean(p), '/');
    assert segments[i] == Extracted(p, parts).value[name];
  }

  // ----- Segment by segment -----

  predicate IsNamed(part: string, name: string) {
    part == "{" + name + "}"
  }

  lemma CaptureMeansNamed(part: string)
    ensures IsCapture(part) <==> exists name :: IsNamed(part, name)
    ensures forall name :: IsNamed(part, name) ==> IsCapture(part) && CaptureName(part) == name
    ensures IsCapture(part) ==> IsNamed(part, CaptureName(part))
  {
    if IsCapture(part) {
      assert part == "{" + CaptureName(part) + "}";
      assert IsNamed(part, CaptureName(part));
    }
  }

  /** A validated pattern matches a path if and only if, after cleaning, both have the same number of segments
      and each pattern segment is a capture, a star, or the path's own segment. */
  lemma MatchSegmentwise(requestPath: string, parts: seq<string>)
    requires ValidParts(parts) && parts != []
    ensures var segments := Split(Clean(if requestPath == "" then "/" else requestPath));
            Match(requestPath, parts)
            <==> && |segments| == |parts|
                 && forall i :: 0 <= i < |parts| ==>
                      (exists name :: IsNamed(parts[i], name)) || parts[i] == "*" || parts[i] == segments[i]
  {
    forall i | 0 <= i < |parts|
      ensures IsCapture(parts[i]) <==> exists name :: IsNamed(parts[i], name)
      ensures IsCapture(parts[i]) || !HasBrace(parts[i])
    {
      CaptureMeansNamed(parts[i]);
      ValidatedPartsAreClean(parts, i);
    }
  }

  /** On a matched non-empty path the extractor maps every capture name to the path segment in its place, and
      nothing else. */
  lemma CapturesAreTheirSegments(p: string, pattern: string)
    requires ValidParts(Split(pattern)) && p != "" && Match(p, Split(pattern))
    ensures var parts, segments, captured := Split(pattern), Split(Clean(p)), Extracted(p, Split(pattern));
            && captured.Some? && |segments| == |parts|
            && (forall i, name :: 0 <= i < |parts| && IsNamed(parts[i], name) ==>
                  name in captured.value && captured.value[name] == segments[i])
            && (forall name :: name in captured.value ==> exists i :: 0 <= i < |parts| && IsNamed(parts[i], name))
  {
    var parts, segments := Split(pattern), Split(Clean(p));
    CapturesExact(parts, segments, |parts|);
    assert parts[..|parts|] == parts;
    forall i | 0 <= i < |parts|
      ensures forall name :: IsNamed(parts[i], name) ==> IsCapture(parts[i]) && CaptureName(parts[i]) == name
      ensures IsCapture(parts[i]) ==> IsNamed(parts[i], CaptureName(parts[i]))
    {
      CaptureMeansNamed(parts[i]);
    }
    var captured := CapturesUpTo(parts, segments, |parts|);
    forall name | name in captured
      ensures exists i :: 0 <= i < |parts| && IsNamed(parts[i], name)
    {
      var i :| 0 <= i < |parts| && IsCapture(parts[i]) && CaptureName(parts[i]) == name;
      assert IsNamed(parts[i], name);
    }
  }
}
