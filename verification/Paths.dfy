/**
 Slash-separated paths: splitting, joining, and cleaning in the sense of Go's path.Clean. A path is a
 sequence of bytes held as characters; only '/' and '.' matter here.
 */
module Paths {

  import opened Splitting

  predicate SlashFree(s: string) {
    '/' !in s
  }

  predicate AllSlashFree(parts: seq<string>) {
    AllFreeOf(parts, '/')
  }

  function Split(s: string): (parts: seq<string>)
    ensures |parts| >= 1
  {
    SplitOn(s, '/')
  }

  function Join(parts: seq<string>): string {
    JoinWith(parts, "/")
  }

  // ----- Cleaning -----

  predicate Rooted(p: string) {
    p != "" && p[0] == '/'
  }

  /** One element: empty and "." vanish, ".." removes the element before it or, at the root, vanishes. */
  function Push(stack: seq<string>, segment: string, rooted: bool): seq<string> {
    if segment == "" || segment == "." then stack
    else if segment == ".." then
      if stack != [] && stack[|stack| - 1] != ".." then stack[..|stack| - 1]
      else if rooted then stack
      else stack + [segment]
    else stack + [segment]
  }

  function Resolve(stack: seq<string>, segments: seq<string>, rooted: bool): seq<string>
    decreases |segments|
  {
    if segments == [] then stack else Resolve(Push(stack, segments[0], rooted), segments[1..], rooted)
  }

  function Elements(p: string): seq<string> {
    Resolve([], Split(p), Rooted(p))
  }

  function Rendered(stack: seq<string>, rooted: bool): string {
    if rooted then "/" + Join(stack) else if stack == [] then "." else Join(stack)
  }

  /** path.Clean. */
  function Clean(p: string): string {
    Rendered(Elements(p), Rooted(p))
  }

  predicate Ordinary(segment: string) {
    segment != "" && segment != "." && segment != ".." && SlashFree(segment)
  }

  /** A resolved element list: ordinary elements, after leading ".." elements when the path is relative. */
  predicate Normal(stack: seq<string>, rooted: bool) {
    forall i :: 0 <= i < |stack| ==>
      || Ordinary(stack[i])
      || (!rooted && stack[i] == ".." && forall j :: 0 <= j < i ==> stack[j] == "..")
  }

  lemma PushIsNormal(stack: seq<string>, segment: string, rooted: bool)
    requires Normal(stack, rooted) && SlashFree(segment)
    ensures Normal(Push(stack, segment, rooted), rooted)
  {
    if segment == ".." && !rooted && (stack == [] || stack[|stack| - 1] == "..") {
      if stack != [] {
        assert forall j :: 0 <= j < |stack| - 1 ==> stack[j] == "..";
      }
    }
  }

  lemma {:induction false} ResolveIsNormal(stack: seq<string>, segments: seq<string>, rooted: bool)
    requires Normal(stack, rooted) && AllSlashFree(segments)
    ensures Normal(Resolve(stack, segments, rooted), rooted)
    decreases |segments|
  {
    if segments != [] {
      PushIsNormal(stack, segments[0], rooted);
      ResolveIsNormal(Push(stack, segments[0], rooted), segments[1..], rooted);
    }
  }

  /** Resolving elements that are already normal only appends them. */
  lemma {:induction false} ResolveNormal(stack: seq<string>, segments: seq<string>, rooted: bool)
    requires Normal(stack + segments, rooted)
    ensures Resolve(stack, segments, rooted) == stack + segments
    decreases |segments|
  {
    if segments == [] {
      assert stack + segments == stack;
    } else {
      var all := stack + segments;
      assert all[|stack|] == segments[0];
      if segments[0] == ".." && stack != [] {
        assert all[|stack| - 1] == "..";
      }
      assert stack + [segments[0]] + segments[1..] == all;
      ResolveNormal(stack + [segments[0]], segments[1..], rooted);
    }
  }

  lemma ElementsNormal(p: string)
    ensures Normal(Elements(p), Rooted(p)) && AllSlashFree(Elements(p))
  {
    SplitIsFree(p, '/');
    ResolveIsNormal([], Split(p), Rooted(p));
  }

  lemma {:induction false} JoinNotRooted(stack: seq<string>)
    requires stack != [] && stack[0] != "" && SlashFree(stack[0])
    ensures Join(stack) != "" && !Rooted(Join(stack))
  {
  }

  /** The segments of a rendered path: the elements, after one empty segment when rooted. */
  lemma SplitRendered(stack: seq<string>, rooted: bool)
    requires Normal(stack, rooted)
    ensures Split(Rendered(stack, rooted))
            == if rooted then [""] + (if stack == [] then [""] else stack)
               else if stack == [] then ["."] else stack
  {
    if rooted {
      SplitOfJoined("", Join(stack), '/');
      assert "" + "/" + Join(stack) == "/" + Join(stack);
    } else if stack == [] {
      SplitOfOne(".", '/');
    }
    if stack != [] {
      SplitOfJoin(stack, '/');
    }
  }

  lemma RenderedRooted(stack: seq<string>, rooted: bool)
    requires Normal(stack, rooted)
    ensures Rooted(Rendered(stack, rooted)) == rooted
  {
    if !rooted && stack != [] {
      JoinNotRooted(stack);
    }
  }

  /** Cleaning reads back exactly the elements it wrote. */
  lemma ElementsOfRendered(stack: seq<string>, rooted: bool)
    requires Normal(stack, rooted)
    ensures Elements(Rendered(stack, rooted)) == stack
  {
    SplitRendered(stack, rooted);
    RenderedRooted(stack, rooted);
    ResolveNormal([], stack, rooted);
    assert [] + stack == stack;
    if rooted {
      var segments := Split(Rendered(stack, rooted));
      assert segments[1..] == if stack == [] then [""] else stack;
      assert Push([], "", true) == [];
      if stack == [] {
        assert Resolve([], [""], true) == Resolve([], [""][1..], true);
      }
    }
  }

  lemma CleanIdempotent(p: string)
    ensures Clean(Clean(p)) == Clean(p)
  {
    ElementsNormal(p);
    ElementsOfRendered(Elements(p), Rooted(p));
    RenderedRooted(Elements(p), Rooted(p));
  }

  lemma CleanKeepsRoot(p: string)
    ensures Rooted(Clean(p)) == Rooted(p)
    ensures Clean(p) != ""
  {
    ElementsNormal(p);
    RenderedRooted(Elements(p), Rooted(p));
    if !Rooted(p) && Elements(p) != [] {
      JoinNotRooted(Elements(p));
    }
  }

  /** What cleaning leaves: no empty, "." or ".." segments below the root, and no trailing slash. */
  lemma CleanSegments(p: string)
    requires Rooted(p)
    ensures var segments := Split(Clean(p));
            && |segments| >= 2 && segments[0] == ""
            && (segments == ["", ""] || forall i :: 1 <= i < |segments| ==> Ordinary(segments[i]))
            && (segments == ["", ""] <==> Clean(p) == "/")
  {
    ElementsNormal(p);
    SplitRendered(Elements(p), true);
    if Elements(p) == [] {
      assert Clean(p) == "/";
    } else {
      JoinNotRooted(Elements(p));
      assert Split(Clean(p))[1] == Elements(p)[0];
      assert |Clean(p)| > 1;
    }
  }

  /** A path cleans to itself if and only if it is a rendering of a normal element list. */
  lemma CleanFixedPoints(p: string)
    ensures Clean(p) == p <==> exists stack :: Normal(stack, Rooted(p)) && p == Rendered(stack, Rooted(p))
  {
    ElementsNormal(p);
    forall stack | Normal(stack, Rooted(p)) && p == Rendered(stack, Rooted(p))
      ensures Clean(p) == p
    {
      ElementsOfRendered(stack, Rooted(p));
    }
  }

  // ----- Cleaning as rewriting -----

  lemma {:induction false} ResolveConcat(stack: seq<string>, xs: seq<string>, ys: seq<string>, rooted: bool)
    ensures Resolve(stack, xs + ys, rooted) == Resolve(Resolve(stack, xs, rooted), ys, rooted)
    decreases |xs|
  {
    if xs == [] {
      assert xs + ys == ys;
    } else {
      assert (xs + ys)[1..] == xs[1..] + ys;
      ResolveConcat(Push(stack, xs[0], rooted), xs[1..], ys, rooted);
    }
  }

  lemma SplitAround(a: string, middle: seq<string>, b: string)
    requires middle != [] && AllSlashFree(middle)
    ensures Split(a + "/" + Join(middle) + "/" + b) == Split(a) + middle + Split(b)
  {
    SplitOfJoin(middle, '/');
    SplitOfJoined(Join(middle), b, '/');
    SplitOfJoined(a, Join(middle) + "/" + b, '/');
    assert a + "/" + Join(middle) + "/" + b == a + "/" + (Join(middle) + "/" + b);
    assert Split(a) + (middle + Split(b)) == Split(a) + middle + Split(b);
  }

  /** A run of elements that leaves every element list as it is may be cut out of a path. */
  lemma CutOut(a: string, middle: seq<string>, b: string)
    requires middle != [] && AllSlashFree(middle)
    requires forall stack :: Resolve(stack, middle, Rooted(a + "/" + b)) == stack
    ensures Clean(a + "/" + Join(middle) + "/" + b) == Clean(a + "/" + b)
  {
    var rooted := Rooted(a + "/" + b);
    var long := a + "/" + Join(middle) + "/" + b;
    assert long[0] == (a + "/" + b)[0];
    SplitAround(a, middle, b);
    SplitOfJoined(a, b, '/');
    ResolveConcat([], Split(a) + middle, Split(b), rooted);
    ResolveConcat([], Split(a), middle, rooted);
    ResolveConcat([], Split(a), Split(b), rooted);
  }

  lemma ResolveOne(stack: seq<string>, x: string, rooted: bool)
    ensures Resolve(stack, [x], rooted) == Push(stack, x, rooted)
  {
    assert [x][1..] == [];
  }

  lemma ResolveTwo(stack: seq<string>, x: string, y: string, rooted: bool)
    ensures Resolve(stack, [x, y], rooted) == Push(Push(stack, x, rooted), y, rooted)
  {
    assert [x, y][1..] == [y];
    ResolveOne(Push(stack, x, rooted), y, rooted);
  }

  lemma JoinOfTwo(x: string, y: string)
    ensures Join([x, y]) == x + "/" + y
  {
    assert [x, y][1..] == [y];
    assert Join([y]) == y;
  }

  /** Cleaning is invariant under the rules it stands for: a double slash, a "." element, and an ordinary
      element followed by ".." may each be removed anywhere. */
  lemma CleanRules(a: string, segment: string, b: string)
    requires Ordinary(segment)
    ensures Clean(a + "/" + "" + "/" + b) == Clean(a + "/" + b)
    ensures Clean(a + "/" + "." + "/" + b) == Clean(a + "/" + b)
    ensures Clean(a + "/" + (segment + "/" + "..") + "/" + b) == Clean(a + "/" + b)
  {
    var rooted := Rooted(a + "/" + b);
    forall stack
      ensures Resolve(stack, [""], rooted) == stack && Resolve(stack, ["."], rooted) == stack
      ensures Resolve(stack, [segment, ".."], rooted) == stack
    {
      ResolveOne(stack, "", rooted);
      ResolveOne(stack, ".", rooted);
      ResolveTwo(stack, segment, "..", rooted);
      assert (stack + [segment])[..|stack|] == stack;
    }
    CutOut(a, [""], b);
    CutOut(a, ["."], b);
    CutOut(a, [segment, ".."], b);
    JoinOfTwo(segment, "..");
  }

  /** At the root ".." has nowhere to go. */
  lemma RootHasNoParent(b: string)
    ensures Clean("/" + ".." + "/" + b) == Clean("/" + b)
  {
    SplitAround("", [".."], b);
    SplitOfJoined("", b, '/');
    assert "" + "/" + ".." + "/" + b == "/" + ".." + "/" + b;
    assert "" + "/" + b == "/" + b;
    assert Join([".."]) == "..";
    ResolveConcat([], ["", ".."], Split(b), true);
    ResolveConcat([], [""], Split(b), true);
    ResolveTwo([], "", "..", true);
    ResolveOne([], "", true);
    assert [""] + [".."] == ["", ".."];
  }
}
