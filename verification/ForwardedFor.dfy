/**
 Validating X-Forwarded-For: every comma-separated member of every field line is trimmed and parsed, and
 what does not parse or carries a zone is skipped. The address parser and the trimming are opaque.
 */
module ForwardedFor {
  import opened Wrappers
  import opened Splitting

  function Members(value: string): (parts: seq<string>)
    ensures |parts| >= 1
  {
    SplitOn(value, ',')
  }

  /** The printed address of a candidate, or None where it is skipped. */
  datatype Parser = Parser(trim: string -> string, parse: string -> Option<string>)

  function Accepted(p: Parser, candidates: seq<string>): seq<string> {
    if candidates == [] then []
    else
      var address := p.parse(p.trim(candidates[0]));
      (if address.Some? then [address.value] else []) + Accepted(p, candidates[1..])
  }

  function Validated(p: Parser, values: seq<string>): seq<string> {
    if values == [] then [] else Accepted(p, Members(values[0])) + Validated(p, values[1..])
  }

  lemma {:induction false} AcceptedConcat(p: Parser, xs: seq<string>, ys: seq<string>)
    ensures Accepted(p, xs + ys) == Accepted(p, xs) + Accepted(p, ys)
  {
    if xs == [] {
      assert xs + ys == ys;
    } else {
      assert (xs + ys)[1..] == xs[1..] + ys;
      AcceptedConcat(p, xs[1..], ys);
    }
  }

  lemma {:induction false} ValidatedConcat(p: Parser, xs: seq<string>, ys: seq<string>)
    ensures Validated(p, xs + ys) == Validated(p, xs) + Validated(p, ys)
  {
    if xs == [] {
      assert xs + ys == ys;
    } else {
      assert (xs + ys)[1..] == xs[1..] + ys;
      ValidatedConcat(p, xs[1..], ys);
    }
  }

  method ValidatedForwardedFor(p: Parser, values: seq<string>) returns (addresses: seq<string>)
    ensures addresses == Validated(p, values)
  {
    addresses := [];
    var i := 0;
    while i < |values|
      invariant 0 <= i <= |values|
      invariant addresses == Validated(p, values[..i])
    {
      var candidates := Members(values[i]);
      var before := addresses;
      var j := 0;
      while j < |candidates|
        invariant 0 <= j <= |candidates|
        invariant addresses == before + Accepted(p, candidates[..j])
      {
        var address := p.parse(p.trim(candidates[j]));
        if address.Some? {
          addresses := addresses + [address.value];
        }
        AcceptedConcat(p, candidates[..j], [candidates[j]]);
        assert candidates[..j + 1] == candidates[..j] + [candidates[j]];
        j := j + 1;
      }
      assert candidates[..j] == candidates;
      ValidatedConcat(p, values[..i], [values[i]]);
      assert values[..i + 1] == values[..i] + [values[i]];
      i := i + 1;
    }
    assert values[..i] == values;
  }

  /** The source endpoint's address: the rightmost accepted one, or the peer address when there is none. */
  function Source(chain: seq<string>, peer: Option<string>): Option<string> {
    if chain != [] then Some(chain[|chain| - 1]) else peer
  }

  // ----- Field combination -----

  /** Several field lines combined into one: values joined by a comma and optional whitespace. */
  function Combined(values: seq<string>, ows: string): string {
    JoinWith(values, "," + ows)
  }

  /** Trimming removes the whitespace a combiner may put after its comma. */
  ghost predicate Ignorable(p: Parser, ows: string) {
    ',' !in ows && forall s :: p.trim(ows + s) == p.trim(s)
  }

  lemma AcceptedAfterComma(p: Parser, value: string, rest: string, ows: string)
    requires Ignorable(p, ows)
    ensures Accepted(p, Members(value + ("," + ows) + rest)) == Accepted(p, Members(value)) + Accepted(p, Members(rest))
  {
    assert value + ("," + ows) + rest == value + "," + (ows + rest);
    SplitOfJoined(value, ows + rest, ',');
    SplitOfPrefixed(ows, rest, ',');
    AcceptedConcat(p, Members(value), Members(ows + rest));
    var tail := Members(rest);
    assert p.trim(ows + tail[0]) == p.trim(tail[0]);
    assert Members(ows + rest)[1..] == tail[1..];
  }

  /** Validation does not see how the field lines were split: validating them equals validating the one
      combined line, with or without whitespace after the joining commas. */
  lemma {:induction false} SplitLinesDoNotMatter(p: Parser, values: seq<string>, ows: string)
    requires Ignorable(p, ows) && p.parse(p.trim("")).None?
    ensures Validated(p, [Combined(values, ows)]) == Validated(p, values)
  {
    ValidatedOne(p, Combined(values, ows));
    if values == [] {
      assert Members("") == [""] && [""][1..] == [];
    } else if |values| == 1 {
      ValidatedOne(p, values[0]);
      assert values == [values[0]];
    } else {
      SplitLinesDoNotMatter(p, values[1..], ows);
      ValidatedOne(p, Combined(values[1..], ows));
      AcceptedAfterComma(p, values[0], Combined(values[1..], ows), ows);
    }
  }

  lemma ValidatedOne(p: Parser, value: string)
    ensures Validated(p, [value]) == Accepted(p, Members(value))
  {
    assert [value][1..] == [];
  }

  /** So the recorded chain and source depend only on the combined field value. */
  lemma SourceIndependentOfLines(p: Parser, values: seq<string>, values': seq<string>,
                                 ows: string, peer: Option<string>)
    requires Ignorable(p, ows) && p.parse(p.trim("")).None?
    requires Combined(values, ows) == Combined(values', ows)
    ensures Validated(p, values) == Validated(p, values')
    ensures Source(Validated(p, values), peer) == Source(Validated(p, values'), peer)
  {
    SplitLinesDoNotMatter(p, values, ows);
    SplitLinesDoNotMatter(p, values', ows);
  }

  /** Everything recorded is the parse of some member. */
  lemma {:induction false} AcceptedParsed(p: Parser, candidates: seq<string>, k: nat)
    requires k < |Accepted(p, candidates)|
    ensures exists i :: 0 <= i < |candidates| && p.parse(p.trim(candidates[i])) == Some(Accepted(p, candidates)[k])
  {
    var rest := candidates[1..];
    var first := p.parse(p.trim(candidates[0]));
    if first.None? || k > 0 {
      var k' := if first.None? then k else k - 1;
      AcceptedParsed(p, rest, k');
      var i :| 0 <= i < |rest| && p.parse(p.trim(rest[i])) == Some(Accepted(p, rest)[k']);
      assert candidates[i + 1] == rest[i];
    }
  }

  /** What determines the chain: lines and comma-separated members count one after another, and a member on its
      own is its parsed address, if it has one. */
  lemma ChainLaws(p: Parser, xs: seq<string>, ys: seq<string>, a: string, b: string)
    ensures Validated(p, []) == []
    ensures Validated(p, xs + ys) == Validated(p, xs) + Validated(p, ys)
    ensures Validated(p, [a + "," + b]) == Validated(p, [a]) + Validated(p, [b])
    ensures ',' !in a ==>
              Validated(p, [a]) == match p.parse(p.trim(a)) case Some(address) => [address] case None => []
  {
    ValidatedConcat(p, xs, ys);
    ValidatedOne(p, a + "," + b);
    ValidatedOne(p, a);
    ValidatedOne(p, b);
    SplitOfJoined(a, b, ',');
    AcceptedConcat(p, Members(a), Members(b));
    if ',' !in a {
      SplitOfOne(a, ',');
      assert [a][1..] == [];
    }
  }

  predicate ParsedFrom(p: Parser, values: seq<string>, address: string) {
    exists v, i :: 0 <= v < |values| && 0 <= i < |Members(values[v])|
                   && p.parse(p.trim(Members(values[v])[i])) == Some(address)
  }

  /** Every recorded address is the parse of some member of some line. */
  lemma {:induction false} ValidatedParsed(p: Parser, values: seq<string>, k: nat)
    requires k < |Validated(p, values)|
    ensures ParsedFrom(p, values, Validated(p, values)[k])
  {
    var first, rest := Accepted(p, Members(values[0])), values[1..];
    if k < |first| {
      AcceptedParsed(p, Members(values[0]), k);
    } else {
      ValidatedParsed(p, rest, k - |first|);
      var address := Validated(p, rest)[k - |first|];
      var v, i :| 0 <= v < |rest| && 0 <= i < |Members(rest[v])|
                  && p.parse(p.trim(Members(rest[v])[i])) == Some(address);
      assert values[v + 1] == rest[v];
    }
  }

  /** The source is the peer exactly when nothing parsed, and otherwise a parsed member. */
  lemma SourceIsParsedOrPeer(p: Parser, values: seq<string>, peer: Option<string>)
    ensures var source := Source(Validated(p, values), peer);
            if exists address :: ParsedFrom(p, values, address)
            then source.Some? && ParsedFrom(p, values, source.value)
            else source == peer
  {
    var chain := Validated(p, values);
    if chain != [] {
      ValidatedParsed(p, values, |chain| - 1);
    }
    forall address | ParsedFrom(p, values, address)
      ensures chain != []
    {
      var v, i :| 0 <= v < |values| && 0 <= i < |Members(values[v])|
                  && p.parse(p.trim(Members(values[v])[i])) == Some(address);
      ParsedIsRecorded(p, values, v, i);
    }
  }

  /** Nothing that parses is skipped. */
  lemma ParsedIsRecorded(p: Parser, values: seq<string>, v: nat, i: nat)
    requires v < |values| && i < |Members(values[v])|
    requires p.parse(p.trim(Members(values[v])[i])).Some?
    ensures p.parse(p.trim(Members(values[v])[i])).value in Validated(p, values)
  {
    var members := Members(values[v]);
    assert values == values[..v] + ([values[v]] + values[v + 1..]);
    ValidatedConcat(p, values[..v], [values[v]] + values[v + 1..]);
    ValidatedConcat(p, [values[v]], values[v + 1..]);
    ValidatedOne(p, values[v]);
    assert members == members[..i] + ([members[i]] + members[i + 1..]);
    AcceptedConcat(p, members[..i], [members[i]] + members[i + 1..]);
  }

  /** The last hop decides: when the last member of the last line is an address, it is the source, whatever
      the members before it are. */
  lemma LastHopIsSource(p: Parser, values: seq<string>, line: string, address: string, peer: Option<string>)
    requires p.parse(p.trim(Members(line)[|Members(line)| - 1])) == Some(address)
    ensures Source(Validated(p, values + [line]), peer) == Some(address)
  {
    var members := Members(line);
    var n := |members| - 1;
    ValidatedConcat(p, values, [line]);
    ValidatedOne(p, line);
    AcceptedConcat(p, members[..n], [members[n]]);
    assert members == members[..n] + [members[n]];
    assert Accepted(p, [members[n]]) == [address] + Accepted(p, [members[n]][1..]);
  }
}
