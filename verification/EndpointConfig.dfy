/**
 The authorization configuration and the validation that runs once after it is loaded.
 */
module EndpointConfig {
  import opened Wrappers
  import opened Paths
  import opened EndpointMatch

  /** Rewrite sources by the name of a query parameter or header; None where the block is absent. */
  datatype Rewrites = Rewrites(byQuery: Option<string>, byHeader: Option<string>)

  datatype ResourceAttributes = ResourceAttributes(
    namespace_: string, apiGroup: string, apiVersion: string, resource: string, subresource: string, name: string,
    verb: string)

  datatype Rule = Rule(rewrites: Rewrites, attributes: ResourceAttributes)

  datatype Mapping = Mapping(methods: seq<string>, resources: seq<Rule>)

  datatype Endpoint = Endpoint(path: string, mappings: seq<Mapping>)

  datatype Config = Config(
    rewrites: Option<Rewrites>, resourceAttributes: Option<ResourceAttributes>, endpoints: seq<Endpoint>)

  // ----- What validation accepts -----

  predicate ValidRule(blank: string -> bool, rule: Rule) {
    && (rule.rewrites.byHeader.Some? ==> !blank(rule.rewrites.byHeader.value))
    && (rule.rewrites.byQuery.Some? ==> !blank(rule.rewrites.byQuery.value))
  }

  predicate ValidMapping(blank: string -> bool, mapping: Mapping) {
    mapping.methods != [] && mapping.resources != []
    && forall i :: 0 <= i < |mapping.resources| ==> ValidRule(blank, mapping.resources[i])
  }

  predicate ValidEndpoint(blank: string -> bool, endpoint: Endpoint) {
    && !blank(endpoint.path)
    && endpoint.mappings != []
    && ValidParts(Split(endpoint.path))
    && forall i :: 0 <= i < |endpoint.mappings| ==> ValidMapping(blank, endpoint.mappings[i])
  }

  predicate ValidConfig(blank: string -> bool, cfg: Config) {
    forall i :: 0 <= i < |cfg.endpoints| ==> ValidEndpoint(blank, cfg.endpoints[i])
  }

  // ----- The validator -----

  datatype SegmentFault = Malformed(segment: nat) | BadName(segment: nat) | Duplicate(segment: nat)

  datatype MappingFault = NoMethods(mapping: nat) | NoResources(mapping: nat)
                        | BlankHeader(mapping: nat, rule: nat) | BlankQuery(mapping: nat, rule: nat)

  datatype EndpointFault = EmptyPath | NoMappings | InPath(segment: SegmentFault) | InMapping(mapping: MappingFault)

  datatype ConfigFault = ConfigFault(endpoint: nat, fault: EndpointFault)

  /** The fault is the first one of a left-to-right scan of the segments. */
  predicate IsSegmentFault(parts: seq<string>, fault: SegmentFault) {
    var i := fault.segment;
    && i < |parts|
    && (forall k :: 0 <= k < i ==> ValidPart(parts[k]))
    && DistinctCaptures(parts, i)
    && match fault
       case Malformed(_) => HasBrace(parts[i]) && !(|parts[i]| >= 3 && IsCapture(parts[i]))
       case BadName(_) => |parts[i]| >= 3 && IsCapture(parts[i]) && !ValidName(CaptureName(parts[i]))
       case Duplicate(_) => IsCapture(parts[i]) && ValidPart(parts[i]) && !DistinctCaptures(parts, i + 1)
  }

  predicate IsRuleFault(blank: string -> bool, mapping: Mapping, fault: MappingFault) {
    match fault
    case NoMethods(_) => mapping.methods == []
    case NoResources(_) => mapping.methods != [] && mapping.resources == []
    case BlankHeader(_, r) =>
      && mapping.methods != [] && r < |mapping.resources|
      && (forall k :: 0 <= k < r ==> ValidRule(blank, mapping.resources[k]))
      && mapping.resources[r].rewrites.byHeader.Some? && blank(mapping.resources[r].rewrites.byHeader.value)
    case BlankQuery(_, r) =>
      && mapping.methods != [] && r < |mapping.resources|
      && (forall k :: 0 <= k < r ==> ValidRule(blank, mapping.resources[k]))
      && (mapping.resources[r].rewrites.byHeader.Some? ==> !blank(mapping.resources[r].rewrites.byHeader.value))
      && mapping.resources[r].rewrites.byQuery.Some? && blank(mapping.resources[r].rewrites.byQuery.value)
  }

  predicate IsMappingFault(blank: string -> bool, mappings: seq<Mapping>, fault: MappingFault) {
    && fault.mapping < |mappings|
    && (forall k :: 0 <= k < fault.mapping ==> ValidMapping(blank, mappings[k]))
    && IsRuleFault(blank, mappings[fault.mapping], fault)
  }

  predicate IsEndpointFault(blank: string -> bool, endpoint: Endpoint, fault: EndpointFault) {
    match fault
    case EmptyPath => blank(endpoint.path)
    case NoMappings => !blank(endpoint.path) && endpoint.mappings == []
    case InPath(segment) =>
      !blank(endpoint.path) && endpoint.mappings != [] && IsSegmentFault(Split(endpoint.path), segment)
    case InMapping(mapping) =>
      !blank(endpoint.path) && ValidParts(Split(endpoint.path)) && IsMappingFault(blank, endpoint.mappings, mapping)
  }

  lemma CaptureHasBrace(part: string)
    ensures IsCapture(part) ==> HasBrace(part)
  {
    assert part != "" ==> part[0] in part;
  }

  method ValidateSegments(parts: seq<string>) returns (fault: Option<SegmentFault>)
    ensures fault.None? <==> ValidParts(parts)
    ensures fault.Some? ==> IsSegmentFault(parts, fault.value)
  {
    var names: set<string> := {};
    var i := 0;
    while i < |parts|
      invariant 0 <= i <= |parts|
      invariant forall k :: 0 <= k < i ==> ValidPart(parts[k])
      invariant DistinctCaptures(parts, i)
      invariant forall name :: name in names <==>
                  exists k :: 0 <= k < i && IsCapture(parts[k]) && CaptureName(parts[k]) == name
    {
      var part := parts[i];
      if HasBrace(part) {
        if |part| < 3 || part[0] != '{' || part[|part| - 1] != '}' {
          return Some(Malformed(i));
        }
        var name := part[1..|part| - 1];
        assert name == CaptureName(part);
        if !ValidName(name) {
          return Some(BadName(i));
        }
        if name in names {
          return Some(Duplicate(i));
        }
        names := names + {name};
      } else {
        CaptureHasBrace(part);
      }
      i := i + 1;
    }
    fault := None;
  }

  method ValidateMapping(blank: string -> bool, mapping: Mapping, index: nat) returns (fault: Option<MappingFault>)
    ensures fault.None? <==> ValidMapping(blank, mapping)
    ensures fault.Some? ==> fault.value.mapping == index && IsRuleFault(blank, mapping, fault.value)
  {
    if |mapping.methods| == 0 {
      return Some(NoMethods(index));
    }
    if |mapping.resources| == 0 {
      return Some(NoResources(index));
    }
    var i := 0;
    while i < |mapping.resources|
      invariant 0 <= i <= |mapping.resources|
      invariant forall k :: 0 <= k < i ==> ValidRule(blank, mapping.resources[k])
    {
      var rewrites := mapping.resources[i].rewrites;
      if rewrites.byHeader.Some? && blank(rewrites.byHeader.value) {
        return Some(BlankHeader(index, i));
      }
      if rewrites.byQuery.Some? && blank(rewrites.byQuery.value) {
        return Some(BlankQuery(index, i));
      }
      i := i + 1;
    }
    fault := None;
  }

  method ValidateEndpoint(blank: string -> bool, endpoint: Endpoint) returns (fault: Option<EndpointFault>)
    ensures fault.None? <==> ValidEndpoint(blank, endpoint)
    ensures fault.Some? ==> IsEndpointFault(blank, endpoint, fault.value)
  {
    if blank(endpoint.path) {
      return Some(EmptyPath);
    }
    if |endpoint.mappings| == 0 {
      return Some(NoMappings);
    }
    var inPath := ValidateSegments(Split(endpoint.path));
    if inPath.Some? {
      return Some(InPath(inPath.value));
    }
    var i := 0;
    while i < |endpoint.mappings|
      invariant 0 <= i <= |endpoint.mappings|
      invariant forall k :: 0 <= k < i ==> ValidMapping(blank, endpoint.mappings[k])
    {
      var inMapping := ValidateMapping(blank, endpoint.mappings[i], i);
      if inMapping.Some? {
        return Some(InMapping(inMapping.value));
      }
      i := i + 1;
    }
    fault := None;
  }

  /** Accepts exactly the valid configurations and otherwise names the first fault of the first bad endpoint. */
  method ValidateAuthorizationConfig(blank: string -> bool, cfg: Config) returns (fault: Option<ConfigFault>)
    ensures fault.None? <==> ValidConfig(blank, cfg)
    ensures fault.Some? ==>
              && fault.value.endpoint < |cfg.endpoints|
              && (forall k :: 0 <= k < fault.value.endpoint ==> ValidEndpoint(blank, cfg.endpoints[k]))
              && IsEndpointFault(blank, cfg.endpoints[fault.value.endpoint], fault.value.fault)
  {
    var i := 0;
    while i < |cfg.endpoints|
      invariant 0 <= i <= |cfg.endpoints|
      invariant forall k :: 0 <= k < i ==> ValidEndpoint(blank, cfg.endpoints[k])
    {
      var inEndpoint := ValidateEndpoint(blank, cfg.endpoints[i]);
      if inEndpoint.Some? {
        return Some(ConfigFault(i, inEndpoint.value));
      }
      i := i + 1;
    }
    fault := None;
  }

  // ----- What is accepted, spelled out -----

  predicate AsciiLetter(c: char) {
    c in "abcdefghijklmnopqrstuvwxyz" || c in "ABCDEFGHIJKLMNOPQRSTUVWXYZ"
  }

  /** A letter, then letters, digits and underscores. */
  predicate Identifier(name: string) {
    && name != "" && AsciiLetter(name[0])
    && forall k :: 1 <= k < |name| ==> AsciiLetter(name[k]) || name[k] in "0123456789" || name[k] == '_'
  }

  /** Every segment is brace-free text or an identifier in braces, and no identifier occurs twice. */
  ghost predicate Acceptable(parts: seq<string>) {
    && (forall i :: 0 <= i < |parts| ==>
          ('{' !in parts[i] && '}' !in parts[i]) || exists name :: IsNamed(parts[i], name) && Identifier(name))
    && (forall i, j, name :: 0 <= i < j < |parts| && IsNamed(parts[i], name) ==> !IsNamed(parts[j], name))
  }

  lemma LetterMeansAscii(c: char)
    ensures Letter(c) <==> AsciiLetter(c)
  {
    LowerInOrder(c);
    UpperInOrder(c);
  }

  lemma LowerInOrder(c: char)
    ensures 'a' <= c <= 'z' <==> c in "abcdefghijklmnopqrstuvwxyz"
  {
    LettersInOrder("abcdefghijklmnopqrstuvwxyz", 'a', c);
  }

  lemma UpperInOrder(c: char)
    ensures 'A' <= c <= 'Z' <==> c in "ABCDEFGHIJKLMNOPQRSTUVWXYZ"
  {
    LettersInOrder("ABCDEFGHIJKLMNOPQRSTUVWXYZ", 'A', c);
  }

  lemma DigitsInOrder(c: char)
    ensures '0' <= c <= '9' <==> c in "0123456789"
  {
    LettersInOrder("0123456789", '0', c);
  }

  lemma LettersInOrder(run: string, first: char, c: char)
    requires forall k :: 0 <= k < |run| ==> run[k] as int == first as int + k
    ensures c in run <==> first as int <= c as int < first as int + |run|
  {
    if first as int <= c as int < first as int + |run| {
      assert run[c as int - first as int] == c;
    }
  }

  lemma NameMeansIdentifier(name: string)
    ensures ValidName(name) <==> Identifier(name)
  {
    forall k | 0 <= k < |name|
      ensures Letter(name[k]) <==> AsciiLetter(name[k])
      ensures '0' <= name[k] <= '9' <==> name[k] in "0123456789"
    {
      LetterMeansAscii(name[k]);
      DigitsInOrder(name[k]);
    }
  }

  lemma PartMeaning(part: string)
    ensures ValidPart(part) <==>
            ('{' !in part && '}' !in part) || exists name :: IsNamed(part, name) && Identifier(name)
  {
    CaptureMeansNamed(part);
    CaptureHasBrace(part);
    if IsCapture(part) {
      NameMeansIdentifier(CaptureName(part));
      assert IsNamed(part, CaptureName(part));
    }
  }

  lemma PartsMeaning(parts: seq<string>)
    ensures ValidParts(parts) <==> Acceptable(parts)
  {
    forall i | 0 <= i < |parts|
      ensures ValidPart(parts[i]) <==>
              ('{' !in parts[i] && '}' !in parts[i]) || exists name :: IsNamed(parts[i], name) && Identifier(name)
      ensures forall name :: IsNamed(parts[i], name) ==> IsCapture(parts[i]) && CaptureName(parts[i]) == name
      ensures IsCapture(parts[i]) ==> IsNamed(parts[i], CaptureName(parts[i]))
    {
      PartMeaning(parts[i]);
      CaptureMeansNamed(parts[i]);
    }
  }

  /** Exactly these configurations are accepted: every endpoint has a non-blank path of acceptable segments and
      at least one mapping, every mapping has methods and rules, and every rewrite source has a name. */
  lemma AcceptedConfigs(blank: string -> bool, cfg: Config)
    ensures ValidConfig(blank, cfg) <==>
            forall e :: e in cfg.endpoints ==>
              && !blank(e.path) && Acceptable(Split(e.path)) && e.mappings != []
              && forall m :: m in e.mappings ==>
                   && m.methods != [] && m.resources != []
                   && forall r :: r in m.resources ==>
                        && (r.rewrites.byHeader.Some? ==> !blank(r.rewrites.byHeader.value))
                        && (r.rewrites.byQuery.Some? ==> !blank(r.rewrites.byQuery.value))
  {
    forall e | e in cfg.endpoints
      ensures ValidParts(Split(e.path)) <==> Acceptable(Split(e.path))
    {
      PartsMeaning(Split(e.path));
    }
  }
}
