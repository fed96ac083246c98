/**
 What the authorizer is asked about, in terms of the request, the configuration and the template expander
 alone: which data a rule's templates see, what becomes of every field, and when there is an answer at all.
 */
module AttributeMeaning {
  import opened Wrappers
  import opened Paths
  import opened EndpointMatch
  import opened EndpointConfig
  import opened RequestAttributes

  const VERBS := map["GET" := "get", "POST" := "create", "PUT" := "update", "DELETE" := "delete",
                     "PATCH" := "patch", "OPTIONS" := "options", "HEAD" := "head"]

  const FORMAT1_VERBS := map["GET" := "get", "POST" := "create", "PUT" := "update", "DELETE" := "delete",
                             "PATCH" := "patch"]

  // ----- Format2 -----

  /** The first value of a configured header, which must not be empty; nothing when none is configured. */
  predicate IsHeaderText(lib: Library, req: Request, name: Option<string>, text: string) {
    if name.None? || name.value == "" then text == ""
    else
      var key := lib.canonical(name.value);
      key in req.headers && req.headers[key] != [] && text == req.headers[key][0] && text != ""
  }

  /** The first value of a configured query parameter, which must be there. */
  predicate IsQueryText(req: Request, name: Option<string>, text: string) {
    if name.None? || name.value == "" then text == ""
    else name.value in req.query && req.query[name.value] != [] && text == req.query[name.value][0]
  }

  /** The data a rule's templates see: the header as the value where there is one, else the query parameter;
      the verb of the method; and the captures. */
  predicate Sees(lib: Library, req: Request, rewrites: Rewrites, captures: Captures, d: TemplateData) {
    && IsHeaderText(lib, req, rewrites.byHeader, d.fromHeader)
    && IsQueryText(req, rewrites.byQuery, d.fromQuery)
    && d.value == (if d.fromHeader != "" then d.fromHeader else d.fromQuery)
    && d.fromMethod == (if req.method_ in VERBS then VERBS[req.method_] else "")
    && d.pathParams == captures
  }

  predicate Expands(lib: Library, template: string, d: TemplateData, text: string) {
    if template == "" then text == "" else lib.expand(template, d) == Some(text)
  }

  /** Every field of the attribute is its template expanded with that data, and an empty verb the method's. */
  predicate Fills(lib: Library, user: User, a: ResourceAttributes, d: TemplateData, verb: string, asked: Attributes) {
    && asked.Resource? && asked.user == user
    && Expands(lib, a.verb, d, verb) && asked.verb == (if verb == "" then d.fromMethod else verb)
    && Expands(lib, a.namespace_, d, asked.namespace_)
    && Expands(lib, a.apiGroup, d, asked.apiGroup)
    && Expands(lib, a.apiVersion, d, asked.apiVersion)
    && Expands(lib, a.resource, d, asked.resource)
    && Expands(lib, a.subresource, d, asked.subresource)
    && Expands(lib, a.name, d, asked.name)
  }

  ghost predicate Asks(lib: Library, user: User, req: Request, rule: Rule, captures: Captures, asked: Attributes) {
    exists d, verb ::
      Sees(lib, req, rule.rewrites, captures, d) && Fills(lib, user, rule.attributes, d, verb, asked)
  }

  lemma DataIsSeen(lib: Library, req: Request, rewrites: Rewrites, captures: Captures, d: TemplateData)
    ensures RuleData(lib, req, rewrites, captures) == Ok(d) <==> Sees(lib, req, rewrites, captures, d)
  {
  }

  lemma {:induction false} ExpansionsMeaning(lib: Library, templates: seq<string>, d: TemplateData, texts: seq<string>)
    ensures Expansions(lib, templates, d) == Ok(texts)
            <==> |texts| == |templates| && forall i :: 0 <= i < |texts| ==> Expands(lib, templates[i], d, texts[i])
  {
    if templates != [] {
      var n := |templates| - 1;
      if |texts| == n + 1 {
        ExpansionsMeaning(lib, templates[..n], d, texts[..n]);
        assert texts == texts[..n] + [texts[n]];
        forall i | 0 <= i < n
          ensures Expands(lib, templates[i], d, texts[i]) == Expands(lib, templates[..n][i], d, texts[..n][i])
        {
        }
      }
    }
  }

  lemma RuleAsks(lib: Library, user: User, req: Request, rule: Rule, captures: Captures, asked: Attributes)
    ensures RuleAttributes(lib, user, req, rule, captures) == Ok(asked) <==> Asks(lib, user, req, rule, captures, asked)
  {
    var a, made := rule.attributes, RuleData(lib, req, rule.rewrites, captures);
    if RuleAttributes(lib, user, req, rule, captures) == Ok(asked) {
      var texts := Expansions(lib, Templates(a), made.value).value;
      DataIsSeen(lib, req, rule.rewrites, captures, made.value);
      ExpansionsMeaning(lib, Templates(a), made.value, texts);
      FillsFromTexts(lib, user, a, made.value, texts, asked);
    }
    if d, verb :| Sees(lib, req, rule.rewrites, captures, d) && Fills(lib, user, a, d, verb, asked) {
      DataIsSeen(lib, req, rule.rewrites, captures, d);
      var texts := [verb, asked.namespace_, asked.apiGroup, asked.apiVersion, asked.resource, asked.subresource,
                    asked.name];
      TextsFromFills(lib, user, a, d, verb, asked);
      ExpansionsMeaning(lib, Templates(a), d, texts);
    }
  }

  lemma FillsFromTexts(lib: Library, user: User, a: ResourceAttributes, d: TemplateData, texts: seq<string>,
                       asked: Attributes)
    requires |texts| == 7 && forall i :: 0 <= i < 7 ==> Expands(lib, Templates(a)[i], d, texts[i])
    requires asked == Resource(user, if texts[0] == "" then d.fromMethod else texts[0], texts[1], texts[2],
                               texts[3], texts[4], texts[5], texts[6])
    ensures Fills(lib, user, a, d, texts[0], asked)
  {
    assert Expands(lib, Templates(a)[0], d, texts[0]) && Expands(lib, Templates(a)[1], d, texts[1]);
    assert Expands(lib, Templates(a)[2], d, texts[2]) && Expands(lib, Templates(a)[3], d, texts[3]);
    assert Expands(lib, Templates(a)[4], d, texts[4]) && Expands(lib, Templates(a)[5], d, texts[5]);
    assert Expands(lib, Templates(a)[6], d, texts[6]);
  }

  lemma TextsFromFills(lib: Library, user: User, a: ResourceAttributes, d: TemplateData, verb: string,
                       asked: Attributes)
    requires Fills(lib, user, a, d, verb, asked)
    ensures var texts := [verb, asked.namespace_, asked.apiGroup, asked.apiVersion, asked.resource,
                          asked.subresource, asked.name];
            forall i :: 0 <= i < 7 ==> Expands(lib, Templates(a)[i], d, texts[i])
  {
  }

  /** Some configured method is the request's but for upper and lower case. */
  predicate Lists(lib: Library, method_: string, mapping: Mapping) {
    exists c :: c in mapping.methods && lib.lower(c) == lib.lower(method_)
  }

  predicate ListsFirst(lib: Library, method_: string, mappings: seq<Mapping>, m: nat) {
    m < |mappings| && Lists(lib, method_, mappings[m]) && forall k :: 0 <= k < m ==> !Lists(lib, method_, mappings[k])
  }

  lemma ListsMeansMatch(lib: Library, method_: string, mapping: Mapping)
    ensures MatchMethods(lib, method_, mapping.methods) <==> Lists(lib, method_, mapping)
  {
  }

  lemma {:induction false} RulesAreFirstListed(lib: Library, method_: string, mappings: seq<Mapping>, m: nat)
    requires ListsFirst(lib, method_, mappings, m)
    ensures RulesForMethod(lib, method_, mappings) == Some(mappings[m].resources)
  {
    ListsMeansMatch(lib, method_, mappings[0]);
    if m > 0 {
      assert forall k :: 0 <= k < m ==> mappings[1..][k] == mappings[k + 1];
      RulesAreFirstListed(lib, method_, mappings[1..], m - 1);
    }
  }

  lemma FirstListed(lib: Library, method_: string, mappings: seq<Mapping>) returns (m: nat)
    requires RulesForMethod(lib, method_, mappings).Some?
    ensures ListsFirst(lib, method_, mappings, m)
  {
    RulesOfMethod(lib, method_, mappings);
    forall k | 0 <= k < |mappings|
      ensures MatchMethods(lib, method_, mappings[k].methods) == Lists(lib, method_, mappings[k])
    {
      ListsMeansMatch(lib, method_, mappings[k]);
    }
    m :| 0 <= m < |mappings| && MatchMethods(lib, method_, mappings[m].methods)
         && forall k :: 0 <= k < m ==> !MatchMethods(lib, method_, mappings[k].methods);
  }

  /** The attributes are those that the rules ask for, one by one. */
  ghost predicate AllAsked(lib: Library, user: User, req: Request, rules: seq<Rule>, captures: Captures,
                           attrs: seq<Attributes>) {
    |attrs| == |rules| && forall k :: 0 <= k < |rules| ==> Asks(lib, user, req, rules[k], captures, attrs[k])
  }

  lemma RulesAsk(lib: Library, user: User, req: Request, rules: seq<Rule>, captures: Captures, attrs: seq<Attributes>)
    ensures RulesAttributes(lib, user, req, rules, captures) == Ok(attrs)
            <==> AllAsked(lib, user, req, rules, captures, attrs)
  {
    OneAttributePerRule(lib, user, req, rules, captures);
    forall k | 0 <= k < |rules| && k < |attrs|
      ensures RuleAttributes(lib, user, req, rules[k], captures) == Ok(attrs[k])
              <==> Asks(lib, user, req, rules[k], captures, attrs[k])
    {
      RuleAsks(lib, user, req, rules[k], captures, attrs[k]);
    }
    var made := RulesAttributes(lib, user, req, rules, captures);
    if AllAsked(lib, user, req, rules, captures, attrs) {
      assert made.Ok?;
      assert forall k :: 0 <= k < |rules| ==> made.value[k] == attrs[k];
      assert made.value == attrs;
    }
  }

  /** An owned request gets exactly the attributes that the rules of the first mapping listing its method ask
      for with the captured values of its path, and gets attributes at all only if there are such. The captured
      values are the one assignment that fills the endpoint's pattern to the cleaned path. */
  lemma OwnedRequestAsks(lib: Library, user: User, req: Request, cfg: Config, i: nat,
                         named: Captures, wild: map<nat, string>, attrs: seq<Attributes>)
    requires FirstMatch(req, cfg.endpoints, i) && req.path != ""
    requires ValidParts(Split(cfg.endpoints[i].path))
    requires Instance(Split(cfg.endpoints[i].path), named, wild, Clean(req.path))
    ensures AttributesOf(lib, user, req, cfg) == Ok(attrs)
            <==> exists m: nat ::
                 && ListsFirst(lib, req.method_, cfg.endpoints[i].mappings, m)
                 && AllAsked(lib, user, req, cfg.endpoints[i].mappings[m].resources, named, attrs)
  {
    var endpoint := cfg.endpoints[i];
    FirstMatchOwns(lib, user, req, cfg, i, cfg.(endpoints := [endpoint]));
    ExtractedIsTheAssignment(req.path, endpoint.path, named, wild);
    if RulesForMethod(lib, req.method_, endpoint.mappings).Some? {
      var m := FirstListed(lib, req.method_, endpoint.mappings);
      RulesAreFirstListed(lib, req.method_, endpoint.mappings, m);
      RulesAsk(lib, user, req, endpoint.mappings[m].resources, named, attrs);
    }
    forall m: nat | ListsFirst(lib, req.method_, endpoint.mappings, m)
      ensures RulesForMethod(lib, req.method_, endpoint.mappings) == Some(endpoint.mappings[m].resources)
    {
      RulesAreFirstListed(lib, req.method_, endpoint.mappings, m);
    }
  }

  // ----- Format1 -----

  predicate IsQueryList(req: Request, name: Option<string>, values: seq<string>) {
    if name.Some? && name.value != "" && name.value in req.query then values == req.query[name.value] else values == []
  }

  predicate IsHeaderList(lib: Library, req: Request, name: Option<string>, values: seq<string>) {
    if name.Some? && name.value != "" && lib.canonical(name.value) in req.headers
    then values == req.headers[lib.canonical(name.value)]
    else values == []
  }

  /** The values that rewrites collect: the query parameter's, then the header's. */
  ghost predicate Collected(lib: Library, req: Request, rewrites: Rewrites, values: seq<string>) {
    exists fromQuery, fromHeader ::
      && IsQueryList(req, rewrites.byQuery, fromQuery) && IsHeaderList(lib, req, rewrites.byHeader, fromHeader)
      && values == fromQuery + fromHeader
  }

  predicate Substituted(lib: Library, user: User, verb: string, a: ResourceAttributes, value: string,
                        asked: Attributes) {
    && asked.Resource? && asked.user == user && asked.verb == verb
    && asked.namespace_ == lib.substitute(a.namespace_, value)
    && asked.apiGroup == lib.substitute(a.apiGroup, value)
    && asked.apiVersion == lib.substitute(a.apiVersion, value)
    && asked.resource == lib.substitute(a.resource, value)
    && asked.subresource == lib.substitute(a.subresource, value)
    && asked.name == lib.substitute(a.name, value)
  }

  /** One attribute per collected value. */
  ghost predicate OncePerValue(lib: Library, user: User, req: Request, rewrites: Rewrites, verb: string,
                               a: ResourceAttributes, attrs: seq<Attributes>) {
    exists values :: Collected(lib, req, rewrites, values) && AllSubstituted(lib, user, verb, a, values, attrs)
  }

  predicate AllSubstituted(lib: Library, user: User, verb: string, a: ResourceAttributes, values: seq<string>,
                           attrs: seq<Attributes>) {
    |attrs| == |values| && forall k :: 0 <= k < |values| ==> Substituted(lib, user, verb, a, values[k], attrs[k])
  }

  lemma RewritesSubstitute(lib: Library, user: User, req: Request, cfg: Config)
    requires cfg.resourceAttributes.Some? && cfg.rewrites.Some?
    ensures OncePerValue(lib, user, req, cfg.rewrites.value, ApiVerb(req, cfg.resourceAttributes),
                         cfg.resourceAttributes.value, Format1Attributes(lib, user, req, cfg))
  {
    var rewrites, a := cfg.rewrites.value, cfg.resourceAttributes.value;
    var values := RewriteParams(lib, req, rewrites);
    ParamsAreCollected(lib, req, rewrites);
    assert AllSubstituted(lib, user, ApiVerb(req, cfg.resourceAttributes), a, values,
                          Format1Attributes(lib, user, req, cfg));
  }

  lemma ParamsAreCollected(lib: Library, req: Request, rewrites: Rewrites)
    ensures Collected(lib, req, rewrites, RewriteParams(lib, req, rewrites))
  {
    var fromQuery := if Configured(rewrites.byQuery) && rewrites.byQuery.value in req.query
                     then req.query[rewrites.byQuery.value] else [];
    var fromHeader := if Configured(rewrites.byHeader) then HeaderValues(lib, req, rewrites.byHeader.value) else [];
    assert IsQueryList(req, rewrites.byQuery, fromQuery) && IsHeaderList(lib, req, rewrites.byHeader, fromHeader);
  }

  lemma VerbIsInferred(req: Request, attributes: Option<ResourceAttributes>)
    ensures ApiVerb(req, attributes) ==
            if attributes.Some? && attributes.value.verb != "" then attributes.value.verb
            else if req.method_ in FORMAT1_VERBS then FORMAT1_VERBS[req.method_] else "*"
  {
  }

  /** A request that no endpoint owns: asked about by path without top-level attributes, about those attributes
      as they are without rewrites, and else once per collected value, each field substituted with it. The verb
      is the configured one, else the method's, else "*". */
  lemma Format1Asks(lib: Library, user: User, req: Request, cfg: Config)
    requires NoMatch(req, cfg.endpoints)
    ensures var made := AttributesOf(lib, user, req, cfg);
            var inferred := if req.method_ in FORMAT1_VERBS then FORMAT1_VERBS[req.method_] else "*";
            && made.Ok?
            && match cfg.resourceAttributes
               case None => made.value == [NonResource(user, inferred, req.path)]
               case Some(a) =>
                 var verb := if a.verb != "" then a.verb else inferred;
                 match cfg.rewrites
                 case None =>
                   made.value == [Resource(user, verb, a.namespace_, a.apiGroup, a.apiVersion, a.resource,
                                           a.subresource, a.name)]
                 case Some(rewrites) =>
                   OncePerValue(lib, user, req, rewrites, verb, a, made.value)
  {
    ScanFindsNone(lib, user, req, cfg.endpoints);
    VerbIsInferred(req, cfg.resourceAttributes);
    if cfg.resourceAttributes.Some? && cfg.rewrites.Some? {
      RewritesSubstitute(lib, user, req, cfg);
    }
  }
}
