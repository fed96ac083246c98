/**
 From a request to the attributes to authorize: Format2 endpoint rules where an endpoint owns the path,
 otherwise Format1 top-level attributes and rewrites. Templates are opaque.
 */
module RequestAttributes {
  import opened Wrappers
  import opened Paths
  import opened EndpointMatch
  import opened EndpointConfig

  datatype TemplateData = TemplateData(
    value: string, fromHeader: string, fromQuery: string, fromMethod: string, pathParams: map<string, string>)

  /** The library functions whose results are not modelled: lower-casing, canonical header names, template
      expansion for endpoint rules (None on an error) and for Format1 values. */
  datatype Library = Library(
    lower: string -> string,
    canonical: string -> string,
    expand: (string, TemplateData) -> Option<string>,
    substitute: (string, string) -> string)

  datatype User = User(name: string, groups: seq<string>)

  /** Header fields by canonical name, each with its values in order. */
  type Headers = map<string, seq<string>>

  datatype Request = Request(method_: string, path: string, headers: Headers, query: map<string, seq<string>>)

  datatype Attributes =
    | Resource(user: User, verb: string, namespace_: string, apiGroup: string, apiVersion: string,
               resource: string, subresource: string, name: string)
    | NonResource(user: User, verb: string, path: string)

  datatype Failure =
    | MethodNotAllowed
    | MissingHeader(header: string)
    | MissingQuery(parameter: string)
    | TemplateFailed(field: string)
    | IndexPanic

  // ----- Request accessors -----

  function HeaderValues(lib: Library, req: Request, name: string): seq<string> {
    if lib.canonical(name) in req.headers then req.headers[lib.canonical(name)] else []
  }

  function HeaderGet(lib: Library, req: Request, name: string): string {
    if HeaderValues(lib, req, name) == [] then "" else HeaderValues(lib, req, name)[0]
  }

  function HttpToKubeVerb(verb: string): string {
    if verb == "GET" then "get"
    else if verb == "POST" then "create"
    else if verb == "PUT" then "update"
    else if verb == "DELETE" then "delete"
    else if verb == "PATCH" then "patch"
    else if verb == "OPTIONS" then "options"
    else if verb == "HEAD" then "head"
    else ""
  }

  predicate MatchMethods(lib: Library, fromRequest: string, fromConfig: seq<string>) {
    exists i :: 0 <= i < |fromConfig| && lib.lower(fromConfig[i]) == lib.lower(fromRequest)
  }

  // ----- Format2 -----

  type Captures = map<string, string>

  type Made = Result<Attributes, Failure>

  type AllMade = Result<seq<Attributes>, Failure>

  predicate Configured(name: Option<string>) {
    name.Some? && name.value != ""
  }

  function Named(name: Option<string>): string {
    if name.None? then "" else name.value
  }

  function RuleData(lib: Library, req: Request, rewrites: Rewrites, params: Captures): Result<TemplateData, Failure> {
    var header, parameter := Named(rewrites.byHeader), Named(rewrites.byQuery);
    var fromHeader := if header == "" then "" else HeaderGet(lib, req, header);
    if header != "" && fromHeader == "" then Err(MissingHeader(header))
    else if parameter != "" && (parameter !in req.query || req.query[parameter] == []) then Err(MissingQuery(parameter))
    else
      var fromQuery := if parameter == "" then "" else req.query[parameter][0];
      var value := if fromHeader != "" then fromHeader else fromQuery;
      Ok(TemplateData(value, fromHeader, fromQuery, HttpToKubeVerb(req.method_), params))
  }

  function Expanded(lib: Library, template: string, data: TemplateData): Option<string> {
    if template == "" then Some("") else lib.expand(template, data)
  }

  const FIELDS := ["verb", "namespace", "apiGroup", "apiVersion", "resource", "subresource", "name"]

  /** The templates of a rule in the order in which they are expanded. */
  function Templates(a: ResourceAttributes): (templates: seq<string>)
    ensures |templates| == |FIELDS|
  {
    [a.verb, a.namespace_, a.apiGroup, a.apiVersion, a.resource, a.subresource, a.name]
  }

  /** All expansions, or the position of the first template that fails. */
  function Expansions(lib: Library, templates: seq<string>, data: TemplateData): (r: Result<seq<string>, nat>)
    ensures r.Ok? ==> |r.value| == |templates|
    ensures r.Err? ==> r.error < |templates|
  {
    if templates == [] then Ok([])
    else
      var n := |templates| - 1;
      var before := Expansions(lib, templates[..n], data);
      if before.Err? then before
      else
        var last := Expanded(lib, templates[n], data);
        if last.None? then Err(n) else Ok(before.value + [last.value])
  }

  function RuleAttributes(lib: Library, user: User, req: Request, rule: Rule, params: Captures): Made {
    var made := RuleData(lib, req, rule.rewrites, params);
    if made.Err? then Err(made.error)
    else
      var fields := Expansions(lib, Templates(rule.attributes), made.value);
      if fields.Err? then Err(TemplateFailed(FIELDS[fields.error]))
      else
        var v := fields.value;
        Ok(Resource(user, if v[0] == "" then made.value.fromMethod else v[0], v[1], v[2], v[3], v[4], v[5], v[6]))
  }

  /** What each rule yields by itself. */
  function RuleResults(lib: Library, user: User, req: Request, rules: seq<Rule>, params: Captures): (results: seq<Made>)
    ensures |results| == |rules|
  {
    seq(|rules|, i requires 0 <= i < |rules| => RuleAttributes(lib, user, req, rules[i], params))
  }

  /** The first n results together, or the failure of the first failing one. */
  function Gathered(results: seq<Made>, n: nat): AllMade
    requires n <= |results|
  {
    if n == 0 then Ok([])
    else
      var before := Gathered(results, n - 1);
      if before.Err? then before
      else if results[n - 1].Err? then Err(results[n - 1].error)
      else Ok(before.value + [results[n - 1].value])
  }

  function RulesAttributes(lib: Library, user: User, req: Request, rules: seq<Rule>, params: Captures): AllMade {
    Gathered(RuleResults(lib, user, req, rules, params), |rules|)
  }

  lemma {:induction false} FailureStays(results: seq<Made>, n: nat, m: nat)
    requires n <= m <= |results| && Gathered(results, n).Err?
    ensures Gathered(results, m) == Gathered(results, n)
  {
    if n < m {
      FailureStays(results, n, m - 1);
    }
  }

  /** Gathering succeeds if and only if every result does, and then keeps them all in order; otherwise it
      fails as the first failing one does. */
  lemma {:induction false} GatheredMeaning(results: seq<Made>, n: nat)
    requires n <= |results|
    ensures Gathered(results, n).Ok? <==> forall k :: 0 <= k < n ==> results[k].Ok?
    ensures Gathered(results, n).Ok? ==>
              && |Gathered(results, n).value| == n
              && forall k :: 0 <= k < n ==> results[k] == Ok(Gathered(results, n).value[k])
    ensures Gathered(results, n).Err? ==>
              exists k :: && 0 <= k < n && results[k] == Err(Gathered(results, n).error)
                          && forall j :: 0 <= j < k ==> results[j].Ok?
  {
    if n > 0 {
      GatheredMeaning(results, n - 1);
    }
  }

  lemma GatheredGrows(results: seq<Made>, n: nat)
    requires n < |results| && Gathered(results, n).Ok? && results[n].Ok?
    ensures Gathered(results, n + 1) == Ok(Gathered(results, n).value + [results[n].value])
  {
  }

  lemma FailureDecides(results: seq<Made>, n: nat)
    requires n < |results| && Gathered(results, n).Ok? && results[n].Err?
    ensures Gathered(results, |results|) == Err(results[n].error)
  {
    assert Gathered(results, n + 1) == Err(results[n].error);
    FailureStays(results, n + 1, |results|);
  }

  method AttributesFromEndpointResourceRules(lib: Library, user: User, req: Request, rules: seq<Rule>, params: Captures)
    returns (r: AllMade)
    ensures r == RulesAttributes(lib, user, req, rules, params)
  {
    ghost var results := RuleResults(lib, user, req, rules, params);
    var attrs: seq<Attributes> := [];
    var i := 0;
    while i < |rules|
      invariant 0 <= i <= |rules|
      invariant Gathered(results, i) == Ok(attrs)
    {
      var next := RuleAttributes(lib, user, req, rules[i], params);
      assert next == results[i];
      if next.Err? {
        FailureDecides(results, i);
        return Err(next.error);
      }
      GatheredGrows(results, i);
      attrs := attrs + [next.value];
      i := i + 1;
    }
    r := Ok(attrs);
  }

  /** The rules of the first mapping that lists the method. */
  function RulesForMethod(lib: Library, method_: string, mappings: seq<Mapping>): Option<seq<Rule>> {
    if mappings == [] then None
    else if MatchMethods(lib, method_, mappings[0].methods) then Some(mappings[0].resources)
    else RulesForMethod(lib, method_, mappings[1..])
  }

  /** What a matching endpoint makes of a request. */
  function OwnedAttributes(lib: Library, user: User, req: Request, endpoint: Endpoint): AllMade {
    var rules := RulesForMethod(lib, req.method_, endpoint.mappings);
    if rules.None? then Err(MethodNotAllowed)
    else
      var params := Extracted(req.path, Split(endpoint.path));
      if params.None? then Err(IndexPanic)
      else RulesAttributes(lib, user, req, rules.value, params.value)
  }

  /** Scans the endpoints in order; None where no endpoint matches. */
  function EndpointAttributes(lib: Library, user: User, req: Request, endpoints: seq<Endpoint>): Option<AllMade> {
    if endpoints == [] then None
    else if Match(req.path, Split(endpoints[0].path)) then Some(OwnedAttributes(lib, user, req, endpoints[0]))
    else EndpointAttributes(lib, user, req, endpoints[1..])
  }

  // ----- Format1 -----

  function RewriteParams(lib: Library, req: Request, rewrites: Rewrites): seq<string> {
    var parameter, header := Named(rewrites.byQuery), Named(rewrites.byHeader);
    (if parameter != "" && parameter in req.query then req.query[parameter] else [])
    + (if header != "" then HeaderValues(lib, req, header) else [])
  }

  /** How many values a configured query parameter has in the request. */
  function QueryCount(req: Request, name: Option<string>): nat {
    if Configured(name) && name.value in req.query then |req.query[name.value]| else 0
  }

  function HeaderCount(lib: Library, req: Request, name: Option<string>): nat {
    if Configured(name) then |HeaderValues(lib, req, name.value)| else 0
  }

  /** The values of the configured query parameter, then those of the configured header, in order and with
      repetitions; none if and only if neither configured source occurs in the request. */
  predicate InOrder(lib: Library, req: Request, rewrites: Rewrites, params: seq<string>) {
    var n, m := QueryCount(req, rewrites.byQuery), HeaderCount(lib, req, rewrites.byHeader);
    && |params| == n + m
    && (n > 0 ==> params[..n] == req.query[rewrites.byQuery.value])
    && (m > 0 ==> params[n..] == HeaderValues(lib, req, rewrites.byHeader.value))
  }

  lemma ParamsInOrder(lib: Library, req: Request, rewrites: Rewrites)
    ensures InOrder(lib, req, rewrites, RewriteParams(lib, req, rewrites))
    ensures forall params :: InOrder(lib, req, rewrites, params) ==> params == RewriteParams(lib, req, rewrites)
  {
    var n := QueryCount(req, rewrites.byQuery);
    forall params | InOrder(lib, req, rewrites, params)
      ensures params == RewriteParams(lib, req, rewrites)
    {
      assert params == params[..n] + params[n..];
    }
  }

  method CollectRewriteParams(lib: Library, req: Request, rewrites: Rewrites) returns (params: seq<string>)
    ensures InOrder(lib, req, rewrites, params)
    ensures params == [] <==> QueryCount(req, rewrites.byQuery) == 0 && HeaderCount(lib, req, rewrites.byHeader) == 0
    ensures params == RewriteParams(lib, req, rewrites)
  {
    params := [];
    if rewrites.byQuery.Some? && rewrites.byQuery.value != "" && rewrites.byQuery.value in req.query {
      params := params + req.query[rewrites.byQuery.value];
    }
    if rewrites.byHeader.Some? && rewrites.byHeader.value != "" {
      params := params + HeaderValues(lib, req, rewrites.byHeader.value);
    }
    ParamsInOrder(lib, req, rewrites);
  }

  function ApiVerb(req: Request, attributes: Option<ResourceAttributes>): string {
    if attributes.Some? && attributes.value.verb != "" then attributes.value.verb
    else if req.method_ == "POST" then "create"
    else if req.method_ == "GET" then "get"
    else if req.method_ == "PUT" then "update"
    else if req.method_ == "PATCH" then "patch"
    else if req.method_ == "DELETE" then "delete"
    else "*"
  }

  function ValueAttributes(lib: Library, user: User, verb: string, a: ResourceAttributes, value: string): Attributes {
    Resource(user, verb, lib.substitute(a.namespace_, value), lib.substitute(a.apiGroup, value),
             lib.substitute(a.apiVersion, value), lib.substitute(a.resource, value),
             lib.substitute(a.subresource, value), lib.substitute(a.name, value))
  }

  function Format1Attributes(lib: Library, user: User, req: Request, cfg: Config): seq<Attributes> {
    var verb := ApiVerb(req, cfg.resourceAttributes);
    match cfg.resourceAttributes
    case None => [NonResource(user, verb, req.path)]
    case Some(a) =>
      match cfg.rewrites
      case None => [Resource(user, verb, a.namespace_, a.apiGroup, a.apiVersion, a.resource, a.subresource, a.name)]
      case Some(rewrites) =>
        var params := RewriteParams(lib, req, rewrites);
        seq(|params|, i requires 0 <= i < |params| => ValueAttributes(lib, user, verb, a, params[i]))
  }

  // ----- The choice -----

  function AttributesOf(lib: Library, user: User, req: Request, cfg: Config): AllMade {
    match EndpointAttributes(lib, user, req, cfg.endpoints)
    case Some(owned) => owned
    case None => Ok(Format1Attributes(lib, user, req, cfg))
  }

  method GetRequestAttributes(lib: Library, user: User, req: Request, cfg: Config) returns (r: AllMade)
    ensures r == AttributesOf(lib, user, req, cfg)
  {
    if |cfg.endpoints| > 0 {
      var owned := EndpointAttributes(lib, user, req, cfg.endpoints);
      if owned.Some? {
        return owned.value;
      }
    }
    var apiVerb := "*";
    if req.method_ == "POST" {
      apiVerb := "create";
    } else if req.method_ == "GET" {
      apiVerb := "get";
    } else if req.method_ == "PUT" {
      apiVerb := "update";
    } else if req.method_ == "PATCH" {
      apiVerb := "patch";
    } else if req.method_ == "DELETE" {
      apiVerb := "delete";
    }
    if cfg.resourceAttributes.Some? && cfg.resourceAttributes.value.verb != "" {
      apiVerb := cfg.resourceAttributes.value.verb;
    }
    if cfg.resourceAttributes.None? {
      return Ok([NonResource(user, apiVerb, req.path)]);
    }
    var a := cfg.resourceAttributes.value;
    if cfg.rewrites.None? {
      return Ok([Resource(user, apiVerb, a.namespace_, a.apiGroup, a.apiVersion, a.resource, a.subresource, a.name)]);
    }
    var params := CollectRewriteParams(lib, req, cfg.rewrites.value);
    var attrs := ExpandForValues(lib, user, apiVerb, a, params);
    assert attrs == Format1Attributes(lib, user, req, cfg);
    r := Ok(attrs);
  }

  /** One attribute per collected value. */
  method ExpandForValues(lib: Library, user: User, verb: string, a: ResourceAttributes, params: seq<string>)
    returns (attrs: seq<Attributes>)
    ensures |attrs| == |params|
    ensures forall k :: 0 <= k < |params| ==> attrs[k] == ValueAttributes(lib, user, verb, a, params[k])
  {
    attrs := [];
    var i := 0;
    while i < |params|
      invariant 0 <= i <= |params| && |attrs| == i
      invariant forall k :: 0 <= k < i ==> attrs[k] == ValueAttributes(lib, user, verb, a, params[k])
    {
      attrs := attrs + [ValueAttributes(lib, user, verb, a, params[i])];
      i := i + 1;
    }
  }

  // ----- What the fields mean -----

  /** A rule's data exist exactly when every configured source is in the request; the header wins over the
      query parameter as the value, and a rule without sources has an empty value. */
  lemma DataIffSourcesPresent(lib: Library, req: Request, rewrites: Rewrites, params: Captures)
    ensures var made := RuleData(lib, req, rewrites, params);
            && (made.Ok? <==> SourcesPresent(lib, req, rewrites))
            && (made.Err? ==> made.error.MissingHeader? || made.error.MissingQuery?)
            && (made.Err? && made.error.MissingQuery? && Configured(rewrites.byHeader) ==>
                  HeaderGet(lib, req, rewrites.byHeader.value) != "")
            && (made.Ok? ==>
                && made.value.pathParams == params
                && made.value.value ==
                   (if Configured(rewrites.byHeader) then HeaderGet(lib, req, rewrites.byHeader.value)
                    else if Configured(rewrites.byQuery) then req.query[rewrites.byQuery.value][0]
                                        else ""))
  {
  }

  /** Fields that are templates for themselves only, whatever the data. */
  ghost predicate PlainRule(lib: Library, a: ResourceAttributes) {
    forall t, data :: t in Templates(a) ==> Expanded(lib, t, data) == Some(t)
  }

  function Resourced(user: User, verb: string, a: ResourceAttributes): Attributes {
    Resource(user, verb, a.namespace_, a.apiGroup, a.apiVersion, a.resource, a.subresource, a.name)
  }

  function Verbatim(user: User, req: Request, a: ResourceAttributes): Attributes {
    Resourced(user, if a.verb == "" then HttpToKubeVerb(req.method_) else a.verb, a)
  }

  predicate SourcesPresent(lib: Library, req: Request, rewrites: Rewrites) {
    && (Configured(rewrites.byHeader) ==> HeaderGet(lib, req, rewrites.byHeader.value) != "")
    && (Configured(rewrites.byQuery) ==> rewrites.byQuery.value in req.query && req.query[rewrites.byQuery.value] != [])
  }

  lemma PlainRuleIff(lib: Library, user: User, req: Request, rule: Rule, params: Captures)
    requires PlainRule(lib, rule.attributes)
    ensures RuleAttributes(lib, user, req, rule, params).Ok? <==> SourcesPresent(lib, req, rule.rewrites)
    ensures RuleAttributes(lib, user, req, rule, params).Ok? ==>
              RuleAttributes(lib, user, req, rule, params) == Ok(Verbatim(user, req, rule.attributes))
  {
    DataIffSourcesPresent(lib, req, rule.rewrites, params);
    var made := RuleData(lib, req, rule.rewrites, params);
    if made.Ok? {
      LiteralRuleIsVerbatim(lib, user, req, rule, params);
    }
  }

  /** A rule without templates authorizes exactly the fields it names, with the verb of the method when it
      names none. */
  lemma LiteralRuleIsVerbatim(lib: Library, user: User, req: Request, rule: Rule, params: Captures)
    requires RuleData(lib, req, rule.rewrites, params).Ok? && PlainRule(lib, rule.attributes)
    ensures RuleAttributes(lib, user, req, rule, params) == Ok(Verbatim(user, req, rule.attributes))
  {
    PlainExpansions(lib, Templates(rule.attributes), RuleData(lib, req, rule.rewrites, params).value);
  }

  lemma {:induction false} PlainExpansions(lib: Library, templates: seq<string>, data: TemplateData)
    requires forall t :: t in templates ==> Expanded(lib, t, data) == Some(t)
    ensures Expansions(lib, templates, data) == Ok(templates)
  {
    if templates != [] {
      var n := |templates| - 1;
      PlainExpansions(lib, templates[..n], data);
      assert templates == templates[..n] + [templates[n]];
    }
  }

  lemma PlainRulesIff(lib: Library, user: User, req: Request, rules: seq<Rule>, params: Captures)
    requires forall k :: 0 <= k < |rules| ==> PlainRule(lib, rules[k].attributes)
    ensures var made := RulesAttributes(lib, user, req, rules, params);
            && (made.Ok? <==> forall k :: 0 <= k < |rules| ==> SourcesPresent(lib, req, rules[k].rewrites))
            && (made.Ok? ==>
                  && |made.value| == |rules|
                  && forall k :: 0 <= k < |rules| ==> made.value[k] == Verbatim(user, req, rules[k].attributes))
  {
    forall k | 0 <= k < |rules|
      ensures RuleAttributes(lib, user, req, rules[k], params).Ok? <==> SourcesPresent(lib, req, rules[k].rewrites)
      ensures RuleAttributes(lib, user, req, rules[k], params).Ok? ==>
                RuleAttributes(lib, user, req, rules[k], params) == Ok(Verbatim(user, req, rules[k].attributes))
    {
      PlainRuleIff(lib, user, req, rules[k], params);
    }
    OneAttributePerRule(lib, user, req, rules, params);
  }

  /** An endpoint without templates, once it owns a request and lists its method, authorizes it if and only if
      every source its rules name is in the request, and then exactly for its rules' own fields in order. */
  lemma PlainEndpointIff(lib: Library, user: User, req: Request, cfg: Config, i: nat)
    requires FirstMatch(req, cfg.endpoints, i) && req.path != ""
    requires RulesForMethod(lib, req.method_, cfg.endpoints[i].mappings).Some?
    requires var rules := RulesForMethod(lib, req.method_, cfg.endpoints[i].mappings).value;
             forall k :: 0 <= k < |rules| ==> PlainRule(lib, rules[k].attributes)
    ensures var rules := RulesForMethod(lib, req.method_, cfg.endpoints[i].mappings).value;
            var made := AttributesOf(lib, user, req, cfg);
            && (made.Ok? <==> forall k :: 0 <= k < |rules| ==> SourcesPresent(lib, req, rules[k].rewrites))
            && (made.Ok? ==>
                  && |made.value| == |rules|
                  && forall k :: 0 <= k < |rules| ==> made.value[k] == Verbatim(user, req, rules[k].attributes))
  {
    var endpoint := cfg.endpoints[i];
    FirstMatchOwns(lib, user, req, cfg, i, cfg.(endpoints := [endpoint]));
    ExtractionInRangeIff(req.path, Split(endpoint.path));
    var rules := RulesForMethod(lib, req.method_, endpoint.mappings).value;
    PlainRulesIff(lib, user, req, rules, Extracted(req.path, Split(endpoint.path)).value);
  }

  /** Moving resource attributes without templates from the top level into the one rule of an endpoint leaves
      what is authorized unchanged if and only if they name a verb or the method is one that Format1 knows. */
  lemma FormatsAgreeIff(lib: Library, user: User, req: Request, cfg: Config, i: nat, a: ResourceAttributes)
    requires FirstMatch(req, cfg.endpoints, i) && req.path != "" && PlainRule(lib, a)
    requires RulesForMethod(lib, req.method_, cfg.endpoints[i].mappings) == Some([Rule(Rewrites(None, None), a)])
    ensures AttributesOf(lib, user, req, cfg) == AttributesOf(lib, user, req, Config(None, Some(a), []))
            <==> a.verb != "" || req.method_ in ["GET", "POST", "PUT", "PATCH", "DELETE"]
  {
    PlainEndpointIff(lib, user, req, cfg, i);
    var owned := AttributesOf(lib, user, req, cfg);
    assert owned.value == [Verbatim(user, req, a)];
    VerbsAgreeIff(req);
  }

  /** Format1 attributes without templates do not depend on the values collected: with rewrites there is one
      attribute per value, each the attribute that would be authorized without rewrites. */
  lemma LiteralRewritesRepeat(lib: Library, user: User, req: Request, cfg: Config)
    requires cfg.resourceAttributes.Some? && cfg.rewrites.Some?
    requires var a := cfg.resourceAttributes.value;
             forall t, v :: t in [a.namespace_, a.apiGroup, a.apiVersion, a.resource, a.subresource, a.name] ==>
               lib.substitute(t, v) == t
    ensures |Format1Attributes(lib, user, req, cfg)| == |RewriteParams(lib, req, cfg.rewrites.value)|
    ensures forall k :: 0 <= k < |Format1Attributes(lib, user, req, cfg)| ==>
              [Format1Attributes(lib, user, req, cfg)[k]] == Format1Attributes(lib, user, req, cfg.(rewrites := None))
  {
    var a := cfg.resourceAttributes.value;
    var fields := [a.namespace_, a.apiGroup, a.apiVersion, a.resource, a.subresource, a.name];
    assert fields[0] == a.namespace_ && fields[1] == a.apiGroup && fields[2] == a.apiVersion;
    assert fields[3] == a.resource && fields[4] == a.subresource && fields[5] == a.name;
    assert forall i, v :: 0 <= i < 6 ==> lib.substitute(fields[i], v) == fields[i];
  }

  /** The two formats infer the same verb from a method exactly for the five that Format1 knows. */
  lemma VerbsAgreeIff(req: Request)
    ensures HttpToKubeVerb(req.method_) == ApiVerb(req, None)
            <==> req.method_ in ["GET", "POST", "PUT", "PATCH", "DELETE"]
  {
  }

  // ----- Ownership -----

  predicate FirstMatch(req: Request, endpoints: seq<Endpoint>, i: nat) {
    && i < |endpoints|
    && Match(req.path, Split(endpoints[i].path))
    && forall k :: 0 <= k < i ==> !Match(req.path, Split(endpoints[k].path))
  }

  predicate NoMatch(req: Request, endpoints: seq<Endpoint>) {
    forall k :: 0 <= k < |endpoints| ==> !Match(req.path, Split(endpoints[k].path))
  }

  lemma {:induction false} ScanFindsFirst(lib: Library, user: User, req: Request, endpoints: seq<Endpoint>, i: nat)
    requires FirstMatch(req, endpoints, i)
    ensures EndpointAttributes(lib, user, req, endpoints) == Some(OwnedAttributes(lib, user, req, endpoints[i]))
  {
    if i > 0 {
      assert forall k :: 0 <= k < i - 1 ==> endpoints[1..][k] == endpoints[k + 1];
      ScanFindsFirst(lib, user, req, endpoints[1..], i - 1);
    }
  }

  lemma {:induction false} ScanFindsNone(lib: Library, user: User, req: Request, endpoints: seq<Endpoint>)
    requires NoMatch(req, endpoints)
    ensures EndpointAttributes(lib, user, req, endpoints).None?
  {
    if endpoints != [] {
      assert forall k :: 0 <= k < |endpoints| - 1 ==> endpoints[1..][k] == endpoints[k + 1];
      ScanFindsNone(lib, user, req, endpoints[1..]);
    }
  }

  /** The first matching endpoint alone decides: other endpoints, top-level rewrites and top-level
      resource attributes do not matter, even when the endpoint fails. */
  lemma FirstMatchOwns(lib: Library, user: User, req: Request, cfg: Config, i: nat, other: Config)
    requires FirstMatch(req, cfg.endpoints, i) && other.endpoints == [cfg.endpoints[i]]
    ensures AttributesOf(lib, user, req, cfg) == AttributesOf(lib, user, req, other)
    ensures AttributesOf(lib, user, req, cfg) == OwnedAttributes(lib, user, req, cfg.endpoints[i])
  {
    ScanFindsFirst(lib, user, req, cfg.endpoints, i);
    ScanFindsFirst(lib, user, req, other.endpoints, 0);
  }

  /** Endpoints that do not match the path have no influence. */
  lemma UnmatchedEndpointsVanish(lib: Library, user: User, req: Request, cfg: Config)
    requires NoMatch(req, cfg.endpoints)
    ensures AttributesOf(lib, user, req, cfg) == AttributesOf(lib, user, req, cfg.(endpoints := []))
  {
    ScanFindsNone(lib, user, req, cfg.endpoints);
    assert Format1Attributes(lib, user, req, cfg) == Format1Attributes(lib, user, req, cfg.(endpoints := []));
  }

  /** The audit logger's own scan sets its flag exactly when attribute construction reports a match. */
  lemma {:induction false} AuditFlagAgrees(lib: Library, user: User, req: Request, endpoints: seq<Endpoint>)
    ensures EndpointAttributes(lib, user, req, endpoints).Some?
            <==> exists k :: 0 <= k < |endpoints| && Match(req.path, Split(endpoints[k].path))
  {
    if NoMatch(req, endpoints) {
      ScanFindsNone(lib, user, req, endpoints);
    } else {
      var k :| 0 <= k < |endpoints| && Match(req.path, Split(endpoints[k].path));
      var i := FindFirst(req, endpoints, k);
      ScanFindsFirst(lib, user, req, endpoints, i);
    }
  }

  lemma {:induction false} FindFirst(req: Request, endpoints: seq<Endpoint>, k: nat) returns (i: nat)
    requires k < |endpoints| && Match(req.path, Split(endpoints[k].path))
    ensures FirstMatch(req, endpoints, i) && i <= k
  {
    if j: nat :| j < k && Match(req.path, Split(endpoints[j].path)) {
      i := FindFirst(req, endpoints, j);
    } else {
      i := k;
    }
  }

  // ----- Validation is sound at run time -----

  /** Success yields exactly one attribute per rule, in order, each from its own rule; otherwise the failure
      is that of the first rule that fails. */
  lemma OneAttributePerRule(lib: Library, user: User, req: Request, rules: seq<Rule>, params: Captures)
    ensures match RulesAttributes(lib, user, req, rules, params)
            case Ok(attrs) =>
              && |attrs| == |rules|
              && forall k :: 0 <= k < |rules| ==> RuleAttributes(lib, user, req, rules[k], params) == Ok(attrs[k])
            case Err(failure) =>
              exists k :: && 0 <= k < |rules| && RuleAttributes(lib, user, req, rules[k], params) == Err(failure)
                          && forall j :: 0 <= j < k ==> RuleAttributes(lib, user, req, rules[j], params).Ok?
  {
    var results := RuleResults(lib, user, req, rules, params);
    GatheredMeaning(results, |rules|);
    assert forall k :: 0 <= k < |rules| ==> results[k] == RuleAttributes(lib, user, req, rules[k], params);
  }

  lemma {:induction false} RulesOfMethod(lib: Library, method_: string, mappings: seq<Mapping>)
    ensures match RulesForMethod(lib, method_, mappings)
            case None => forall m :: 0 <= m < |mappings| ==> !MatchMethods(lib, method_, mappings[m].methods)
            case Some(rules) =>
              exists m :: && 0 <= m < |mappings| && rules == mappings[m].resources
                          && MatchMethods(lib, method_, mappings[m].methods)
                          && forall k :: 0 <= k < m ==> !MatchMethods(lib, method_, mappings[k].methods)
  {
    if mappings != [] && !MatchMethods(lib, method_, mappings[0].methods) {
      RulesOfMethod(lib, method_, mappings[1..]);
      var rest := mappings[1..];
      assert forall k :: 0 < k < |mappings| ==> mappings[k] == rest[k - 1];
      if RulesForMethod(lib, method_, rest).Some? {
        var m :| 0 <= m < |rest| && RulesForMethod(lib, method_, rest).value == rest[m].resources
                 && MatchMethods(lib, method_, rest[m].methods)
                 && forall k :: 0 <= k < m ==> !MatchMethods(lib, method_, rest[k].methods);
        assert mappings[m + 1] == rest[m];
      }
    }
  }

  /** With an accepted configuration a request that an endpoint owns fails, or yields one attribute per
      rule of the first mapping listing its method, in order and at least one. */
  lemma OwnedRequestsYieldAttributes(blank: string -> bool, lib: Library, user: User, req: Request, cfg: Config, i: nat)
    requires ValidConfig(blank, cfg) && FirstMatch(req, cfg.endpoints, i)
    requires AttributesOf(lib, user, req, cfg).Ok?
    ensures var attrs := AttributesOf(lib, user, req, cfg).value;
            && attrs != []
            && Extracted(req.path, Split(cfg.endpoints[i].path)).Some?
            && exists m :: && 0 <= m < |cfg.endpoints[i].mappings|
                           && MatchMethods(lib, req.method_, cfg.endpoints[i].mappings[m].methods)
                           && |attrs| == |cfg.endpoints[i].mappings[m].resources|
                           && forall k :: 0 <= k < |attrs| ==>
                                RuleAttributes(lib, user, req, cfg.endpoints[i].mappings[m].resources[k],
                                               Extracted(req.path, Split(cfg.endpoints[i].path)).value) == Ok(attrs[k])
  {
    var endpoint := cfg.endpoints[i];
    FirstMatchOwns(lib, user, req, cfg, i, cfg.(endpoints := [endpoint]));
    RulesOfMethod(lib, req.method_, endpoint.mappings);
    var rules := RulesForMethod(lib, req.method_, endpoint.mappings).value;
    OneAttributePerRule(lib, user, req, rules, Extracted(req.path, Split(endpoint.path)).value);
    assert ValidEndpoint(blank, endpoint);
  }

  /** The method is refused exactly when no mapping of the owning endpoint lists it. */
  lemma MethodRefusedIff(lib: Library, user: User, req: Request, cfg: Config, i: nat)
    requires FirstMatch(req, cfg.endpoints, i)
    ensures AttributesOf(lib, user, req, cfg) == Err(MethodNotAllowed)
            <==> forall m, c :: 0 <= m < |cfg.endpoints[i].mappings| && c in cfg.endpoints[i].mappings[m].methods ==>
                   lib.lower(c) != lib.lower(req.method_)
  {
    var endpoint := cfg.endpoints[i];
    FirstMatchOwns(lib, user, req, cfg, i, cfg.(endpoints := [endpoint]));
    RulesOfMethod(lib, req.method_, endpoint.mappings);
    if RulesForMethod(lib, req.method_, endpoint.mappings).Some? {
      var params := Extracted(req.path, Split(endpoint.path));
      if params.Some? {
        var rules := RulesForMethod(lib, req.method_, endpoint.mappings).value;
        RulesNeverRefuse(lib, user, req, rules, params.value);
      }
    }
  }

  lemma RulesNeverRefuse(lib: Library, user: User, req: Request, rules: seq<Rule>, params: Captures)
    ensures RulesAttributes(lib, user, req, rules, params) != Err(MethodNotAllowed)
    ensures RulesAttributes(lib, user, req, rules, params) != Err(IndexPanic)
  {
    OneAttributePerRule(lib, user, req, rules, params);
  }

  /** Attribute construction panics exactly for the empty path on an owning endpoint whose last segment is
      a capture and which has a mapping for the method. */
  lemma PanicsIff(lib: Library, user: User, req: Request, cfg: Config, i: nat)
    requires FirstMatch(req, cfg.endpoints, i)
    ensures var parts := Split(cfg.endpoints[i].path);
            AttributesOf(lib, user, req, cfg) == Err(IndexPanic)
            <==> req.path == "" && IsCapture(parts[|parts| - 1])
                 && RulesForMethod(lib, req.method_, cfg.endpoints[i].mappings).Some?
  {
    var endpoint := cfg.endpoints[i];
    FirstMatchOwns(lib, user, req, cfg, i, cfg.(endpoints := [endpoint]));
    ExtractionInRangeIff(req.path, Split(endpoint.path));
    var rules := RulesForMethod(lib, req.method_, endpoint.mappings);
    var params := Extracted(req.path, Split(endpoint.path));
    if rules.Some? && params.Some? {
      RulesNeverRefuse(lib, user, req, rules.value, params.value);
    }
  }

  // ----- Only the cleaned path matters -----

  lemma RuleIgnoresPath(lib: Library, user: User, req: Request, q: string, rule: Rule, params: Captures)
    ensures RuleAttributes(lib, user, req, rule, params) == RuleAttributes(lib, user, req.(path := q), rule, params)
  {
    assert RuleData(lib, req, rule.rewrites, params) == RuleData(lib, req.(path := q), rule.rewrites, params);
  }

  lemma RulesIgnorePath(lib: Library, user: User, req: Request, q: string, rules: seq<Rule>, params: Captures)
    ensures RulesAttributes(lib, user, req, rules, params) == RulesAttributes(lib, user, req.(path := q), rules, params)
  {
    forall k | 0 <= k < |rules|
      ensures RuleAttributes(lib, user, req, rules[k], params)
              == RuleAttributes(lib, user, req.(path := q), rules[k], params)
    {
      RuleIgnoresPath(lib, user, req, q, rules[k], params);
    }
    assert RuleResults(lib, user, req, rules, params) == RuleResults(lib, user, req.(path := q), rules, params);
  }

  /** Two spellings of a path that clean alike are authorized alike by Format2. */
  lemma {:induction false} Format2DependsOnCleanedPath(lib: Library, user: User, req: Request, q: string,
                                                       endpoints: seq<Endpoint>)
    requires req.path != "" && q != "" && Clean(req.path) == Clean(q)
    ensures EndpointAttributes(lib, user, req, endpoints) == EndpointAttributes(lib, user, req.(path := q), endpoints)
  {
    if endpoints != [] {
      var parts := Split(endpoints[0].path);
      OnlyCleanedPathMatters(req.path, q, parts);
      if Match(req.path, parts) {
        var rules := RulesForMethod(lib, req.method_, endpoints[0].mappings);
        if rules.Some? && Extracted(q, parts).Some? {
          RulesIgnorePath(lib, user, req, q, rules.value, Extracted(q, parts).value);
        }
      } else {
        Format2DependsOnCleanedPath(lib, user, req, q, endpoints[1..]);
      }
    }
  }
}
