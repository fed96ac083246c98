/**
 The audit record as JSON: the object that a reader makes of an encoded record, member by member. Strings
 come back with undecodable bytes replaced, and empty members that the encoder omits stay away.
 */
module RecordText {
  import opened Wrappers
  import opened Utf8
  import opened Json
  import opened JsonReader
  import opened AuditEvent

  // ----- The record as a JSON object -----

  function M(key: string, v: Value): Member {
    Member(Ascii(key), v)
  }

  function S(s: Bytes): Value {
    Text(Coerced(s))
  }

  function Strings(items: seq<Bytes>): seq<Value> {
    seq(|items|, i requires 0 <= i < |items| => S(items[i]))
  }

  function ProductValue(p: Product): Value {
    Object([M("name", S(p.name))] + [M("version", S(p.version))])
  }

  function MetadataValue(m: Metadata): Value {
    Object([M("version", S(m.version))] + [M("profiles", List(Strings(m.profiles)))]
           + [M("product", ProductValue(m.product))] + [M("logged_time", Number(m.loggedTime))]
           + Unless(!m.isTruncated, M("is_truncated", Truth(m.isTruncated)))
           + Unless(m.untruncatedSize == 0, M("untruncated_size", Number(m.untruncatedSize))))
  }

  function GroupValue(group: Bytes): Value {
    Object([M("name", S(group))])
  }

  function GroupValues(groups: seq<Bytes>): seq<Value> {
    seq(|groups|, i requires 0 <= i < |groups| => GroupValue(groups[i]))
  }

  function UserValue(u: User): Value {
    Object([M("name", S(u.name))] + Unless(u.uid == [], M("uid", S(u.uid))) + [M("type_id", Number(u.typeId))]
           + Unless(u.groups == [], M("groups", List(GroupValues(u.groups)))))
  }

  function RequestValue(r: HttpRequest): Value {
    Object([M("http_method", S(r.method_))] + [M("version", S(r.version))] + [M("url", Object([M("path", S(r.path))]))]
           + Unless(r.forwardedFor == [], M("x_forwarded_for", List(Strings(r.forwardedFor)))))
  }

  function ResponseValue(r: HttpResponse): Value {
    Object([M("code", Number(r.code))] + [M("body_length", Number(r.bodyLength))] + [M("latency", Number(r.latency))])
  }

  function EndpointValue(e: Endpoint): Value {
    Object([] + Unless(e.name == [], M("name", S(e.name))) + Unless(e.hostname == [], M("hostname", S(e.hostname)))
           + Unless(e.ip == [], M("ip", S(e.ip))) + Unless(e.port == 0, M("port", Number(e.port))))
  }

  function ResourceValue(r: Resource): Value {
    Object([M("name", S(r.name))] + Unless(r.namespace_ == [], M("namespace", S(r.namespace_)))
           + Unless(r.type_ == [], M("type", S(r.type_))) + [M("role_id", Number(r.roleId))] + [M("role", S(r.role))])
  }

  function ResourceValues(rs: seq<Resource>): seq<Value> {
    seq(|rs|, i requires 0 <= i < |rs| => ResourceValue(rs[i]))
  }

  function ModelValue(m: AiModel): Value {
    Object([M("name", S(m.name))] + [M("ai_provider", S(m.provider))])
  }

  function ClassMembers(e: Event): seq<Member> {
    [M("activity_id", Number(e.activityId))] + [M("activity_name", S(e.activityName))]
    + [M("category_uid", Number(e.categoryUid))] + [M("category_name", S(e.categoryName))]
    + [M("class_uid", Number(e.classUid))] + [M("class_name", S(e.className))]
    + [M("type_uid", Number(e.typeUid))] + [M("severity_id", Number(e.severityId))]
    + [M("severity", S(e.severity))] + [M("time", Number(e.time))]
  }

  function ExchangeMembers(e: Event): seq<Member> {
    [M("metadata", MetadataValue(e.metadata)), M("actor", Object([M("user", UserValue(e.user))])),
     M("api", Object([M("operation", S(e.operation))])), M("http_request", RequestValue(e.request)),
     M("http_response", ResponseValue(e.response)), M("src_endpoint", EndpointValue(e.source))]
  }

  function DestinationMembers(destination: Option<Endpoint>): seq<Member> {
    if destination.None? then [] else [M("dst_endpoint", EndpointValue(destination.value))]
  }

  function ModelMembers(model: Option<AiModel>): seq<Member> {
    if model.None? then [] else [M("ai_model", ModelValue(model.value))]
  }

  function OutcomeMembers(e: Event): seq<Member> {
    DestinationMembers(e.destination)
    + [M("status_id", Number(e.statusId)), M("status", S(e.status)), M("status_code", S(e.statusCode))]
    + Unless(e.resources == [], M("resources", List(ResourceValues(e.resources))))
    + ModelMembers(e.aiModel)
  }

  function RecordValue(e: Event): Value {
    Object(ClassMembers(e) + ExchangeMembers(e) + OutcomeMembers(e))
  }

  // ----- One more member -----

  lemma PutString(acc: Bytes, members: seq<Member>, key: string, s: Bytes)
    requires Before(acc, members) && PlainKey(key)
    ensures Before(Put(acc, key, Quoted(s)), members + [M(key, S(s))])
  {
    QuotedDenotes(s);
    PutOpens(acc, members, key, Quoted(s), S(s));
  }

  lemma PutInteger(acc: Bytes, members: seq<Member>, key: string, n: Int64)
    requires Before(acc, members) && PlainKey(key)
    ensures Before(Put(acc, key, Decimal(n)), members + [M(key, Number(n))])
  {
    DecimalDenotes(n);
    PutOpens(acc, members, key, Decimal(n), Number(n));
  }

  lemma FirstString(key: string, s: Bytes)
    requires PlainKey(key)
    ensures Before(Put([], key, Quoted(s)), [M(key, S(s))])
  {
    PutString([], [], key, s);
    assert [] + [M(key, S(s))] == [M(key, S(s))];
  }

  lemma FirstInteger(key: string, n: Int64)
    requires PlainKey(key)
    ensures Before(Put([], key, Decimal(n)), [M(key, Number(n))])
  {
    PutInteger([], [], key, n);
    assert [] + [M(key, Number(n))] == [M(key, Number(n))];
  }

  /** An object with one member. */
  lemma SingleReads(key: string, text: Bytes, v: Value)
    requires PlainKey(key) && Denotes(text, v)
    ensures Denotes(Closed(Put([], key, text)), Object([M(key, v)]))
  {
    PutOpens([], [], key, text, v);
    assert [] + [M(key, v)] == [M(key, v)];
    ClosedDenotes(Put([], key, text), [M(key, v)]);
  }

  lemma PutStringUnless(acc: Bytes, members: seq<Member>, key: string, s: Bytes)
    requires Before(acc, members) && PlainKey(key)
    ensures Before(PutUnless(s == [], acc, key, Quoted(s)), members + Unless(s == [], M(key, S(s))))
  {
    QuotedDenotes(s);
    PutUnlessReads(s == [], acc, members, key, Quoted(s), S(s));
  }

  lemma PutIntegerUnless(acc: Bytes, members: seq<Member>, key: string, n: Int64)
    requires Before(acc, members) && PlainKey(key)
    ensures Before(PutUnless(n == 0, acc, key, Decimal(n)), members + Unless(n == 0, M(key, Number(n))))
  {
    DecimalDenotes(n);
    PutUnlessReads(n == 0, acc, members, key, Decimal(n), Number(n));
  }

  lemma PutValue(acc: Bytes, members: seq<Member>, key: string, text: Bytes, v: Value)
    requires Before(acc, members) && PlainKey(key) && Denotes(text, v)
    ensures Before(Put(acc, key, text), members + [M(key, v)])
  {
    PutOpens(acc, members, key, text, v);
  }

  // ----- The parts of the record -----

  lemma StringsRead(items: seq<Bytes>)
    ensures Denotes(Array(QuotedAll(items)), List(Strings(items)))
  {
    forall i | 0 <= i < |items|
      ensures Denotes(QuotedAll(items)[i], Strings(items)[i])
    {
      QuotedDenotes(items[i]);
    }
    ArrayDenotes(QuotedAll(items), Strings(items));
  }

  lemma ProductReads(p: Product)
    ensures Denotes(EncodedProduct(p), ProductValue(p))
  {
    var a := Put([], "name", Quoted(p.name));
    FirstString("name", p.name);
    PutString(a, [M("name", S(p.name))], "version", p.version);
    ClosedDenotes(Put(a, "version", Quoted(p.version)), [M("name", S(p.name))] + [M("version", S(p.version))]);
  }

  lemma MetadataReads(m: Metadata)
    ensures Denotes(EncodedMetadata(m), MetadataValue(m))
  {
    ProductReads(m.product);
    StringsRead(m.profiles);
    MetadataChain(m, Array(QuotedAll(m.profiles)), List(Strings(m.profiles)), EncodedProduct(m.product),
                  ProductValue(m.product));
  }

  lemma MetadataChain(m: Metadata, profiles: Bytes, v: Value, product: Bytes, w: Value)
    requires Denotes(profiles, v) && Denotes(product, w)
    ensures var d := Put(Put(Put(Put([], "version", Quoted(m.version)), "profiles", profiles), "product", product),
                         "logged_time", Decimal(m.loggedTime));
            var e := PutUnless(!m.isTruncated, d, "is_truncated", Boolean(m.isTruncated));
            Denotes(Closed(PutUnless(m.untruncatedSize == 0, e, "untruncated_size", Decimal(m.untruncatedSize))),
                    Object([M("version", S(m.version))] + [M("profiles", v)] + [M("product", w)]
                           + [M("logged_time", Number(m.loggedTime))]
                           + Unless(!m.isTruncated, M("is_truncated", Truth(m.isTruncated)))
                           + Unless(m.untruncatedSize == 0, M("untruncated_size", Number(m.untruncatedSize)))))
  {
    var a := Put([], "version", Quoted(m.version));
    var b := Put(a, "profiles", profiles);
    var c := Put(b, "product", product);
    var m1 := [M("version", S(m.version))];
    var m3 := m1 + [M("profiles", v)] + [M("product", w)];
    FirstString("version", m.version);
    PutValue(a, m1, "profiles", profiles, v);
    PutValue(b, m1 + [M("profiles", v)], "product", product, w);
    PutInteger(c, m3, "logged_time", m.loggedTime);
    TruncationReads(Put(c, "logged_time", Decimal(m.loggedTime)), m3 + [M("logged_time", Number(m.loggedTime))],
                    m.isTruncated, m.untruncatedSize);
  }

  lemma TruncationReads(acc: Bytes, before: seq<Member>, truncated: bool, size: Int64)
    requires Before(acc, before)
    ensures var e := PutUnless(!truncated, acc, "is_truncated", Boolean(truncated));
            Denotes(Closed(PutUnless(size == 0, e, "untruncated_size", Decimal(size))),
                    Object(before + Unless(!truncated, M("is_truncated", Truth(truncated)))
                           + Unless(size == 0, M("untruncated_size", Number(size)))))
  {
    var e := PutUnless(!truncated, acc, "is_truncated", Boolean(truncated));
    var longer := before + Unless(!truncated, M("is_truncated", Truth(truncated)));
    BooleanDenotes(truncated);
    PutUnlessReads(!truncated, acc, before, "is_truncated", Boolean(truncated), Truth(truncated));
    PutIntegerUnless(e, longer, "untruncated_size", size);
    ClosedDenotes(PutUnless(size == 0, e, "untruncated_size", Decimal(size)),
                  longer + Unless(size == 0, M("untruncated_size", Number(size))));
  }

  lemma GroupReads(group: Bytes)
    ensures Denotes(Closed(Put([], "name", Quoted(group))), GroupValue(group))
  {
    QuotedDenotes(group);
    SingleReads("name", Quoted(group), S(group));
  }

  lemma GroupsRead(groups: seq<Bytes>)
    ensures Denotes(Array(EncodedGroups(groups)), List(GroupValues(groups)))
  {
    forall i | 0 <= i < |groups|
      ensures Denotes(EncodedGroups(groups)[i], GroupValues(groups)[i])
    {
      GroupReads(groups[i]);
    }
    ArrayDenotes(EncodedGroups(groups), GroupValues(groups));
  }

  lemma UserReads(u: User)
    ensures Denotes(EncodedUser(u), UserValue(u))
  {
    GroupsRead(u.groups);
    UserChain(u, Array(EncodedGroups(u.groups)), List(GroupValues(u.groups)));
  }

  lemma UserChain(u: User, groups: Bytes, v: Value)
    requires Denotes(groups, v)
    ensures var b := PutUnless(u.uid == [], Put([], "name", Quoted(u.name)), "uid", Quoted(u.uid));
            Denotes(Closed(PutUnless(u.groups == [], Put(b, "type_id", Decimal(u.typeId)), "groups", groups)),
                    Object([M("name", S(u.name))] + Unless(u.uid == [], M("uid", S(u.uid)))
                           + [M("type_id", Number(u.typeId))] + Unless(u.groups == [], M("groups", v))))
  {
    var a := Put([], "name", Quoted(u.name));
    var b := PutUnless(u.uid == [], a, "uid", Quoted(u.uid));
    var c := Put(b, "type_id", Decimal(u.typeId));
    var m1 := [M("name", S(u.name))];
    var m2 := m1 + Unless(u.uid == [], M("uid", S(u.uid)));
    var m3 := m2 + [M("type_id", Number(u.typeId))];
    FirstString("name", u.name);
    PutStringUnless(a, m1, "uid", u.uid);
    PutInteger(b, m2, "type_id", u.typeId);
    PutUnlessReads(u.groups == [], c, m3, "groups", groups, v);
    ClosedDenotes(PutUnless(u.groups == [], c, "groups", groups), m3 + Unless(u.groups == [], M("groups", v)));
  }

  lemma ActorReads(u: User)
    ensures Denotes(EncodedActor(u), Object([M("user", UserValue(u))]))
  {
    UserReads(u);
    SingleReads("user", EncodedUser(u), UserValue(u));
  }

  lemma ApiReads(operation: Bytes)
    ensures Denotes(EncodedApi(operation), Object([M("operation", S(operation))]))
  {
    QuotedDenotes(operation);
    SingleReads("operation", Quoted(operation), S(operation));
  }

  lemma UrlReads(path: Bytes)
    ensures Denotes(Closed(Put([], "path", Quoted(path))), Object([M("path", S(path))]))
  {
    QuotedDenotes(path);
    SingleReads("path", Quoted(path), S(path));
  }

  lemma RequestReads(r: HttpRequest)
    ensures Denotes(EncodedRequest(r), RequestValue(r))
  {
    UrlReads(r.path);
    StringsRead(r.forwardedFor);
    RequestChain(r, Closed(Put([], "path", Quoted(r.path))), Object([M("path", S(r.path))]),
                 Array(QuotedAll(r.forwardedFor)), List(Strings(r.forwardedFor)));
  }

  lemma RequestChain(r: HttpRequest, url: Bytes, v: Value, forwarded: Bytes, w: Value)
    requires Denotes(url, v) && Denotes(forwarded, w)
    ensures var c := Put(Put(Put([], "http_method", Quoted(r.method_)), "version", Quoted(r.version)), "url", url);
            Denotes(Closed(PutUnless(r.forwardedFor == [], c, "x_forwarded_for", forwarded)),
                    Object([M("http_method", S(r.method_))] + [M("version", S(r.version))] + [M("url", v)]
                           + Unless(r.forwardedFor == [], M("x_forwarded_for", w))))
  {
    var a := Put([], "http_method", Quoted(r.method_));
    var b := Put(a, "version", Quoted(r.version));
    var c := Put(b, "url", url);
    var m1 := [M("http_method", S(r.method_))];
    var m2 := m1 + [M("version", S(r.version))];
    var m3 := m2 + [M("url", v)];
    FirstString("http_method", r.method_);
    PutString(a, m1, "version", r.version);
    PutValue(b, m2, "url", url, v);
    PutUnlessReads(r.forwardedFor == [], c, m3, "x_forwarded_for", forwarded, w);
    ClosedDenotes(PutUnless(r.forwardedFor == [], c, "x_forwarded_for", forwarded),
                  m3 + Unless(r.forwardedFor == [], M("x_forwarded_for", w)));
  }

  lemma ResponseReads(r: HttpResponse)
    ensures Denotes(EncodedResponse(r), ResponseValue(r))
  {
    var a := Put([], "code", Decimal(r.code));
    var b := Put(a, "body_length", Decimal(r.bodyLength));
    var m1 := [M("code", Number(r.code))];
    var m2 := m1 + [M("body_length", Number(r.bodyLength))];
    FirstInteger("code", r.code);
    PutInteger(a, m1, "body_length", r.bodyLength);
    PutInteger(b, m2, "latency", r.latency);
    ClosedDenotes(Put(b, "latency", Decimal(r.latency)), m2 + [M("latency", Number(r.latency))]);
  }

  lemma EndpointReads(e: Endpoint)
    ensures Denotes(EncodedEndpoint(e), EndpointValue(e))
  {
    var a := PutUnless(e.name == [], [], "name", Quoted(e.name));
    var b := PutUnless(e.hostname == [], a, "hostname", Quoted(e.hostname));
    var m2 := [] + Unless(e.name == [], M("name", S(e.name))) + Unless(e.hostname == [], M("hostname", S(e.hostname)));
    TwoOptionalStrings([], [], "name", e.name, "hostname", e.hostname);
    OptionalStringAndInteger(b, m2, "ip", e.ip, "port", e.port);
    ClosedDenotes(PutUnless(e.port == 0, PutUnless(e.ip == [], b, "ip", Quoted(e.ip)), "port", Decimal(e.port)),
                  m2 + Unless(e.ip == [], M("ip", S(e.ip))) + Unless(e.port == 0, M("port", Number(e.port))));
  }

  lemma TwoOptionalStrings(acc: Bytes, before: seq<Member>, key: string, s: Bytes, key': string, s': Bytes)
    requires Before(acc, before) && PlainKey(key) && PlainKey(key')
    ensures Before(PutUnless(s' == [], PutUnless(s == [], acc, key, Quoted(s)), key', Quoted(s')),
                   before + Unless(s == [], M(key, S(s))) + Unless(s' == [], M(key', S(s'))))
  {
    PutStringUnless(acc, before, key, s);
    PutStringUnless(PutUnless(s == [], acc, key, Quoted(s)), before + Unless(s == [], M(key, S(s))), key', s');
  }

  lemma OptionalStringAndInteger(acc: Bytes, before: seq<Member>, key: string, s: Bytes, key': string, n: Int64)
    requires Before(acc, before) && PlainKey(key) && PlainKey(key')
    ensures Before(PutUnless(n == 0, PutUnless(s == [], acc, key, Quoted(s)), key', Decimal(n)),
                   before + Unless(s == [], M(key, S(s))) + Unless(n == 0, M(key', Number(n))))
  {
    PutStringUnless(acc, before, key, s);
    PutIntegerUnless(PutUnless(s == [], acc, key, Quoted(s)), before + Unless(s == [], M(key, S(s))), key', n);
  }

  lemma ResourceReads(r: Resource)
    ensures Denotes(EncodedResource(r), ResourceValue(r))
  {
    var a, m1 := Put([], "name", Quoted(r.name)), [M("name", S(r.name))];
    var c := PutUnless(r.type_ == [], PutUnless(r.namespace_ == [], a, "namespace", Quoted(r.namespace_)),
                       "type", Quoted(r.type_));
    var m3 := m1 + Unless(r.namespace_ == [], M("namespace", S(r.namespace_)))
              + Unless(r.type_ == [], M("type", S(r.type_)));
    FirstString("name", r.name);
    TwoOptionalStrings(a, m1, "namespace", r.namespace_, "type", r.type_);
    RoleReads(c, m3, r.roleId, r.role);
  }

  lemma RoleReads(acc: Bytes, before: seq<Member>, id: Int64, role: Bytes)
    requires Before(acc, before)
    ensures Denotes(Closed(Put(Put(acc, "role_id", Decimal(id)), "role", Quoted(role))),
                    Object(before + [M("role_id", Number(id))] + [M("role", S(role))]))
  {
    PutInteger(acc, before, "role_id", id);
    PutString(Put(acc, "role_id", Decimal(id)), before + [M("role_id", Number(id))], "role", role);
    ClosedDenotes(Put(Put(acc, "role_id", Decimal(id)), "role", Quoted(role)),
                  before + [M("role_id", Number(id))] + [M("role", S(role))]);
  }

  lemma ResourcesRead(rs: seq<Resource>)
    ensures Denotes(Array(EncodedResources(rs)), List(ResourceValues(rs)))
  {
    forall i | 0 <= i < |rs|
      ensures Denotes(EncodedResources(rs)[i], ResourceValues(rs)[i])
      ensures EncodedResources(rs)[i] != [] && EncodedResources(rs)[i][0] == 123
    {
      ResourceReads(rs[i]);
      StartsWithBrace(rs[i]);
    }
    ArrayDenotes(EncodedResources(rs), ResourceValues(rs));
  }

  lemma StartsWithBrace(r: Resource)
    ensures EncodedResource(r) != [] && EncodedResource(r)[0] == 123
  {
  }

  lemma ModelReads(m: AiModel)
    ensures Denotes(EncodedModel(m), ModelValue(m))
  {
    var a := Put([], "name", Quoted(m.name));
    FirstString("name", m.name);
    PutString(a, [M("name", S(m.name))], "ai_provider", m.provider);
    ClosedDenotes(Put(a, "ai_provider", Quoted(m.provider)),
                  [M("name", S(m.name))] + [M("ai_provider", S(m.provider))]);
  }

  // ----- The whole record -----

  lemma ClassReads(e: Event)
    ensures Before(EncodedClass(e), ClassMembers(e))
  {
    FirstInteger("activity_id", e.activityId);
    var a, m := Put([], "activity_id", Decimal(e.activityId)), [M("activity_id", Number(e.activityId))];
    PairReads(a, m, "activity_name", e.activityName, "category_uid", e.categoryUid);
    var b := Put(Put(a, "activity_name", Quoted(e.activityName)), "category_uid", Decimal(e.categoryUid));
    var n := m + [M("activity_name", S(e.activityName))] + [M("category_uid", Number(e.categoryUid))];
    PairReads(b, n, "category_name", e.categoryName, "class_uid", e.classUid);
    RestOfClass(Put(Put(b, "category_name", Quoted(e.categoryName)), "class_uid", Decimal(e.classUid)),
                n + [M("category_name", S(e.categoryName))] + [M("class_uid", Number(e.classUid))], e);
  }

  lemma RestOfClass(acc: Bytes, before: seq<Member>, e: Event)
    requires Before(acc, before)
    ensures var g := Put(Put(acc, "class_name", Quoted(e.className)), "type_uid", Decimal(e.typeUid));
            Before(Put(Put(Put(g, "severity_id", Decimal(e.severityId)), "severity", Quoted(e.severity)),
                       "time", Decimal(e.time)),
                   before + [M("class_name", S(e.className))] + [M("type_uid", Number(e.typeUid))]
                   + [M("severity_id", Number(e.severityId))] + [M("severity", S(e.severity))]
                   + [M("time", Number(e.time))])
  {
    PairReads(acc, before, "class_name", e.className, "type_uid", e.typeUid);
    var d := Put(Put(acc, "class_name", Quoted(e.className)), "type_uid", Decimal(e.typeUid));
    var p := before + [M("class_name", S(e.className))] + [M("type_uid", Number(e.typeUid))];
    PutInteger(d, p, "severity_id", e.severityId);
    PairReads(Put(d, "severity_id", Decimal(e.severityId)), p + [M("severity_id", Number(e.severityId))],
              "severity", e.severity, "time", e.time);
  }

  lemma PairReads(acc: Bytes, before: seq<Member>, key: string, s: Bytes, key': string, n: Int64)
    requires Before(acc, before) && PlainKey(key) && PlainKey(key')
    ensures Before(Put(Put(acc, key, Quoted(s)), key', Decimal(n)), before + [M(key, S(s))] + [M(key', Number(n))])
  {
    PutString(acc, before, key, s);
    PutInteger(Put(acc, key, Quoted(s)), before + [M(key, S(s))], key', n);
  }

  lemma ExchangeReads(acc: Bytes, before: seq<Member>, e: Event)
    requires Before(acc, before)
    ensures Before(EncodedExchange(acc, e), before + ExchangeMembers(e))
  {
    MetadataReads(e.metadata);
    ActorReads(e.user);
    ApiReads(e.operation);
    RequestReads(e.request);
    ResponseReads(e.response);
    EndpointReads(e.source);
    SixReads(acc, before, EncodedMetadata(e.metadata), MetadataValue(e.metadata),
             EncodedActor(e.user), Object([M("user", UserValue(e.user))]),
             EncodedApi(e.operation), Object([M("operation", S(e.operation))]),
             EncodedRequest(e.request), RequestValue(e.request), EncodedResponse(e.response), ResponseValue(e.response),
             EncodedEndpoint(e.source), EndpointValue(e.source));
  }

  lemma SixReads(acc: Bytes, before: seq<Member>,
                 metadata: Bytes, v1: Value, actor: Bytes, v2: Value, api: Bytes, v3: Value,
                 request: Bytes, v4: Value, response: Bytes, v5: Value, source: Bytes, v6: Value)
    requires Before(acc, before)
    requires Denotes(metadata, v1) && Denotes(actor, v2) && Denotes(api, v3)
    requires Denotes(request, v4) && Denotes(response, v5) && Denotes(source, v6)
    ensures var a := Put(acc, "metadata", metadata);
            var b := Put(a, "actor", actor);
            var c := Put(b, "api", api);
            var d := Put(c, "http_request", request);
            var f := Put(d, "http_response", response);
            Before(Put(f, "src_endpoint", source),
                   before + [M("metadata", v1), M("actor", v2), M("api", v3), M("http_request", v4),
                             M("http_response", v5), M("src_endpoint", v6)])
  {
    var a := Put(acc, "metadata", metadata);
    var b := Put(a, "actor", actor);
    var c := Put(b, "api", api);
    var d := Put(c, "http_request", request);
    var f := Put(d, "http_response", response);
    var m1 := before + [M("metadata", v1)];
    var m2 := m1 + [M("actor", v2)];
    var m3 := m2 + [M("api", v3)];
    var m4 := m3 + [M("http_request", v4)];
    var m5 := m4 + [M("http_response", v5)];
    PutValue(acc, before, "metadata", metadata, v1);
    PutValue(a, m1, "actor", actor, v2);
    PutValue(b, m2, "api", api, v3);
    PutValue(c, m3, "http_request", request, v4);
    PutValue(d, m4, "http_response", response, v5);
    PutValue(f, m5, "src_endpoint", source, v6);
    Appended(before, M("metadata", v1), M("actor", v2), M("api", v3), M("http_request", v4), M("http_response", v5),
             M("src_endpoint", v6));
  }

  lemma Appended(before: seq<Member>, a: Member, b: Member, c: Member, d: Member, e: Member, f: Member)
    ensures before + [a] + [b] + [c] + [d] + [e] + [f] == before + [a, b, c, d, e, f]
  {
  }

  lemma OutcomeReads(acc: Bytes, before: seq<Member>, e: Event)
    requires Before(acc, before)
    ensures Before(EncodedOutcome(acc, e), before + OutcomeMembers(e))
  {
    var a := if e.destination.None? then acc else Put(acc, "dst_endpoint", EncodedEndpoint(e.destination.value));
    DestinationReads(acc, before, e.destination);
    ResourcesRead(e.resources);
    OutcomeChain(a, before, DestinationMembers(e.destination), e, Array(EncodedResources(e.resources)),
                 List(ResourceValues(e.resources)));
  }

  lemma OutcomeChain(acc: Bytes, before: seq<Member>, first: seq<Member>, e: Event, resources: Bytes, v: Value)
    requires Before(acc, before + first) && Denotes(resources, v)
    ensures var d := Put(Put(Put(acc, "status_id", Decimal(e.statusId)), "status", Quoted(e.status)),
                         "status_code", Quoted(e.statusCode));
            var f := PutUnless(e.resources == [], d, "resources", resources);
            Before(if e.aiModel.None? then f else Put(f, "ai_model", EncodedModel(e.aiModel.value)),
                   before + (first
                             + [M("status_id", Number(e.statusId)), M("status", S(e.status)),
                                M("status_code", S(e.statusCode))]
                             + Unless(e.resources == [], M("resources", v)) + ModelMembers(e.aiModel)))
  {
    var d := Put(Put(Put(acc, "status_id", Decimal(e.statusId)), "status", Quoted(e.status)),
                 "status_code", Quoted(e.statusCode));
    var id := M("status_id", Number(e.statusId));
    var status, code := M("status", S(e.status)), M("status_code", S(e.statusCode));
    var more := Unless(e.resources == [], M("resources", v));
    StatusReads(acc, before + first, e.statusId, e.status, e.statusCode);
    PutUnlessReads(e.resources == [], d, before + first + [id] + [status] + [code], "resources", resources, v);
    ModelMemberReads(PutUnless(e.resources == [], d, "resources", resources),
                     before + first + [id] + [status] + [code] + more, e.aiModel);
    Regrouped(before, first, id, status, code, more, ModelMembers(e.aiModel));
  }

  lemma DestinationReads(acc: Bytes, before: seq<Member>, destination: Option<Endpoint>)
    requires Before(acc, before)
    ensures Before(if destination.None? then acc else Put(acc, "dst_endpoint", EncodedEndpoint(destination.value)),
                   before + DestinationMembers(destination))
  {
    match destination
    case None => assert before + [] == before;
    case Some(e) =>
      EndpointReads(e);
      NamedReads(acc, before, EncodedEndpoint(e), EndpointValue(e));
  }

  lemma NamedReads(acc: Bytes, before: seq<Member>, text: Bytes, v: Value)
    requires Before(acc, before) && Denotes(text, v)
    ensures Before(Put(acc, "dst_endpoint", text), before + [M("dst_endpoint", v)])
  {
    PutValue(acc, before, "dst_endpoint", text, v);
  }

  lemma StatusReads(acc: Bytes, before: seq<Member>, id: Int64, status: Bytes, code: Bytes)
    requires Before(acc, before)
    ensures Before(Put(Put(Put(acc, "status_id", Decimal(id)), "status", Quoted(status)), "status_code", Quoted(code)),
                   before + [M("status_id", Number(id))] + [M("status", S(status))] + [M("status_code", S(code))])
  {
    var a := Put(acc, "status_id", Decimal(id));
    var m1 := before + [M("status_id", Number(id))];
    PutInteger(acc, before, "status_id", id);
    PutString(a, m1, "status", status);
    PutString(Put(a, "status", Quoted(status)), m1 + [M("status", S(status))], "status_code", code);
  }

  lemma ModelMemberReads(acc: Bytes, before: seq<Member>, model: Option<AiModel>)
    requires Before(acc, before)
    ensures Before(if model.None? then acc else Put(acc, "ai_model", EncodedModel(model.value)),
                   before + ModelMembers(model))
  {
    if model.Some? {
      ModelReads(model.value);
      PutValue(acc, before, "ai_model", EncodedModel(model.value), ModelValue(model.value));
    } else {
      assert before + [] == before;
    }
  }

  lemma Regrouped(before: seq<Member>, first: seq<Member>, a: Member, b: Member, c: Member,
                  more: seq<Member>, last: seq<Member>)
    ensures before + first + [a] + [b] + [c] + more + last == before + (first + [a, b, c] + more + last)
  {
  }

  /** The encoding of any record is JSON text, and reading it yields the record, member for member. That goes for
      every queued payload, which is the encoding of the event or of its bounded record. */
  lemma RecordReadsBack(e: Event)
    ensures Denotes(Encoded(e), RecordValue(e))
  {
    ClassReads(e);
    ExchangeReads(EncodedClass(e), ClassMembers(e), e);
    OutcomeReads(EncodedExchange(EncodedClass(e), e), ClassMembers(e) + ExchangeMembers(e), e);
    ClosedDenotes(EncodedOutcome(EncodedExchange(EncodedClass(e), e), e),
                  ClassMembers(e) + ExchangeMembers(e) + OutcomeMembers(e));
  }

  /** Text that denotes a value on its own is read as that value and used up. */
  lemma WholeReads(t: Bytes, v: Value)
    requires Denotes(t, v)
    ensures ReadValue(t) == Some((v, []))
  {
    assert ReadsBefore(t, v, []);
    assert t + [] == t;
  }
}
