/**
 The audit record, its JSON encoding, and the bounded record that replaces one whose encoding is larger
 than 64 KiB. Slices and pointers that are omitted when empty are sequences and options.
 */
module AuditEvent {
  import opened Wrappers
  import opened Utf8
  import opened Json

  const MAX_EVENT_SIZE := 65536
  const MAX_PATH_SIZE := 1024
  const MAX_STRING_SIZE := 256
  const AI_OPERATION_PROFILE := Ascii("ai_operation")

  datatype Product = Product(name: Bytes, version: Bytes)

  datatype Metadata = Metadata(
    version: Bytes, profiles: seq<Bytes>, product: Product, loggedTime: Int64,
    isTruncated: bool, untruncatedSize: Int64)

  datatype User = User(name: Bytes, uid: Bytes, typeId: Int64, groups: seq<Bytes>)

  datatype HttpRequest = HttpRequest(method_: Bytes, version: Bytes, path: Bytes, forwardedFor: seq<Bytes>)

  datatype HttpResponse = HttpResponse(code: Int64, bodyLength: Int64, latency: Int64)

  datatype Endpoint = Endpoint(name: Bytes, hostname: Bytes, ip: Bytes, port: Int64)

  datatype Resource = Resource(name: Bytes, namespace_: Bytes, type_: Bytes, roleId: Int64, role: Bytes)

  datatype AiModel = AiModel(name: Bytes, provider: Bytes)

  datatype Event = Event(
    activityId: Int64, activityName: Bytes, categoryUid: Int64, categoryName: Bytes,
    classUid: Int64, className: Bytes, typeUid: Int64, severityId: Int64, severity: Bytes, time: Int64,
    metadata: Metadata, user: User, operation: Bytes, request: HttpRequest, response: HttpResponse,
    source: Endpoint, destination: Option<Endpoint>, statusId: Int64, status: Bytes, statusCode: Bytes,
    resources: seq<Resource>, aiModel: Option<AiModel>)

  // ----- Encoding -----

  function QuotedAll(items: seq<Bytes>): seq<Bytes> {
    seq(|items|, i requires 0 <= i < |items| => Quoted(items[i]))
  }

  function EncodedProduct(p: Product): Bytes {
    Closed(Put(Put([], "name", Quoted(p.name)), "version", Quoted(p.version)))
  }

  function EncodedMetadata(m: Metadata): Bytes {
    var a := Put([], "version", Quoted(m.version));
    var b := Put(a, "profiles", Array(QuotedAll(m.profiles)));
    var c := Put(b, "product", EncodedProduct(m.product));
    var d := Put(c, "logged_time", Decimal(m.loggedTime));
    var e := PutUnless(!m.isTruncated, d, "is_truncated", Boolean(m.isTruncated));
    Closed(PutUnless(m.untruncatedSize == 0, e, "untruncated_size", Decimal(m.untruncatedSize)))
  }

  function EncodedGroups(groups: seq<Bytes>): seq<Bytes> {
    seq(|groups|, i requires 0 <= i < |groups| => Closed(Put([], "name", Quoted(groups[i]))))
  }

  function EncodedUser(u: User): Bytes {
    var a := Put([], "name", Quoted(u.name));
    var b := PutUnless(u.uid == [], a, "uid", Quoted(u.uid));
    var c := Put(b, "type_id", Decimal(u.typeId));
    Closed(PutUnless(u.groups == [], c, "groups", Array(EncodedGroups(u.groups))))
  }

  function EncodedActor(u: User): Bytes {
    Closed(Put([], "user", EncodedUser(u)))
  }

  function EncodedApi(operation: Bytes): Bytes {
    Closed(Put([], "operation", Quoted(operation)))
  }

  function EncodedRequest(r: HttpRequest): Bytes {
    var a := Put([], "http_method", Quoted(r.method_));
    var b := Put(a, "version", Quoted(r.version));
    var c := Put(b, "url", Closed(Put([], "path", Quoted(r.path))));
    Closed(PutUnless(r.forwardedFor == [], c, "x_forwarded_for", Array(QuotedAll(r.forwardedFor))))
  }

  function EncodedResponse(r: HttpResponse): Bytes {
    var a := Put([], "code", Decimal(r.code));
    var b := Put(a, "body_length", Decimal(r.bodyLength));
    Closed(Put(b, "latency", Decimal(r.latency)))
  }

  function EncodedEndpoint(e: Endpoint): Bytes {
    var a := PutUnless(e.name == [], [], "name", Quoted(e.name));
    var b := PutUnless(e.hostname == [], a, "hostname", Quoted(e.hostname));
    var c := PutUnless(e.ip == [], b, "ip", Quoted(e.ip));
    Closed(PutUnless(e.port == 0, c, "port", Decimal(e.port)))
  }

  function EncodedResource(r: Resource): Bytes {
    var a := Put([], "name", Quoted(r.name));
    var b := PutUnless(r.namespace_ == [], a, "namespace", Quoted(r.namespace_));
    var c := PutUnless(r.type_ == [], b, "type", Quoted(r.type_));
    var d := Put(c, "role_id", Decimal(r.roleId));
    Closed(Put(d, "role", Quoted(r.role)))
  }

  function EncodedResources(rs: seq<Resource>): seq<Bytes> {
    seq(|rs|, i requires 0 <= i < |rs| => EncodedResource(rs[i]))
  }

  function EncodedModel(m: AiModel): Bytes {
    Closed(Put(Put([], "name", Quoted(m.name)), "ai_provider", Quoted(m.provider)))
  }

  /** The members up to the event time. */
  function EncodedClass(e: Event): Bytes {
    var a := Put([], "activity_id", Decimal(e.activityId));
    var b := Put(a, "activity_name", Quoted(e.activityName));
    var c := Put(b, "category_uid", Decimal(e.categoryUid));
    var d := Put(c, "category_name", Quoted(e.categoryName));
    var f := Put(d, "class_uid", Decimal(e.classUid));
    var g := Put(f, "class_name", Quoted(e.className));
    var h := Put(g, "type_uid", Decimal(e.typeUid));
    var i := Put(h, "severity_id", Decimal(e.severityId));
    var j := Put(i, "severity", Quoted(e.severity));
    Put(j, "time", Decimal(e.time))
  }

  /** The members from the metadata to the source endpoint. */
  function EncodedExchange(acc: Bytes, e: Event): Bytes {
    var a := Put(acc, "metadata", EncodedMetadata(e.metadata));
    var b := Put(a, "actor", EncodedActor(e.user));
    var c := Put(b, "api", EncodedApi(e.operation));
    var d := Put(c, "http_request", EncodedRequest(e.request));
    var f := Put(d, "http_response", EncodedResponse(e.response));
    Put(f, "src_endpoint", EncodedEndpoint(e.source))
  }

  /** The members from the destination endpoint on. */
  function EncodedOutcome(acc: Bytes, e: Event): Bytes {
    var a := if e.destination.None? then acc else Put(acc, "dst_endpoint", EncodedEndpoint(e.destination.value));
    var b := Put(a, "status_id", Decimal(e.statusId));
    var c := Put(b, "status", Quoted(e.status));
    var d := Put(c, "status_code", Quoted(e.statusCode));
    var f := PutUnless(e.resources == [], d, "resources", Array(EncodedResources(e.resources)));
    if e.aiModel.None? then f else Put(f, "ai_model", EncodedModel(e.aiModel.value))
  }

  function Encoded(e: Event): Bytes {
    Closed(EncodedOutcome(EncodedExchange(EncodedClass(e), e), e))
  }

  // ----- The bounded record -----

  /** Two's-complement wrap-around of 64-bit integer addition. */
  function Wrapped(n: int): Int64 {
    var low := n % 0x1_0000_0000_0000_0000;
    if low < 0x8000_0000_0000_0000 then low else low - 0x1_0000_0000_0000_0000
  }

  /** Go's division truncates toward zero. */
  function Quotient(n: int, d: int): int
    requires d > 0
  {
    if n >= 0 then n / d else -(-n / d)
  }

  function Kilobytes(size: Int64): Int64 {
    Quotient(Wrapped(size as int + 1023), 1024)
  }

  function Short(s: Bytes): Bytes {
    Truncated(s, MAX_STRING_SIZE)
  }

  function BoundedEndpoint(e: Endpoint): Endpoint {
    Endpoint(Short(e.name), Short(e.hostname), Short(e.ip), e.port)
  }

  function BoundedResource(r: Resource): Resource {
    Resource(Short(r.name), Short(r.namespace_), Short(r.type_), r.roleId, Short(r.role))
  }

  function BoundedMetadata(m: Metadata, originalSize: Int64): Metadata {
    Metadata(Short(m.version), [AI_OPERATION_PROFILE], Product(Short(m.product.name), Short(m.product.version)),
             0, true, Kilobytes(originalSize))
  }

  function BoundedRequest(r: HttpRequest): HttpRequest {
    HttpRequest(Short(r.method_), Short(r.version), Truncated(r.path, MAX_PATH_SIZE), [])
  }

  function Bounded(e: Event, originalSize: Int64): Event {
    Event(
      e.activityId, Short(e.activityName), e.categoryUid, Short(e.categoryName),
      e.classUid, Short(e.className), e.typeUid, e.severityId, Short(e.severity), e.time,
      BoundedMetadata(e.metadata, originalSize),
      User(Short(e.user.name), Short(e.user.uid), e.user.typeId, []),
      Short(e.operation),
      BoundedRequest(e.request),
      e.response,
      BoundedEndpoint(e.source),
      if e.destination.None? then None else Some(BoundedEndpoint(e.destination.value)),
      e.statusId, Short(e.status), Short(e.statusCode),
      if e.resources == [] then [] else [BoundedResource(e.resources[0])],
      if e.aiModel.None? then None
      else Some(AiModel(Short(e.aiModel.value.name), Short(e.aiModel.value.provider))))
  }

  /** The payload enqueue hands to the queue, or None where it gives the event up. */
  function Chosen(payload: Bytes, fallback: Bytes): Option<Bytes> {
    if |payload| <= MAX_EVENT_SIZE then Some(payload)
    else if |fallback| > MAX_EVENT_SIZE then None
    else Some(fallback)
  }

  function Queued(e: Event, payload: Bytes): Option<Bytes> {
    Chosen(payload, Encoded(Bounded(e, Wrapped(|payload|))))
  }

  function Payload(e: Event): Option<Bytes> {
    Queued(e, Encoded(e))
  }

  // ----- Sizes -----

  predicate ShortEndpoint(e: Endpoint) {
    |e.name| <= MAX_STRING_SIZE && |e.hostname| <= MAX_STRING_SIZE && |e.ip| <= MAX_STRING_SIZE
  }

  predicate ShortResource(r: Resource) {
    && |r.name| <= MAX_STRING_SIZE && |r.namespace_| <= MAX_STRING_SIZE
    && |r.type_| <= MAX_STRING_SIZE && |r.role| <= MAX_STRING_SIZE
  }

  predicate ShortClass(e: Event) {
    |e.activityName| <= MAX_STRING_SIZE && |e.categoryName| <= MAX_STRING_SIZE && |e.className| <= MAX_STRING_SIZE
    && |e.severity| <= MAX_STRING_SIZE
  }

  predicate ShortMetadata(m: Metadata) {
    |m.version| <= MAX_STRING_SIZE && m.profiles == [AI_OPERATION_PROFILE]
    && |m.product.name| <= MAX_STRING_SIZE && |m.product.version| <= MAX_STRING_SIZE
  }

  predicate ShortExchange(e: Event) {
    && ShortMetadata(e.metadata)
    && |e.user.name| <= MAX_STRING_SIZE && |e.user.uid| <= MAX_STRING_SIZE && e.user.groups == []
    && |e.operation| <= MAX_STRING_SIZE
    && |e.request.method_| <= MAX_STRING_SIZE && |e.request.version| <= MAX_STRING_SIZE
    && |e.request.path| <= MAX_PATH_SIZE && e.request.forwardedFor == []
    && ShortEndpoint(e.source)
  }

  predicate ShortOutcome(e: Event) {
    && (e.destination.Some? ==> ShortEndpoint(e.destination.value))
    && |e.status| <= MAX_STRING_SIZE && |e.statusCode| <= MAX_STRING_SIZE
    && |e.resources| <= 1 && (forall i :: 0 <= i < |e.resources| ==> ShortResource(e.resources[i]))
    && (e.aiModel.Some? ==> |e.aiModel.value.name| <= MAX_STRING_SIZE && |e.aiModel.value.provider| <= MAX_STRING_SIZE)
  }

  lemma BoundedIsShort(e: Event, originalSize: Int64)
    ensures var b := Bounded(e, originalSize); ShortClass(b) && ShortExchange(b) && ShortOutcome(b)
  {
    forall s: Bytes
      ensures |Short(s)| <= MAX_STRING_SIZE
    {
      TruncatedFits(s, MAX_STRING_SIZE);
    }
    TruncatedFits(e.request.path, MAX_PATH_SIZE);
  }

  lemma EndpointSize(e: Endpoint)
    requires ShortEndpoint(e)
    ensures |EncodedEndpoint(e)| <= 4672
  {
  }

  lemma ResourceSize(r: Resource)
    requires ShortResource(r)
    ensures |EncodedResource(r)| <= 6221
  {
  }

  lemma MetadataSize(m: Metadata)
    requires ShortMetadata(m)
    ensures |EncodedMetadata(m)| <= 4865
  {
    assert QuotedAll(m.profiles) == [Quoted(AI_OPERATION_PROFILE)];
    assert |Array(QuotedAll(m.profiles))| == |Quoted(AI_OPERATION_PROFILE)| + 2;
  }

  lemma ClassSize(e: Event)
    requires ShortClass(e)
    ensures |EncodedClass(e)| <= 6421
  {
  }

  lemma RequestSize(r: HttpRequest)
    requires |r.method_| <= MAX_STRING_SIZE && |r.version| <= MAX_STRING_SIZE
    requires |r.path| <= MAX_PATH_SIZE && r.forwardedFor == []
    ensures |EncodedRequest(r)| <= 9267
  {
  }

  lemma ExchangeSize(acc: Bytes, e: Event)
    requires ShortExchange(e)
    ensures |EncodedExchange(acc, e)| <= |acc| + 23760
  {
    MetadataSize(e.metadata);
    RequestSize(e.request);
    EndpointSize(e.source);
    assert |EncodedActor(e.user)| <= 3180;
    assert |EncodedApi(e.operation)| <= 1560;
    assert |EncodedResponse(e.response)| <= 100;
  }

  lemma OutcomeSize(acc: Bytes, e: Event)
    requires ShortOutcome(e)
    ensures |EncodedOutcome(acc, e)| <= |acc| + 17270
  {
    if e.destination.Some? {
      EndpointSize(e.destination.value);
    }
    ResourcesSize(e.resources);
    if e.aiModel.Some? {
      ModelSize(e.aiModel.value);
    }
  }

  lemma ResourcesSize(rs: seq<Resource>)
    requires |rs| <= 1 && forall i :: 0 <= i < |rs| ==> ShortResource(rs[i])
    ensures |Array(EncodedResources(rs))| <= 6223
  {
    if rs == [] {
      assert EncodedResources(rs) == [];
    } else {
      ResourceSize(rs[0]);
      assert EncodedResources(rs) == [EncodedResource(rs[0])];
    }
  }

  lemma ModelSize(m: AiModel)
    requires |m.name| <= MAX_STRING_SIZE && |m.provider| <= MAX_STRING_SIZE
    ensures |EncodedModel(m)| <= 3110
  {
  }

  /** For every event and every original size the bounded record encodes to less than 64 KiB. */
  lemma BoundedFits(e: Event, originalSize: Int64)
    ensures |Encoded(Bounded(e, originalSize))| <= MAX_EVENT_SIZE
  {
    var b := Bounded(e, originalSize);
    BoundedIsShort(e, originalSize);
    ClassSize(b);
    ExchangeSize(EncodedClass(b), b);
    OutcomeSize(EncodedExchange(EncodedClass(b), b), b);
  }

  lemma ChosenFits(payload: Bytes, fallback: Bytes)
    requires |fallback| <= MAX_EVENT_SIZE
    ensures Chosen(payload, fallback) == Some(if |payload| <= MAX_EVENT_SIZE then payload else fallback)
  {
  }

  lemma QueuedFits(e: Event, payload: Bytes)
    ensures Queued(e, payload).Some? && |Queued(e, payload).value| <= MAX_EVENT_SIZE
    ensures |payload| <= MAX_EVENT_SIZE ==> Queued(e, payload).value == payload
    ensures |payload| > MAX_EVENT_SIZE ==> Queued(e, payload).value == Encoded(Bounded(e, Wrapped(|payload|)))
  {
    BoundedFits(e, Wrapped(|payload|));
    ChosenFits(payload, Encoded(Bounded(e, Wrapped(|payload|))));
  }

  /** So enqueue never gives an event up for its size, and no queued payload is above the limit. */
  lemma PayloadAlwaysFits(e: Event)
    ensures Payload(e).Some? && |Payload(e).value| <= MAX_EVENT_SIZE
  {
    QueuedFits(e, Encoded(e));
  }

  /** A record within the limit is queued as it is and any other one as its bounded record. */
  lemma PayloadIsTheRecordIfItFits(e: Event)
    ensures |Encoded(e)| <= MAX_EVENT_SIZE ==> Payload(e) == Some(Encoded(e))
    ensures |Encoded(e)| > MAX_EVENT_SIZE ==> Payload(e) == Some(Encoded(Bounded(e, Wrapped(|Encoded(e)|))))
  {
    QueuedFits(e, Encoded(e));
  }

  // ----- What the bounded record preserves -----

  predicate Kept(s: Bytes, limit: nat) {
    Valid(s) && |s| <= limit
  }

  predicate EndpointKept(e: Endpoint) {
    Kept(e.name, MAX_STRING_SIZE) && Kept(e.hostname, MAX_STRING_SIZE) && Kept(e.ip, MAX_STRING_SIZE)
  }

  predicate ResourceKept(r: Resource) {
    && Kept(r.name, MAX_STRING_SIZE) && Kept(r.namespace_, MAX_STRING_SIZE)
    && Kept(r.type_, MAX_STRING_SIZE) && Kept(r.role, MAX_STRING_SIZE)
  }

  predicate ClassKept(e: Event) {
    && Kept(e.activityName, MAX_STRING_SIZE) && Kept(e.categoryName, MAX_STRING_SIZE)
    && Kept(e.className, MAX_STRING_SIZE) && Kept(e.severity, MAX_STRING_SIZE)
    && Kept(e.metadata.version, MAX_STRING_SIZE)
    && Kept(e.metadata.product.name, MAX_STRING_SIZE) && Kept(e.metadata.product.version, MAX_STRING_SIZE)
  }

  predicate ExchangeKept(e: Event) {
    && Kept(e.user.name, MAX_STRING_SIZE) && Kept(e.user.uid, MAX_STRING_SIZE)
    && Kept(e.operation, MAX_STRING_SIZE)
    && Kept(e.request.method_, MAX_STRING_SIZE) && Kept(e.request.version, MAX_STRING_SIZE)
    && Kept(e.request.path, MAX_PATH_SIZE)
  }

  predicate OutcomeKept(e: Event) {
    && EndpointKept(e.source) && (e.destination.Some? ==> EndpointKept(e.destination.value))
    && Kept(e.status, MAX_STRING_SIZE) && Kept(e.statusCode, MAX_STRING_SIZE)
    && (e.resources != [] ==> ResourceKept(e.resources[0]))
    && (e.aiModel.Some? ==>
          Kept(e.aiModel.value.name, MAX_STRING_SIZE) && Kept(e.aiModel.value.provider, MAX_STRING_SIZE))
  }

  /** Every string the bounded record retains is already short valid UTF-8. */
  predicate StringsKept(e: Event) {
    ClassKept(e) && ExchangeKept(e) && OutcomeKept(e)
  }

  lemma KeptUntouched(s: Bytes, limit: nat)
    requires Kept(s, limit)
    ensures Truncated(s, limit) == s
  {
    ValidIsUntouched(s, false);
  }

  /** A record too large only for its lists keeps every retained field: what is lost is the groups, the
      forwarded chain, all but the first resource and the logged time. */
  lemma BoundedIsProjection(e: Event, originalSize: Int64)
    requires StringsKept(e)
    ensures Bounded(e, originalSize)
            == e.(metadata := e.metadata.(profiles := [AI_OPERATION_PROFILE], loggedTime := 0, isTruncated := true,
                                          untruncatedSize := Kilobytes(originalSize)),
                  user := e.user.(groups := []),
                  request := e.request.(forwardedFor := []),
                  resources := e.resources[..if e.resources == [] then 0 else 1])
  {
    ClassUntouched(e, originalSize);
    ExchangeUntouched(e);
    OutcomeUntouched(e);
    ResourcesKept(e.resources);
  }

  lemma ClassUntouched(e: Event, originalSize: Int64)
    requires ClassKept(e)
    ensures Short(e.activityName) == e.activityName && Short(e.categoryName) == e.categoryName
    ensures Short(e.className) == e.className && Short(e.severity) == e.severity
    ensures BoundedMetadata(e.metadata, originalSize)
            == e.metadata.(profiles := [AI_OPERATION_PROFILE], loggedTime := 0, isTruncated := true,
                           untruncatedSize := Kilobytes(originalSize))
  {
    KeptUntouched(e.activityName, MAX_STRING_SIZE);
    KeptUntouched(e.categoryName, MAX_STRING_SIZE);
    KeptUntouched(e.className, MAX_STRING_SIZE);
    KeptUntouched(e.severity, MAX_STRING_SIZE);
    KeptUntouched(e.metadata.version, MAX_STRING_SIZE);
    KeptUntouched(e.metadata.product.name, MAX_STRING_SIZE);
    KeptUntouched(e.metadata.product.version, MAX_STRING_SIZE);
  }

  lemma ExchangeUntouched(e: Event)
    requires ExchangeKept(e)
    ensures User(Short(e.user.name), Short(e.user.uid), e.user.typeId, []) == e.user.(groups := [])
    ensures Short(e.operation) == e.operation
    ensures BoundedRequest(e.request) == e.request.(forwardedFor := [])
  {
    KeptUntouched(e.user.name, MAX_STRING_SIZE);
    KeptUntouched(e.user.uid, MAX_STRING_SIZE);
    KeptUntouched(e.operation, MAX_STRING_SIZE);
    KeptUntouched(e.request.method_, MAX_STRING_SIZE);
    KeptUntouched(e.request.version, MAX_STRING_SIZE);
    KeptUntouched(e.request.path, MAX_PATH_SIZE);
  }

  lemma EndpointUntouched(e: Endpoint)
    requires EndpointKept(e)
    ensures BoundedEndpoint(e) == e
  {
    KeptUntouched(e.name, MAX_STRING_SIZE);
    KeptUntouched(e.hostname, MAX_STRING_SIZE);
    KeptUntouched(e.ip, MAX_STRING_SIZE);
  }

  lemma OutcomeUntouched(e: Event)
    requires OutcomeKept(e)
    ensures BoundedEndpoint(e.source) == e.source
    ensures e.destination.Some? ==> BoundedEndpoint(e.destination.value) == e.destination.value
    ensures Short(e.status) == e.status && Short(e.statusCode) == e.statusCode
    ensures e.aiModel.Some? ==>
              AiModel(Short(e.aiModel.value.name), Short(e.aiModel.value.provider)) == e.aiModel.value
  {
    EndpointUntouched(e.source);
    if e.destination.Some? {
      EndpointUntouched(e.destination.value);
    }
    KeptUntouched(e.status, MAX_STRING_SIZE);
    KeptUntouched(e.statusCode, MAX_STRING_SIZE);
    if e.aiModel.Some? {
      KeptUntouched(e.aiModel.value.name, MAX_STRING_SIZE);
      KeptUntouched(e.aiModel.value.provider, MAX_STRING_SIZE);
    }
  }

  lemma ResourcesKept(rs: seq<Resource>)
    requires rs != [] ==> ResourceKept(rs[0])
    ensures rs[..if rs == [] then 0 else 1] == if rs == [] then [] else [BoundedResource(rs[0])]
  {
    if rs != [] {
      KeptUntouched(rs[0].name, MAX_STRING_SIZE);
      KeptUntouched(rs[0].namespace_, MAX_STRING_SIZE);
      KeptUntouched(rs[0].type_, MAX_STRING_SIZE);
      KeptUntouched(rs[0].role, MAX_STRING_SIZE);
    }
  }

  lemma TruncatedIsKept(s: Bytes, limit: nat)
    requires limit >= 11
    ensures Kept(Truncated(s, limit), limit)
  {
    TruncatedSpec(s, limit);
    TruncatedFits(s, limit);
  }

  lemma BoundedClassKept(e: Event, originalSize: Int64)
    ensures ClassKept(Bounded(e, originalSize))
  {
    TruncatedIsKept(e.activityName, MAX_STRING_SIZE);
    TruncatedIsKept(e.categoryName, MAX_STRING_SIZE);
    TruncatedIsKept(e.className, MAX_STRING_SIZE);
    TruncatedIsKept(e.severity, MAX_STRING_SIZE);
    TruncatedIsKept(e.metadata.version, MAX_STRING_SIZE);
    TruncatedIsKept(e.metadata.product.name, MAX_STRING_SIZE);
    TruncatedIsKept(e.metadata.product.version, MAX_STRING_SIZE);
  }

  lemma BoundedExchangeKept(e: Event, originalSize: Int64)
    ensures ExchangeKept(Bounded(e, originalSize))
  {
    TruncatedIsKept(e.user.name, MAX_STRING_SIZE);
    TruncatedIsKept(e.user.uid, MAX_STRING_SIZE);
    TruncatedIsKept(e.operation, MAX_STRING_SIZE);
    TruncatedIsKept(e.request.method_, MAX_STRING_SIZE);
    TruncatedIsKept(e.request.version, MAX_STRING_SIZE);
    TruncatedIsKept(e.request.path, MAX_PATH_SIZE);
  }

  lemma BoundedEndpointKept(e: Endpoint)
    ensures EndpointKept(BoundedEndpoint(e))
  {
    TruncatedIsKept(e.name, MAX_STRING_SIZE);
    TruncatedIsKept(e.hostname, MAX_STRING_SIZE);
    TruncatedIsKept(e.ip, MAX_STRING_SIZE);
  }

  lemma BoundedResourceKept(r: Resource)
    ensures ResourceKept(BoundedResource(r))
  {
    TruncatedIsKept(r.name, MAX_STRING_SIZE);
    TruncatedIsKept(r.namespace_, MAX_STRING_SIZE);
    TruncatedIsKept(r.type_, MAX_STRING_SIZE);
    TruncatedIsKept(r.role, MAX_STRING_SIZE);
  }

  lemma BoundedOutcomeKept(e: Event, originalSize: Int64)
    ensures OutcomeKept(Bounded(e, originalSize))
  {
    BoundedEndpointKept(e.source);
    TruncatedIsKept(e.status, MAX_STRING_SIZE);
    TruncatedIsKept(e.statusCode, MAX_STRING_SIZE);
    if e.destination.Some? {
      BoundedEndpointKept(e.destination.value);
    }
    if e.resources != [] {
      BoundedResourceKept(e.resources[0]);
    }
    if e.aiModel.Some? {
      TruncatedIsKept(e.aiModel.value.name, MAX_STRING_SIZE);
      TruncatedIsKept(e.aiModel.value.provider, MAX_STRING_SIZE);
    }
  }

  /** Bounding a record twice changes nothing. */
  lemma BoundedIdempotent(e: Event, originalSize: Int64)
    ensures Bounded(Bounded(e, originalSize), originalSize) == Bounded(e, originalSize)
  {
    var b := Bounded(e, originalSize);
    BoundedClassKept(e, originalSize);
    BoundedExchangeKept(e, originalSize);
    BoundedOutcomeKept(e, originalSize);
    BoundedIsProjection(b, originalSize);
    assert b.resources[..if b.resources == [] then 0 else 1] == b.resources;
  }

  /** The recorded size is the original one in kilobytes, rounded up, unless the addition wraps around. */
  lemma KilobytesRoundsUp(size: Int64)
    requires size >= 0
    ensures (Kilobytes(size) as int - 1) * 1024 < size <= Kilobytes(size) as int * 1024
            <==> size + 1023 < 0x8000_0000_0000_0000
  {
  }

  /** Whatever the input, a string that was truncated reads back from its JSON form exactly as it was
      truncated: nothing is replaced on the way through the queue. */
  lemma TruncatedReadsBack(s: Bytes, limit: int)
    ensures Unescaped(Escaped(Truncated(s, limit))) == Some(Truncated(s, limit))
  {
    TruncatedSpec(s, limit);
    StringRoundTrip(Truncated(s, limit));
    ValidSurvives(Truncated(s, limit));
  }

  // ----- What becomes of every field -----

  ghost predicate ShortenedEndpoint(e: Endpoint, b: Endpoint) {
    && Shortened(e.name, 256, b.name) && Shortened(e.hostname, 256, b.hostname)
    && Shortened(e.ip, 256, b.ip) && b.port == e.port
  }

  ghost predicate ShortenedClass(e: Event, b: Event) {
    && b.activityId == e.activityId && Shortened(e.activityName, 256, b.activityName)
    && b.categoryUid == e.categoryUid && Shortened(e.categoryName, 256, b.categoryName)
    && b.classUid == e.classUid && Shortened(e.className, 256, b.className)
    && b.typeUid == e.typeUid && b.severityId == e.severityId && Shortened(e.severity, 256, b.severity)
    && b.time == e.time
  }

  /** The metadata say that the record was truncated and, in kilobytes rounded up, what size it had; they name
      the one profile and no logged time, which only the writer fills in. */
  ghost predicate TruncatedMetadata(m: Metadata, size: int, b: Metadata) {
    && Shortened(m.version, 256, b.version)
    && Shortened(m.product.name, 256, b.product.name) && Shortened(m.product.version, 256, b.product.version)
    && b.profiles == [Ascii("ai_operation")] && b.loggedTime == 0 && b.isTruncated
    && (0 <= size < 0x7FFF_FFFF_FFFF_FC01 ==>
          (b.untruncatedSize as int - 1) * 1024 < size <= b.untruncatedSize as int * 1024)
  }

  ghost predicate ShortenedExchange(e: Event, b: Event) {
    && Shortened(e.user.name, 256, b.user.name) && Shortened(e.user.uid, 256, b.user.uid)
    && b.user.typeId == e.user.typeId && b.user.groups == []
    && Shortened(e.operation, 256, b.operation)
    && Shortened(e.request.method_, 256, b.request.method_) && Shortened(e.request.version, 256, b.request.version)
    && Shortened(e.request.path, 1024, b.request.path) && b.request.forwardedFor == []
    && b.response == e.response
    && ShortenedEndpoint(e.source, b.source)
  }

  ghost predicate ShortenedResource(r: Resource, b: Resource) {
    && Shortened(r.name, 256, b.name) && Shortened(r.namespace_, 256, b.namespace_)
    && Shortened(r.type_, 256, b.type_) && b.roleId == r.roleId && Shortened(r.role, 256, b.role)
  }

  ghost predicate ShortenedOutcome(e: Event, b: Event) {
    && b.statusId == e.statusId && Shortened(e.status, 256, b.status) && Shortened(e.statusCode, 256, b.statusCode)
    && (if e.destination.None? then b.destination.None?
        else b.destination.Some? && ShortenedEndpoint(e.destination.value, b.destination.value))
    && (if e.resources == [] then b.resources == []
        else |b.resources| == 1 && ShortenedResource(e.resources[0], b.resources[0]))
    && (if e.aiModel.None? then b.aiModel.None?
        else && b.aiModel.Some? && Shortened(e.aiModel.value.name, 256, b.aiModel.value.name)
             && Shortened(e.aiModel.value.provider, 256, b.aiModel.value.provider))
  }

  /** `b` is the bounded record of `e`: every string it retains is the sanitised original when that fits and
      else the longest well-formed prefix that leaves room for the marker, and nothing else differs but the
      lists cut and the metadata that say so. */
  ghost predicate IsBoundedFrom(e: Event, size: int, b: Event) {
    && ShortenedClass(e, b) && TruncatedMetadata(e.metadata, size, b.metadata)
    && ShortenedExchange(e, b) && ShortenedOutcome(e, b)
  }

  lemma ClassIsShortened(e: Event, originalSize: Int64)
    ensures ShortenedClass(e, Bounded(e, originalSize))
  {
    TruncatedIsShortened(e.activityName, 256);
    TruncatedIsShortened(e.categoryName, 256);
    TruncatedIsShortened(e.className, 256);
    TruncatedIsShortened(e.severity, 256);
  }

  lemma MetadataIsTruncated(m: Metadata, originalSize: Int64)
    ensures TruncatedMetadata(m, originalSize, BoundedMetadata(m, originalSize))
  {
    TruncatedIsShortened(m.version, 256);
    TruncatedIsShortened(m.product.name, 256);
    TruncatedIsShortened(m.product.version, 256);
    if originalSize >= 0 {
      KilobytesRoundsUp(originalSize);
    }
  }

  lemma EndpointIsShortened(e: Endpoint)
    ensures ShortenedEndpoint(e, BoundedEndpoint(e))
  {
    TruncatedIsShortened(e.name, 256);
    TruncatedIsShortened(e.hostname, 256);
    TruncatedIsShortened(e.ip, 256);
  }

  lemma ExchangeIsShortened(e: Event, originalSize: Int64)
    ensures ShortenedExchange(e, Bounded(e, originalSize))
  {
    TruncatedIsShortened(e.user.name, 256);
    TruncatedIsShortened(e.user.uid, 256);
    TruncatedIsShortened(e.operation, 256);
    TruncatedIsShortened(e.request.method_, 256);
    TruncatedIsShortened(e.request.version, 256);
    TruncatedIsShortened(e.request.path, 1024);
    EndpointIsShortened(e.source);
  }

  lemma ResourceIsShortened(r: Resource)
    ensures ShortenedResource(r, BoundedResource(r))
  {
    TruncatedIsShortened(r.name, 256);
    TruncatedIsShortened(r.namespace_, 256);
    TruncatedIsShortened(r.type_, 256);
    TruncatedIsShortened(r.role, 256);
  }

  lemma OutcomeIsShortened(e: Event, originalSize: Int64)
    ensures ShortenedOutcome(e, Bounded(e, originalSize))
  {
    TruncatedIsShortened(e.status, 256);
    TruncatedIsShortened(e.statusCode, 256);
    if e.destination.Some? {
      EndpointIsShortened(e.destination.value);
    }
    if e.resources != [] {
      ResourceIsShortened(e.resources[0]);
    }
    if e.aiModel.Some? {
      TruncatedIsShortened(e.aiModel.value.name, 256);
      TruncatedIsShortened(e.aiModel.value.provider, 256);
    }
  }

  /** For every event, overlong strings or not, and every original size. */
  lemma BoundedFields(e: Event, originalSize: Int64)
    ensures IsBoundedFrom(e, originalSize, Bounded(e, originalSize))
  {
    ClassIsShortened(e, originalSize);
    MetadataIsTruncated(e.metadata, originalSize);
    ExchangeIsShortened(e, originalSize);
    OutcomeIsShortened(e, originalSize);
  }

  lemma WrappedSmall(n: nat)
    ensures n < 0x8000_0000_0000_0000 ==> Wrapped(n) == n
  {
  }

  /** What is queued for an event whose encoding is above 64 KiB: the encoding, itself within 64 KiB, of its
      bounded record, which gives that encoding's size. */
  lemma OversizePayload(e: Event) returns (b: Event)
    ensures IsBoundedFrom(e, |Encoded(e)|, b) && |Encoded(b)| <= 65536
    ensures |Encoded(e)| > 65536 ==> Payload(e) == Some(Encoded(b))
  {
    b := BoundedOf(e, |Encoded(e)|);
    PayloadIsTheRecordIfItFits(e);
  }

  lemma BoundedOf(e: Event, size: nat) returns (b: Event)
    ensures b == Bounded(e, Wrapped(size)) && IsBoundedFrom(e, size, b) && |Encoded(b)| <= 65536
  {
    b := Bounded(e, Wrapped(size));
    BoundedFits(e, Wrapped(size));
    BoundedFieldsOf(e, size);
  }

  lemma BoundedFieldsOf(e: Event, size: nat)
    ensures IsBoundedFrom(e, size, Bounded(e, Wrapped(size)))
  {
    BoundedFields(e, Wrapped(size));
    WrappedSmall(size);
    SizeOfSmall(e, size, Bounded(e, Wrapped(size)));
  }

  lemma SizeOfSmall(e: Event, size: nat, b: Event)
    requires IsBoundedFrom(e, Wrapped(size), b) && (size < 0x8000_0000_0000_0000 ==> Wrapped(size) == size)
    ensures IsBoundedFrom(e, size, b)
  {
  }
}
