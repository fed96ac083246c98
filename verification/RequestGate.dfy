/**
 The request gate: path filters, authentication and authorization composed into one handler, with and
 without the audit layers, against a flat statement of what lets a request through.
 */
module RequestGate {
  import opened Wrappers
  import opened EndpointMatch
  import opened EndpointConfig
  import opened RequestAttributes
  import opened AuditResource
  import opened Paths
  import opened Splitting

  datatype PathMatch = Found | NotFound | BadPattern

  /** A successful authenticator names the user and may edit the header, as one that strips the credential
      it consumed does. */
  datatype Authentication = Failed | Unrecognised | Authenticated(user: User, headers: Headers)

  datatype Decision = Allow | Deny | NoOpinion | Error

  /** A request as handlers pass it on: with the header as edited so far, the authenticated user in its
      context, and whether an audit data object travels there too. */
  datatype Exchange = Exchange(req: Request, user: Option<User>, tracked: bool)

  datatype Response = Refused(code: nat) | Panicked | FromUpstream

  /** What the audit data object holds when the handler returns. */
  datatype Notes = Notes(user: Option<User>, target: Target, endpointMatched: bool)

  const NO_NOTES := Notes(None, NO_TARGET, false)

  datatype Record = Record(response: Response, notes: Notes, resource: Option<Metadata>)

  /** Everything a handler does: the response, the upstream calls in order with the header each hands to the
      reverse proxy, the notes taken, and the audit records enqueued. */
  datatype Reply = Reply(response: Response, calls: seq<Headers>, notes: Notes, records: seq<Record>)

  type Handler = Exchange -> Reply

  /** Whether and under which field names the upstream is told about the user. */
  datatype HeaderConfig = HeaderConfig(enabled: bool, userField: string, groupsField: string, separator: string)

  /** The collaborators, arbitrary functions, and the configuration. The authorizer may answer the same
      attributes differently at different positions. */
  datatype Env = Env(
    matches: (string, string) -> PathMatch,
    authenticate: Request -> Authentication,
    authorize: (nat, Attributes) -> Decision,
    lib: Library,
    cfg: Config,
    allowPaths: seq<string>,
    ignorePaths: seq<string>,
    header: HeaderConfig,
    auditResource: Metadata)

  function Refuse(code: nat): Reply {
    Reply(Refused(code), [], NO_NOTES, [])
  }

  // ----- Loops inside handlers -----

  /** Patterns are tried in order; the first that matches or is malformed decides. */
  function Scan(env: Env, patterns: seq<string>, path: string): PathMatch {
    if patterns == [] then NotFound
    else if env.matches(patterns[0], path).NotFound? then Scan(env, patterns[1..], path)
    else env.matches(patterns[0], path)
  }

  method ScanPatterns(env: Env, patterns: seq<string>, path: string) returns (r: PathMatch)
    ensures r == Scan(env, patterns, path)
  {
    var i := 0;
    while i < |patterns|
      invariant 0 <= i <= |patterns|
      invariant Scan(env, patterns, path) == Scan(env, patterns[i..], path)
    {
      var found := env.matches(patterns[i], path);
      if found.BadPattern? {
        return BadPattern;
      }
      if found.Found? {
        return Found;
      }
      i := i + 1;
    }
    r := NotFound;
  }

  /** The status of the first attribute from position k on that is not allowed. */
  function FirstRefusal(env: Env, attrs: seq<Attributes>, k: nat): Option<nat>
    requires k <= |attrs|
    decreases |attrs| - k
  {
    if k == |attrs| then None
    else
      match env.authorize(k, attrs[k])
      case Error => Some(500)
      case Allow => FirstRefusal(env, attrs, k + 1)
      case _ => Some(403)
  }

  method AuthorizeAll(env: Env, attrs: seq<Attributes>) returns (refusal: Option<nat>)
    ensures refusal == FirstRefusal(env, attrs, 0)
  {
    var k := 0;
    while k < |attrs|
      invariant 0 <= k <= |attrs|
      invariant FirstRefusal(env, attrs, 0) == FirstRefusal(env, attrs, k)
    {
      var decision := env.authorize(k, attrs[k]);
      if decision.Error? {
        return Some(500);
      }
      if !decision.Allow? {
        return Some(403);
      }
      k := k + 1;
    }
    refusal := None;
  }

  // ----- Handlers -----

  function Proxy(): Handler {
    (x: Exchange) => Reply(FromUpstream, [x.req.headers], NO_NOTES, [])
  }

  function UserKey(env: Env): string {
    env.lib.canonical(env.header.userField)
  }

  function GroupsKey(env: Env): string {
    env.lib.canonical(env.header.groupsField)
  }

  function JoinedGroups(env: Env, user: User): string {
    JoinWith(user.groups, env.header.separator)
  }

  /** Sets, and so overwrites, the user field and then the groups field. */
  function Identified(env: Env, headers: Headers, user: User): Headers {
    headers[UserKey(env) := [user.name]][GroupsKey(env) := [JoinedGroups(env, user)]]
  }

  function WithIdentity(env: Env, x: Exchange): Exchange {
    if x.user.Some? then x.(req := x.req.(headers := Identified(env, x.req.headers, x.user.value))) else x
  }

  function WithAuthHeaders(env: Env, next: Handler): Handler {
    if !env.header.enabled then next else (x: Exchange) => next(WithIdentity(env, x))
  }

  /** Notes are taken only when the request carries an audit data object. */
  function Noted(x: Exchange, reply: Reply, notes: Notes): Reply {
    if x.tracked then reply.(notes := notes) else reply
  }

  /** The attributes observer. */
  function Observed(notes: Notes, attrs: seq<Attributes>): Notes {
    if exists k :: 0 <= k < |attrs| && attrs[k].Resource? then notes.(target := Captured(attrs)) else notes
  }

  function Authorized(env: Env, observed: bool, next: Handler, x: Exchange): Reply {
    if x.user.None? then Refuse(400)
    else
      match AttributesOf(env.lib, x.user.value, x.req, env.cfg)
      case Err(MethodNotAllowed) => Refuse(403)
      case Err(IndexPanic) => Reply(Panicked, [], NO_NOTES, [])
      case Err(_) => Refuse(400)
      case Ok(attrs) =>
        if attrs == [] then Refuse(400)
        else
          var refusal := FirstRefusal(env, attrs, 0);
          var reply := if refusal.Some? then Refuse(refusal.value) else next(x);
          if observed then Noted(x, reply, Observed(reply.notes, attrs)) else reply
  }

  function WithAuthorization(env: Env, observed: bool, next: Handler): Handler {
    (x: Exchange) => Authorized(env, observed, next, x)
  }

  function WithAuthentication(env: Env, next: Handler): Handler {
    (x: Exchange) =>
      match env.authenticate(x.req)
      case Authenticated(user, headers) => next(x.(user := Some(user), req := x.req.(headers := headers)))
      case _ => Refuse(401)
  }

  function CaptureUser(next: Handler): Handler {
    (x: Exchange) =>
      var reply := next(x);
      if x.user.Some? then Noted(x, reply, reply.notes.(user := x.user)) else reply
  }

  predicate EndpointMatched(cfg: Config, path: string) {
    exists k :: 0 <= k < |cfg.endpoints| && Match(path, Split(cfg.endpoints[k].path))
  }

  function CaptureEndpointMatch(env: Env, next: Handler): Handler {
    if env.cfg.endpoints == [] then next
    else
      (x: Exchange) =>
        var reply := next(x);
        if EndpointMatched(env.cfg, x.req.path) then Noted(x, reply, reply.notes.(endpointMatched := true)) else reply
  }

  function AuditRecord(env: Env, response: Response, notes: Notes): Record {
    Record(response, notes, Recorded(env.auditResource, notes.target, StaticMetadata(env.cfg.resourceAttributes),
                                     notes.endpointMatched))
  }

  function WithAuditLog(env: Env, next: Handler): Handler {
    (x: Exchange) =>
      var reply := next(x.(tracked := true));
      reply.(records := reply.records + [AuditRecord(env, reply.response, reply.notes)])
  }

  function ProtectedHandler(env: Env, audited: bool): Handler {
    var proxied := WithAuthHeaders(env, Proxy());
    if !audited then WithAuthentication(env, WithAuthorization(env, false, proxied))
    else
      var authorized := CaptureUser(WithAuthorization(env, true, proxied));
      WithAuditLog(env, CaptureEndpointMatch(env, WithAuthentication(env, authorized)))
  }

  function WithAllowPaths(env: Env, next: Handler): Handler {
    if env.allowPaths == [] then next
    else
      (x: Exchange) =>
        match Scan(env, env.allowPaths, x.req.path)
        case BadPattern => Refuse(500)
        case Found => next(x)
        case NotFound => Refuse(404)
  }

  function IgnoreOrProtect(env: Env, audited: bool): Handler {
    (x: Exchange) =>
      match Scan(env, env.ignorePaths, x.req.path)
      case BadPattern => Refuse(500)
      case Found => Proxy()(x)
      case NotFound => ProtectedHandler(env, audited)(x)
  }

  function RequestHandler(env: Env, audited: bool): Handler {
    WithAllowPaths(env, IgnoreOrProtect(env, audited))
  }

  /** A request as the listener hands it over. */
  function Fresh(req: Request): Exchange {
    Exchange(req, None, false)
  }

  // ----- The flat statement -----

  predicate FirstHit(env: Env, patterns: seq<string>, path: string, i: nat) {
    && i < |patterns|
    && env.matches(patterns[i], path).Found?
    && forall k :: 0 <= k < i ==> env.matches(patterns[k], path).NotFound?
  }

  predicate Hit(env: Env, patterns: seq<string>, path: string) {
    exists i: nat :: i < |patterns| && FirstHit(env, patterns, path, i)
  }

  predicate Missed(env: Env, patterns: seq<string>, path: string) {
    forall k :: 0 <= k < |patterns| ==> env.matches(patterns[k], path).NotFound?
  }

  predicate AllowedPath(env: Env, path: string) {
    env.allowPaths == [] || Hit(env, env.allowPaths, path)
  }

  /** The request as a successful authenticator leaves it. */
  function Left(env: Env, req: Request): Request
    requires env.authenticate(req).Authenticated?
  {
    req.(headers := env.authenticate(req).headers)
  }

  /** What attribute construction makes of an authenticated request. */
  function MadeFor(env: Env, req: Request): AllMade
    requires env.authenticate(req).Authenticated?
  {
    AttributesOf(env.lib, env.authenticate(req).user, Left(env, req), env.cfg)
  }

  predicate Granted(env: Env, req: Request) {
    && env.authenticate(req).Authenticated?
    && var made := MadeFor(env, req);
       && made.Ok? && made.value != []
       && forall k :: 0 <= k < |made.value| ==> env.authorize(k, made.value[k]).Allow?
  }

  /** What lets a request through to the upstream. */
  predicate Admitted(env: Env, req: Request) {
    && AllowedPath(env, req.path)
    && (Hit(env, env.ignorePaths, req.path) || (Missed(env, env.ignorePaths, req.path) && Granted(env, req)))
  }

  /** A request that the path filters leave to the protected handler. */
  predicate Guarded(env: Env, req: Request) {
    AllowedPath(env, req.path) && Missed(env, env.ignorePaths, req.path)
  }

  lemma {:induction false} ScanDecides(env: Env, patterns: seq<string>, path: string)
    ensures Scan(env, patterns, path).Found? <==> Hit(env, patterns, path)
    ensures Scan(env, patterns, path).NotFound? <==> Missed(env, patterns, path)
  {
    if patterns != [] {
      var rest := patterns[1..];
      ScanDecides(env, rest, path);
      if env.matches(patterns[0], path).NotFound? {
        if Hit(env, rest, path) {
          var i: nat :| i < |rest| && FirstHit(env, rest, path, i);
          assert FirstHit(env, patterns, path, i + 1);
        }
        if Hit(env, patterns, path) {
          var i: nat :| i < |patterns| && FirstHit(env, patterns, path, i);
          assert forall k :: 0 <= k < |rest| ==> rest[k] == patterns[k + 1];
          assert FirstHit(env, rest, path, i - 1);
        }
        assert forall k :: 0 < k < |patterns| ==> patterns[k] == rest[k - 1];
      } else if env.matches(patterns[0], path).Found? {
        assert FirstHit(env, patterns, path, 0);
      }
    }
  }

  lemma {:induction false} RefusalMeansNotAllowed(env: Env, attrs: seq<Attributes>, k: nat)
    requires k <= |attrs|
    ensures FirstRefusal(env, attrs, k).None? <==> forall j :: k <= j < |attrs| ==> env.authorize(j, attrs[j]).Allow?
    ensures FirstRefusal(env, attrs, k).Some? ==>
              exists j :: && k <= j < |attrs| && (forall i :: k <= i < j ==> env.authorize(i, attrs[i]).Allow?)
                          && !env.authorize(j, attrs[j]).Allow?
                          && FirstRefusal(env, attrs, k).value == if env.authorize(j, attrs[j]).Error? then 500 else 403
    decreases |attrs| - k
  {
    if k < |attrs| && env.authorize(k, attrs[k]).Allow? {
      RefusalMeansNotAllowed(env, attrs, k + 1);
    }
  }

  // ----- Layer by layer -----

  lemma HeadersApply(env: Env, next: Handler, x: Exchange)
    ensures WithAuthHeaders(env, next)(x)
            == if env.header.enabled then next(WithIdentity(env, x)) else next(x)
  {
  }

  lemma ProxyApplies(x: Exchange)
    ensures Proxy()(x) == Reply(FromUpstream, [x.req.headers], NO_NOTES, [])
  {
  }

  lemma AuthorizationApplies(env: Env, observed: bool, next: Handler, x: Exchange)
    ensures WithAuthorization(env, observed, next)(x) == Authorized(env, observed, next, x)
  {
  }

  /** The exchange behind a successful authentication. */
  function Known(env: Env, x: Exchange): Exchange
    requires env.authenticate(x.req).Authenticated?
  {
    x.(user := Some(env.authenticate(x.req).user), req := Left(env, x.req))
  }

  lemma AuthenticationApplies(env: Env, next: Handler, x: Exchange)
    ensures WithAuthentication(env, next)(x)
            == if env.authenticate(x.req).Authenticated? then next(Known(env, x)) else Refuse(401)
  {
  }

  lemma CaptureUserApplies(next: Handler, x: Exchange)
    requires x.user.Some? && x.tracked
    ensures CaptureUser(next)(x) == next(x).(notes := next(x).notes.(user := x.user))
  {
  }

  lemma CaptureMatchApplies(env: Env, next: Handler, x: Exchange)
    requires x.tracked
    ensures CaptureEndpointMatch(env, next)(x)
            == if EndpointMatched(env.cfg, x.req.path) then next(x).(notes := next(x).notes.(endpointMatched := true))
               else next(x)
  {
  }

  lemma AuditLogApplies(env: Env, next: Handler, x: Exchange)
    ensures var reply := next(x.(tracked := true));
            WithAuditLog(env, next)(x)
            == reply.(records := reply.records + [AuditRecord(env, reply.response, reply.notes)])
  {
  }

  lemma AllowApplies(env: Env, next: Handler, x: Exchange)
    ensures WithAllowPaths(env, next)(x)
            == if env.allowPaths == [] || Scan(env, env.allowPaths, x.req.path).Found? then next(x)
               else Refuse(if Scan(env, env.allowPaths, x.req.path).BadPattern? then 500 else 404)
  {
  }

  lemma IgnoreApplies(env: Env, audited: bool, x: Exchange)
    ensures IgnoreOrProtect(env, audited)(x)
            == match Scan(env, env.ignorePaths, x.req.path)
               case BadPattern => Refuse(500)
               case Found => Proxy()(x)
               case NotFound => ProtectedHandler(env, audited)(x)
  {
  }

  // ----- The protected chain flattened -----

  function ProtectedResponse(env: Env, req: Request): Response {
    match env.authenticate(req)
    case Authenticated(user, _) =>
      (match MadeFor(env, req)
       case Err(MethodNotAllowed) => Refused(403)
       case Err(IndexPanic) => Panicked
       case Err(_) => Refused(400)
       case Ok(attrs) =>
         if attrs == [] then Refused(400)
         else if FirstRefusal(env, attrs, 0).Some? then Refused(FirstRefusal(env, attrs, 0).value)
         else FromUpstream)
    case _ => Refused(401)
  }

  function ProtectedCalls(env: Env, req: Request): seq<Headers> {
    if !ProtectedResponse(env, req).FromUpstream? then []
    else
      var left := env.authenticate(req).headers;
      [if env.header.enabled then Identified(env, left, env.authenticate(req).user) else left]
  }

  function ProtectedNotes(env: Env, req: Request): Notes {
    var matched := EndpointMatched(env.cfg, req.path);
    match env.authenticate(req)
    case Authenticated(user, _) =>
      var made := MadeFor(env, req);
      Notes(Some(user), if made.Ok? then Captured(made.value) else NO_TARGET, matched)
    case _ => Notes(None, NO_TARGET, matched)
  }

  /** The attributes put to the authorizer; none when they could not be built. */
  function AuthorizedAttributes(env: Env, req: Request): seq<Attributes> {
    match env.authenticate(req)
    case Authenticated(user, _) =>
      var made := MadeFor(env, req);
      if made.Ok? then made.value else []
    case _ => []
  }

  /** The reply of authorization around the proxy, before the outer audit layers. */
  lemma InnerChain(env: Env, observed: bool, x: Exchange)
    requires env.authenticate(x.req).Authenticated? && x.tracked == observed
    ensures var reply := WithAuthorization(env, observed, WithAuthHeaders(env, Proxy()))(Known(env, x));
            && reply.response == ProtectedResponse(env, x.req)
            && reply.calls == ProtectedCalls(env, x.req)
            && reply.notes == (if observed then Notes(None, ProtectedNotes(env, x.req).target, false) else NO_NOTES)
            && reply.records == []
  {
    var known := Known(env, x);
    CapturedIsFirst(AuthorizedAttributes(env, x.req));
    AuthorizationApplies(env, observed, WithAuthHeaders(env, Proxy()), known);
    HeadersApply(env, Proxy(), known);
    ProxyApplies(known);
    ProxyApplies(WithIdentity(env, known));
  }

  lemma PlainChain(env: Env, x: Exchange)
    requires x.user.None? && !x.tracked
    ensures ProtectedHandler(env, false)(x)
            == Reply(ProtectedResponse(env, x.req), ProtectedCalls(env, x.req), NO_NOTES, [])
  {
    AuthenticationApplies(env, WithAuthorization(env, false, WithAuthHeaders(env, Proxy())), x);
    if env.authenticate(x.req).Authenticated? {
      InnerChain(env, false, x);
    }
  }

  lemma AuditedChain(env: Env, x: Exchange)
    requires x.user.None? && !x.tracked
    ensures ProtectedHandler(env, true)(x)
            == Reply(ProtectedResponse(env, x.req), ProtectedCalls(env, x.req), ProtectedNotes(env, x.req),
                     [AuditRecord(env, ProtectedResponse(env, x.req), ProtectedNotes(env, x.req))])
  {
    var authorized := WithAuthorization(env, true, WithAuthHeaders(env, Proxy()));
    var captured := CaptureUser(authorized);
    var authenticated := WithAuthentication(env, captured);
    var t := x.(tracked := true);
    AuditLogApplies(env, CaptureEndpointMatch(env, authenticated), x);
    CaptureMatchApplies(env, authenticated, t);
    AuthenticationApplies(env, captured, t);
    if env.authenticate(x.req).Authenticated? {
      CaptureUserApplies(authorized, Known(env, t));
      InnerChain(env, true, t);
    }
  }

  // ----- The whole gate -----

  lemma ResponseGrants(env: Env, req: Request)
    ensures ProtectedResponse(env, req).FromUpstream? <==> Granted(env, req)
  {
    if env.authenticate(req).Authenticated? {
      var made := MadeFor(env, req);
      if made.Ok? {
        RefusalMeansNotAllowed(env, made.value, 0);
      }
    }
  }

  /** The composed handler, audited or not, is the flat statement. */
  lemma HandlerReplies(env: Env, audited: bool, req: Request)
    ensures var reply := RequestHandler(env, audited)(Fresh(req));
            if !AllowedPath(env, req.path) then
              reply == Refuse(if Missed(env, env.allowPaths, req.path) then 404 else 500)
            else if Hit(env, env.ignorePaths, req.path) then
              reply == Reply(FromUpstream, [req.headers], NO_NOTES, [])
            else if !Missed(env, env.ignorePaths, req.path) then
              reply == Refuse(500)
            else if audited then
              reply == Reply(ProtectedResponse(env, req), ProtectedCalls(env, req), ProtectedNotes(env, req),
                             [AuditRecord(env, ProtectedResponse(env, req), ProtectedNotes(env, req))])
            else
              reply == Reply(ProtectedResponse(env, req), ProtectedCalls(env, req), NO_NOTES, [])
  {
    ScanDecides(env, env.allowPaths, req.path);
    ScanDecides(env, env.ignorePaths, req.path);
    PlainChain(env, Fresh(req));
    AuditedChain(env, Fresh(req));
    ProxyApplies(Fresh(req));
    AllowApplies(env, IgnoreOrProtect(env, audited), Fresh(req));
    IgnoreApplies(env, audited, Fresh(req));
  }

  /** The upstream is called at most once, and exactly when the path passes the allow list and is ignored
      or the user authenticates and every one of at least one attribute is allowed. */
  lemma UpstreamIffAdmitted(env: Env, audited: bool, req: Request)
    ensures var reply := RequestHandler(env, audited)(Fresh(req));
            && |reply.calls| == (if Admitted(env, req) then 1 else 0)
            && (reply.response.FromUpstream? <==> Admitted(env, req))
  {
    HandlerReplies(env, audited, req);
    ResponseGrants(env, req);
    HitOrMissed(env, env.ignorePaths, req.path);
  }

  lemma HitOrMissed(env: Env, patterns: seq<string>, path: string)
    ensures !(Hit(env, patterns, path) && Missed(env, patterns, path))
  {
    ScanDecides(env, patterns, path);
  }

  // ----- What the upstream is told about the user -----

  /** The header that reaches the identity layer, or the proxy on an ignored path: the client's own, but for
      what the authenticator edited. */
  function Arriving(env: Env, req: Request): Headers {
    if Guarded(env, req) && env.authenticate(req).Authenticated? then env.authenticate(req).headers else req.headers
  }

  /** `sent` is `arriving` with the user's name and groups under the canonical form of the configured field
      names, whatever was there, and every other field as it was. When both names have one canonical form the
      groups remain. */
  ghost predicate TellsUser(env: Env, user: User, arriving: Headers, sent: Headers) {
    var userKey, groupsKey := env.lib.canonical(env.header.userField), env.lib.canonical(env.header.groupsField);
    && groupsKey in sent && |sent[groupsKey]| == 1
    && IsJoined(user.groups, env.header.separator, sent[groupsKey][0])
    && (userKey != groupsKey ==> userKey in sent && sent[userKey] == [user.name])
    && forall key :: key != userKey && key != groupsKey ==>
         (key in sent <==> key in arriving) && (key in sent ==> sent[key] == arriving[key])
  }

  lemma IdentifiedTellsUser(env: Env, user: User, arriving: Headers)
    ensures TellsUser(env, user, arriving, Identified(env, arriving, user))
  {
    JoinedIffIs(user.groups, env.header.separator, JoinedGroups(env, user));
  }

  /** Every upstream call carries the arriving header. On a guarded request with identity headers enabled the
      user and groups fields are overwritten, whatever the client put there, and no other field is; in every
      other case nothing is, so the client's own identity fields go through. */
  lemma IdentityHeaders(env: Env, audited: bool, req: Request, k: nat)
    requires k < |RequestHandler(env, audited)(Fresh(req)).calls|
    ensures var sent := RequestHandler(env, audited)(Fresh(req)).calls[k];
            if Guarded(env, req) && env.header.enabled then
              && env.authenticate(req).Authenticated?
              && TellsUser(env, env.authenticate(req).user, Arriving(env, req), sent)
            else sent == Arriving(env, req)
  {
    HandlerReplies(env, audited, req);
    HitOrMissed(env, env.ignorePaths, req.path);
    if env.authenticate(req).Authenticated? {
      IdentifiedTellsUser(env, env.authenticate(req).user, env.authenticate(req).headers);
    }
  }

  /** When the separator is one character that occurs in no group name, the upstream gets the user's groups back
      by splitting the field at it. */
  lemma GroupsReadBack(env: Env, audited: bool, req: Request, k: nat, sep: char)
    requires k < |RequestHandler(env, audited)(Fresh(req)).calls|
    requires Guarded(env, req) && env.header.enabled && env.header.separator == [sep]
    requires env.authenticate(req).Authenticated?
    requires env.authenticate(req).user.groups != []
    requires forall g :: g in env.authenticate(req).user.groups ==> sep !in g
    ensures var sent := RequestHandler(env, audited)(Fresh(req)).calls[k];
            var key := env.lib.canonical(env.header.groupsField);
            && key in sent && |sent[key]| == 1
            && SplitOn(sent[key][0], sep) == env.authenticate(req).user.groups
  {
    var groups := env.authenticate(req).user.groups;
    var sent := RequestHandler(env, audited)(Fresh(req)).calls[k];
    IdentityHeaders(env, audited, req, k);
    JoinedIffIs(groups, [sep], sent[env.lib.canonical(env.header.groupsField)][0]);
    SplitOfJoin(groups, sep);
  }

  /** The upstream reads the authenticated user's name if and only if the request is guarded and identity
      headers are enabled under distinct names, or the name is what is there anyway: what the client sent, or
      what the groups come to when both fields have one name. */
  lemma UpstreamReadsUserIff(env: Env, audited: bool, req: Request, k: nat)
    requires k < |RequestHandler(env, audited)(Fresh(req)).calls| && env.authenticate(req).Authenticated?
    ensures var user, sent := env.authenticate(req).user, RequestHandler(env, audited)(Fresh(req)).calls[k];
            var key := env.lib.canonical(env.header.userField);
            (key in sent && sent[key] == [user.name])
            <==> if Guarded(env, req) && env.header.enabled
                 then key != env.lib.canonical(env.header.groupsField)
                      || IsJoined(user.groups, env.header.separator, user.name)
                 else key in Arriving(env, req) && Arriving(env, req)[key] == [user.name]
  {
    IdentityHeaders(env, audited, req, k);
    var user, sent := env.authenticate(req).user, RequestHandler(env, audited)(Fresh(req)).calls[k];
    var key := env.lib.canonical(env.header.userField);
    if Guarded(env, req) && env.header.enabled && key == env.lib.canonical(env.header.groupsField) {
      JoinedIffIs(user.groups, env.header.separator, sent[key][0]);
      JoinedIffIs(user.groups, env.header.separator, user.name);
    }
  }

  /** An environment with identity headers enabled and one ignored path, where nobody authenticates. */
  function IgnoringEnv(lib: Library, cfg: Config): Env {
    Env((pattern, path) => if pattern == path then Found else NotFound, _ => Failed, (_, _) => Deny, lib, cfg,
        [], ["/healthz"], HeaderConfig(true, "x-remote-user", "x-remote-groups", "|"), Metadata("", "", ""))
  }

  /** A user name the client itself sends on an ignored path reaches the upstream though nobody was
      authenticated and identity headers are enabled. */
  lemma IgnoredPathForwardsClientIdentity(lib: Library, cfg: Config, audited: bool)
    ensures var env, key := IgnoringEnv(lib, cfg), lib.canonical("x-remote-user");
            var req := Request("GET", "/healthz", map[key := ["admin"]], map[]);
            var reply := RequestHandler(env, audited)(Fresh(req));
            && env.header.enabled && !env.authenticate(req).Authenticated?
            && |reply.calls| == 1 && key in reply.calls[0] && reply.calls[0][key] == ["admin"]
  {
    var env := IgnoringEnv(lib, cfg);
    var req := Request("GET", "/healthz", map[lib.canonical("x-remote-user") := ["admin"]], map[]);
    assert env.matches(env.ignorePaths[0], req.path).Found?;
    assert FirstHit(env, env.ignorePaths, req.path, 0);
    HandlerReplies(env, audited, req);
  }

  /** The first failing stage alone fixes the status of a guarded request that is not granted. */
  lemma StatusOfFirstFailure(env: Env, audited: bool, req: Request)
    requires Guarded(env, req) && !Granted(env, req)
    ensures var response := RequestHandler(env, audited)(Fresh(req)).response;
            if !env.authenticate(req).Authenticated? then response == Refused(401)
            else
              match MadeFor(env, req)
              case Err(MethodNotAllowed) => response == Refused(403)
              case Err(IndexPanic) => response == Panicked
              case Err(_) => response == Refused(400)
              case Ok(attrs) =>
                if attrs == [] then response == Refused(400)
                else exists j :: && 0 <= j < |attrs| && !env.authorize(j, attrs[j]).Allow?
                                 && (forall i :: 0 <= i < j ==> env.authorize(i, attrs[i]).Allow?)
                                 && response == Refused(if env.authorize(j, attrs[j]).Error? then 500 else 403)
  {
    HandlerReplies(env, audited, req);
    HitOrMissed(env, env.ignorePaths, req.path);
    if env.authenticate(req).Authenticated? {
      var made := MadeFor(env, req);
      if made.Ok? && made.value != [] {
        RefusalMeansNotAllowed(env, made.value, 0);
      }
    }
  }

  /** Auditing changes neither the response nor the upstream call. */
  lemma AuditIsTransparent(env: Env, req: Request)
    ensures RequestHandler(env, true)(Fresh(req)).response == RequestHandler(env, false)(Fresh(req)).response
    ensures RequestHandler(env, true)(Fresh(req)).calls == RequestHandler(env, false)(Fresh(req)).calls
  {
    HandlerReplies(env, true, req);
    HandlerReplies(env, false, req);
  }

  /** What a record says about a request the protected handler served. */
  predicate Faithful(env: Env, req: Request, reply: Reply, record: Record) {
    && record.response == reply.response
    && record.notes.user == (if env.authenticate(req).Authenticated? then Some(env.authenticate(req).user) else None)
    && record.notes.endpointMatched == EndpointMatched(env.cfg, req.path)
    && IsFirst(AuthorizedAttributes(env, req), record.notes.target)
    && record == AuditRecord(env, record.response, record.notes)
  }

  /** One record per authentication-protected request and none for a request the path filters settle; the
      record carries the response given, the authenticated user, the endpoint-ownership flag and the
      target of the first attribute by resource. */
  lemma OneFaithfulRecord(env: Env, req: Request)
    ensures var reply := RequestHandler(env, true)(Fresh(req));
            if Guarded(env, req) then |reply.records| == 1 && Faithful(env, req, reply, reply.records[0])
            else reply.records == []
    ensures RequestHandler(env, false)(Fresh(req)).records == []
  {
    CapturedIsFirst(AuthorizedAttributes(env, req));
    HandlerReplies(env, true, req);
    HandlerReplies(env, false, req);
    HitOrMissed(env, env.ignorePaths, req.path);
  }

  /** With an accepted configuration the no-attributes rejection cannot come from an owning endpoint. */
  lemma NoEmptyAttributesFromFormat2(blank: string -> bool, env: Env, req: Request)
    requires ValidConfig(blank, env.cfg) && EndpointMatched(env.cfg, req.path)
    requires env.authenticate(req).Authenticated?
    ensures MadeFor(env, req) != Ok([])
  {
    var left := Left(env, req);
    var k :| 0 <= k < |env.cfg.endpoints| && Match(req.path, Split(env.cfg.endpoints[k].path));
    var i := FindFirst(left, env.cfg.endpoints, k);
    if MadeFor(env, req).Ok? {
      OwnedRequestsYieldAttributes(blank, env.lib, env.authenticate(req).user, left, env.cfg, i);
    }
  }

  // ----- Ownership across the gate -----

  lemma {:induction false} ScanIgnoresConfig(env: Env, cfg: Config, patterns: seq<string>, path: string)
    ensures Scan(env.(cfg := cfg), patterns, path) == Scan(env, patterns, path)
  {
    if patterns != [] {
      ScanIgnoresConfig(env, cfg, patterns[1..], path);
    }
  }

  lemma {:induction false} RefusalIgnoresConfig(env: Env, cfg: Config, attrs: seq<Attributes>, k: nat)
    requires k <= |attrs|
    ensures FirstRefusal(env.(cfg := cfg), attrs, k) == FirstRefusal(env, attrs, k)
    decreases |attrs| - k
  {
    if k < |attrs| {
      RefusalIgnoresConfig(env, cfg, attrs, k + 1);
    }
  }

  lemma OwnedAttributesIgnoreTopLevel(env: Env, cfg: Config, user: User, req: Request)
    requires EndpointMatched(env.cfg, req.path) && cfg.endpoints == env.cfg.endpoints
    ensures AttributesOf(env.lib, user, req, cfg) == AttributesOf(env.lib, user, req, env.cfg)
  {
    var k :| 0 <= k < |cfg.endpoints| && Match(req.path, Split(cfg.endpoints[k].path));
    var i := FindFirst(req, cfg.endpoints, k);
    FirstMatchOwns(env.lib, user, req, cfg, i, cfg.(endpoints := [cfg.endpoints[i]]));
    FirstMatchOwns(env.lib, user, req, env.cfg, i, cfg.(endpoints := [cfg.endpoints[i]]));
  }

  lemma OwnedProtectedIgnoresTopLevel(env: Env, cfg: Config, req: Request)
    requires EndpointMatched(env.cfg, req.path) && cfg.endpoints == env.cfg.endpoints
    ensures ProtectedResponse(env.(cfg := cfg), req) == ProtectedResponse(env, req)
    ensures ProtectedCalls(env.(cfg := cfg), req) == ProtectedCalls(env, req)
    ensures ProtectedNotes(env.(cfg := cfg), req) == ProtectedNotes(env, req)
    ensures ProtectedNotes(env, req).endpointMatched
  {
    if env.authenticate(req).Authenticated? {
      OwnedAttributesIgnoreTopLevel(env, cfg, env.authenticate(req).user, Left(env, req));
      var made := MadeFor(env, req);
      if made.Ok? {
        RefusalIgnoresConfig(env, cfg, made.value, 0);
      }
    }
  }

  /** Everything the gate does for a request that an endpoint owns, the audit record included, is
      independent of the top-level rewrites and resource attributes. */
  lemma OwnedRequestsIgnoreTopLevel(env: Env, cfg: Config, audited: bool, req: Request)
    requires EndpointMatched(env.cfg, req.path) && cfg.endpoints == env.cfg.endpoints
    ensures RequestHandler(env.(cfg := cfg), audited)(Fresh(req)) == RequestHandler(env, audited)(Fresh(req))
  {
    var other := env.(cfg := cfg);
    OwnedProtectedIgnoresTopLevel(env, cfg, req);
    OwnedIgnoresFallback(env.auditResource, ProtectedNotes(env, req).target,
                         StaticMetadata(env.cfg.resourceAttributes), StaticMetadata(cfg.resourceAttributes));
    AllowApplies(env, IgnoreOrProtect(env, audited), Fresh(req));
    AllowApplies(other, IgnoreOrProtect(other, audited), Fresh(req));
    ScanIgnoresConfig(env, cfg, env.allowPaths, req.path);
    ScanIgnoresConfig(env, cfg, env.ignorePaths, req.path);
    IgnoreApplies(env, audited, Fresh(req));
    IgnoreApplies(other, audited, Fresh(req));
    ProtectedApplies(env, audited, req);
    ProtectedApplies(other, audited, req);
  }

  lemma ProtectedApplies(env: Env, audited: bool, req: Request)
    ensures ProtectedHandler(env, audited)(Fresh(req))
            == if audited then
                 Reply(ProtectedResponse(env, req), ProtectedCalls(env, req), ProtectedNotes(env, req),
                       [AuditRecord(env, ProtectedResponse(env, req), ProtectedNotes(env, req))])
               else Reply(ProtectedResponse(env, req), ProtectedCalls(env, req), NO_NOTES, [])
  {
    if audited {
      AuditedChain(env, Fresh(req));
    } else {
      PlainChain(env, Fresh(req));
    }
  }

  /** Endpoint rules authorize by resource only. */
  lemma OwnedAttributesAreResources(env: Env, req: Request)
    requires EndpointMatched(env.cfg, req.path) && AuthorizedAttributes(env, req) != []
    ensures AuthorizedAttributes(env, req)[0].Resource?
  {
    var left, user := Left(env, req), env.authenticate(req).user;
    var k :| 0 <= k < |env.cfg.endpoints| && Match(req.path, Split(env.cfg.endpoints[k].path));
    var i := FindFirst(left, env.cfg.endpoints, k);
    var endpoint := env.cfg.endpoints[i];
    FirstMatchOwns(env.lib, user, left, env.cfg, i, env.cfg.(endpoints := [endpoint]));
    var rules := RulesForMethod(env.lib, left.method_, endpoint.mappings).value;
    var params := Extracted(left.path, Split(endpoint.path)).value;
    OneAttributePerRule(env.lib, user, left, rules, params);
    RuleMakesResource(env.lib, user, left, rules[0], params);
  }

  lemma RuleMakesResource(lib: Library, user: User, req: Request, rule: Rule, params: Captures)
    ensures RuleAttributes(lib, user, req, rule, params).Ok? ==>
              RuleAttributes(lib, user, req, rule, params).value.Resource?
  {
  }

  /** The record of any guarded request, whatever is configured: it carries the ownership flag, and names the
      first non-empty of the configured resource, the target of the first attribute by resource and, unless an
      endpoint owns the request, the literal top-level one; likewise for the namespace. */
  lemma RecordNames(env: Env, req: Request) returns (target: Target, literal: Target)
    requires Guarded(env, req)
    ensures IsFirst(AuthorizedAttributes(env, req), target)
    ensures match env.cfg.resourceAttributes
            case None => literal == Target("", "")
            case Some(a) => IsLiteralPart(a.name, literal.name) && IsLiteralPart(a.namespace_, literal.namespace_)
    ensures var records := RequestHandler(env, true)(Fresh(req)).records;
            var owned := exists k :: 0 <= k < |env.cfg.endpoints| && Match(req.path, Split(env.cfg.endpoints[k].path));
            var name := FirstNonEmpty([env.auditResource.name, target.name] + (if owned then [] else [literal.name]));
            var namespace_ := FirstNonEmpty([env.auditResource.namespace_, target.namespace_]
                                            + (if owned then [] else [literal.namespace_]));
            && |records| == 1
            && (records[0].notes.endpointMatched <==> owned)
            && records[0].resource ==
               if name == "" then None else Some(Metadata(name, namespace_, env.auditResource.type_))
  {
    var fallback := StaticMetadata(env.cfg.resourceAttributes);
    target := Captured(AuthorizedAttributes(env, req));
    literal := Target(fallback.name, fallback.namespace_);
    CapturedIsFirst(AuthorizedAttributes(env, req));
    StaticIsLiteral(env.cfg.resourceAttributes);
    HandlerReplies(env, true, req);
    HitOrMissed(env, env.ignorePaths, req.path);
    Precedence(env.auditResource, target, fallback, EndpointMatched(env.cfg, req.path));
  }

  /** With no configured audit resource, the record of a guarded request whose attributes could be built names
      exactly the resource and namespace of the first attribute put to the authorizer, or nothing when that
      one names none, whether an endpoint owns the request or not, and whether it is granted or not. */
  lemma RecordNamesFirstAttribute(env: Env, req: Request)
    requires Guarded(env, req) && AuthorizedAttributes(env, req) != []
    requires env.auditResource == Unconfigured(env.auditResource.type_)
    requires EndpointMatched(env.cfg, req.path) || LiteralsStay(env.lib)
    ensures var records := RequestHandler(env, true)(Fresh(req)).records;
            && |records| == 1
            && records[0].resource == NamedBy(AuthorizedAttributes(env, req)[0], env.auditResource.type_)
  {
    var attrs, kind := AuthorizedAttributes(env, req), env.auditResource.type_;
    HandlerReplies(env, true, req);
    HitOrMissed(env, env.ignorePaths, req.path);
    if EndpointMatched(env.cfg, req.path) {
      OwnedAttributesAreResources(env, req);
      OwnedRecordsFirst(attrs, StaticMetadata(env.cfg.resourceAttributes), kind);
    } else {
      ScanFindsNone(env.lib, env.authenticate(req).user, Left(env, req), env.cfg.endpoints);
      Format1RecordsFirst(env.lib, env.authenticate(req).user, Left(env, req), env.cfg, kind);
    }
  }

  /** When there is no attribute, because the user is unknown or attributes could not be built, the record of
      an owned request names nothing and any other names the literal top-level resource. */
  lemma RecordWithoutAttributes(env: Env, req: Request)
    requires Guarded(env, req) && AuthorizedAttributes(env, req) == []
    requires env.auditResource == Unconfigured(env.auditResource.type_)
    ensures var records := RequestHandler(env, true)(Fresh(req)).records;
            var literal := StaticMetadata(env.cfg.resourceAttributes);
            && |records| == 1
            && records[0].resource ==
               if EndpointMatched(env.cfg, req.path) || literal.name == "" then None
               else Some(literal.(type_ := env.auditResource.type_))
  {
    HandlerReplies(env, true, req);
    HitOrMissed(env, env.ignorePaths, req.path);
  }
}
