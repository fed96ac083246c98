/**
 The handlers as they run: one request, its response writer, the headers set on it and the audit data
 object in its context, updated in place from the outermost filter to the proxy. Each handler is proved
 against the flat statement of the gate.
 */
module RequestServing {
  import opened Wrappers
  import opened EndpointMatch
  import opened EndpointConfig
  import opened RequestAttributes
  import opened AuditResource
  import opened Paths
  import opened RequestGate

  class Conversation {
    const req: Request
    var user: Option<User>
    var headers: Headers
    var response: Option<Response>
    var calls: seq<Headers>
    var data: Option<Notes>
    var records: seq<Record>

    constructor (req: Request)
      ensures this.req == req && Untouched()
      ensures user == None && data == None && records == []
    {
      this.req := req;
      user, headers, response, calls, data, records := None, req.headers, None, [], None, [];
    }

    /** Nothing written or called yet. */
    predicate Unanswered()
      reads this
    {
      response == None && calls == []
    }

    /** Nor any header field changed. */
    predicate Untouched()
      reads this
    {
      Unanswered() && headers == req.headers
    }

    method Error(code: nat)
      requires response == None
      modifies this`response
      ensures response == Some(Refused(code))
    {
      response := Some(Refused(code));
    }

    /** The reverse proxy is handed the header as it now is. */
    method ServeProxy()
      requires Unanswered()
      modifies this`response, this`calls
      ensures response == Some(FromUpstream) && calls == [headers]
    {
      calls := calls + [headers];
      response := Some(FromUpstream);
    }

    /** Header fields are set in place, the user's before the groups'. */
    method ServeWithAuthHeaders(env: Env)
      requires Unanswered() && user.Some?
      modifies this`response, this`calls, this`headers
      ensures response == Some(FromUpstream)
      ensures calls == [if env.header.enabled then Identified(env, old(headers), user.value) else old(headers)]
    {
      if env.header.enabled {
        headers := headers[env.lib.canonical(env.header.userField) := [user.value.name]];
        headers := headers[env.lib.canonical(env.header.groupsField) := [JoinedGroups(env, user.value)]];
      }
      ServeProxy();
    }

    /** The attributes observer writes into the audit data object if there is one. */
    method Observe(attrs: seq<Attributes>)
      modifies this`data
      ensures data == if old(data).None? then None else Some(RequestGate.Observed(old(data).value, attrs))
    {
      if data.None? {
        return;
      }
      var i := 0;
      while i < |attrs|
        invariant 0 <= i <= |attrs| && data == old(data)
        invariant forall k :: 0 <= k < i ==> attrs[k].NonResource?
        invariant Captured(attrs) == Captured(attrs[i..])
      {
        if attrs[i].Resource? {
          data := Some(data.value.(target := Target(attrs[i].name, attrs[i].namespace_)));
          return;
        }
        i := i + 1;
      }
    }

    method ServeAuthorized(env: Env)
      requires Unanswered() && user.Some? && env.authenticate(req) == Authenticated(user.value, headers)
      requires data.Some? ==> data.value.target == NO_TARGET
      modifies this`response, this`calls, this`headers, this`data
      ensures response == Some(ProtectedResponse(env, req)) && calls == ProtectedCalls(env, req)
      ensures data == if old(data).None? then None
                      else Some(old(data).value.(target := ProtectedNotes(env, req).target))
    {
      var made := GetRequestAttributes(env.lib, user.value, req.(headers := headers), env.cfg);
      if made.Err? {
        if made.error.MethodNotAllowed? {
          Error(403);
        } else if made.error.IndexPanic? {
          response := Some(Panicked);
        } else {
          Error(400);
        }
        return;
      }
      var attrs := made.value;
      if |attrs| == 0 {
        Error(400);
        return;
      }
      Observe(attrs);
      CapturedIsFirst(attrs);
      var k := 0;
      while k < |attrs|
        invariant 0 <= k <= |attrs| && Unanswered() && headers == old(headers)
        invariant FirstRefusal(env, attrs, 0) == FirstRefusal(env, attrs, k)
      {
        var decision := env.authorize(k, attrs[k]);
        if decision.Error? {
          Error(500);
          return;
        }
        if !decision.Allow? {
          Error(403);
          return;
        }
        k := k + 1;
      }
      ServeWithAuthHeaders(env);
    }

    method ServeAuthenticated(env: Env)
      requires Untouched()
      requires data.Some? ==> data.value == NO_NOTES.(endpointMatched := EndpointMatched(env.cfg, req.path))
      modifies this`user, this`response, this`calls, this`headers, this`data
      ensures response == Some(ProtectedResponse(env, req)) && calls == ProtectedCalls(env, req)
      ensures data == if old(data).None? then None else Some(ProtectedNotes(env, req))
    {
      var authentication := env.authenticate(req);
      if !authentication.Authenticated? {
        Error(401);
        return;
      }
      user := Some(authentication.user);
      headers := authentication.headers;
      if data.Some? {
        data := Some(data.value.(user := user));
      }
      ServeAuthorized(env);
    }

    /** Notes that an endpoint owns the request, before attribute construction can fail. */
    method CaptureMatch(cfg: Config)
      requires data.Some?
      modifies this`data
      ensures data == if EndpointMatched(cfg, req.path) then Some(old(data).value.(endpointMatched := true))
                      else old(data)
    {
      var i := 0;
      while i < |cfg.endpoints|
        invariant 0 <= i <= |cfg.endpoints| && data == old(data)
        invariant forall k :: 0 <= k < i ==> !Match(req.path, Split(cfg.endpoints[k].path))
      {
        if Match(req.path, Split(cfg.endpoints[i].path)) {
          data := Some(data.value.(endpointMatched := true));
          return;
        }
        i := i + 1;
      }
    }

    method ServeProtected(env: Env, audited: bool)
      requires Untouched() && data == None
      modifies this
      ensures response == Some(ProtectedResponse(env, req)) && calls == ProtectedCalls(env, req)
      ensures records == if !audited then old(records)
                         else old(records) + [AuditRecord(env, ProtectedResponse(env, req), ProtectedNotes(env, req))]
    {
      if audited {
        data := Some(NO_NOTES);
        CaptureMatch(env.cfg);
      }
      ServeAuthenticated(env);
      if audited {
        records := records + [AuditRecord(env, response.value, data.value)];
      }
    }

    /** The whole handler: what it writes, calls and records is the reply of the composed handler. */
    method Serve(env: Env, audited: bool)
      requires Untouched() && data == None && records == []
      modifies this
      ensures var reply := RequestHandler(env, audited)(Fresh(req));
              response == Some(reply.response) && calls == reply.calls && records == reply.records
    {
      HandlerReplies(env, audited, req);
      ScanDecides(env, env.allowPaths, req.path);
      ScanDecides(env, env.ignorePaths, req.path);
      if |env.allowPaths| > 0 {
        var allowed := ScanPatterns(env, env.allowPaths, req.path);
        if allowed.BadPattern? {
          Error(500);
          return;
        }
        if allowed.NotFound? {
          Error(404);
          return;
        }
      }
      var ignored := ScanPatterns(env, env.ignorePaths, req.path);
      if ignored.BadPattern? {
        Error(500);
        return;
      }
      if ignored.NotFound? {
        ServeProtected(env, audited);
        return;
      }
      ServeProxy();
    }
  }
}
