/** The forwarding pipeline: resolve a route, compose the backend target,
    strip hop-by-hop headers, relay the backend's reply and record one log.
    Network and body I/O, and the clock, are inputs (an Environment). */
module Proxy {
  import opened Models
  import opened Router
  import opened Errors
  import opened Storage
  import opened State

  /** The inbound request URI: its path and its raw query, if it has one. */
  datatype Uri = Uri(path: string, query: Option<string>)

  /** What the gateway sends to the backend. */
  datatype OutboundRequest = OutboundRequest(
    httpMethod: string, url: string, headers: seq<Header>, body: Option<Bytes>)

  /** What the gateway relays back to its caller. */
  datatype Response = Response(status: U16, headers: seq<Header>, body: Bytes)

  /** The two `unwrap`s of the handler, which abort the request's task
      instead of replying. */
  datatype Panic = NoRouteMatched | BackendSendFailed(detail: string)

  datatype HandlerOutcome =
    | Relayed(response: Response)
    | Failed(error: ProxyError)
    | Aborted(panic: Panic)

  /** The backend's side of the exchange: the send failed, or the backend
      replied with a status and headers and then its body read succeeded or failed. */
  datatype BackendReply =
    | Unreachable(detail: string)
    | Replied(status: U16, headers: seq<Header>, body: IoResult<Bytes>)

  /** Everything the handler learns from outside: the buffered request body,
      the backend's reply, a failure of the response builder if one occurs,
      and the clock readings that go into the log. */
  datatype Environment = Environment(
    inboundBody: IoResult<Bytes>,
    backend: BackendReply,
    assembly: Option<string>,
    now: Timestamp,
    elapsed: Duration)

  // ---------------------------------------------------------------------------
  // Target composition.

  /** "?" and the raw query when there is one, and nothing otherwise. */
  function QuerySuffix(query: Option<string>): (s: string)
    ensures query.None? <==> s == ""
    ensures query.Some? ==> |s| == |query.value| + 1 && s[0] == '?' && s[1..] == query.value
  {
    match query
    case Some(q) => "?" + q
    case None => ""
  }

  /** The request target as written on the request line: path, then query. */
  function RequestTarget(uri: Uri): string {
    uri.path + QuerySuffix(uri.query)
  }

  /** `str::strip_prefix`: the rest of `s` after `p`, when `s` starts with `p`. */
  function StripPrefix(s: string, p: string): (r: Option<string>)
    ensures r.Some? <==> StartsWith(s, p)
    ensures r.Some? ==> p + r.value == s
  {
    if StartsWith(s, p) then
      assert s[..|p|] + s[|p|..] == s;
      Some(s[|p|..])
    else None
  }

  /** The matched route and the backend URL the request goes to, or None when
      no route matches. Once a route has matched, stripping its path from the
      request path cannot fail, so the second `unwrap` never fires. */
  function Resolve(routes: seq<Route>, uri: Uri): (r: Option<(Route, string)>)
    ensures r.None? <==> MatchRoute(routes, uri.path).None?
    ensures r.Some? ==> r.value.0 == MatchRoute(routes, uri.path).value
    ensures r.Some? ==>
      && StartsWith(uri.path, r.value.0.path)
      && r.value.1 == r.value.0.backendUrl + uri.path[|r.value.0.path|..] + QuerySuffix(uri.query)
  {
    match MatchRoute(routes, uri.path)
    case None => None
    case Some(route) =>
      match StripPrefix(uri.path, route.path)
      case Some(rest) => Some((route, route.backendUrl + rest + QuerySuffix(uri.query)))
      case None => assert false; None
  }

  /** The backend URL is the route's base URL followed by the request target
      with the route's path cut from its front: the query is kept verbatim. */
  lemma TargetForwardsRequestTarget(routes: seq<Route>, uri: Uri)
    requires Resolve(routes, uri).Some?
    ensures var r := Resolve(routes, uri).value;
      |r.0.path| <= |RequestTarget(uri)|
      && r.1 == r.0.backendUrl + RequestTarget(uri)[|r.0.path|..]
  {
    var r := Resolve(routes, uri).value;
    DropFromFront(r.0.backendUrl, uri.path, QuerySuffix(uri.query), |r.0.path|);
  }

  /** Dropping a front part no longer than `a` from `a + b` leaves `b` whole. */
  lemma DropFromFront(c: string, a: string, b: string, n: nat)
    requires n <= |a|
    ensures c + a[n..] + b == c + (a + b)[n..]
  {
    assert (a + b)[n..] == a[n..] + b;
  }

  /** A request no route claims is the only way target composition fails. */
  lemma ResolveFailsOnlyWithoutRoute(routes: seq<Route>, uri: Uri)
    ensures Resolve(routes, uri).None? <==>
      forall i :: 0 <= i < |routes| ==> !StartsWith(uri.path, routes[i].path)
  {
  }

  // ---------------------------------------------------------------------------
  // Header filtering.

  /** The hop-by-hop headers of section 13.5.1 of RFC 2616, plus `host`. */
  predicate IsHopByHop(name: string) {
    || name == "host"
    || name == "connection"
    || name == "keep-alive"
    || name == "proxy-authenticate"
    || name == "proxy-authorization"
    || name == "te"
    || name == "trailers"
    || name == "transfer-encoding"
    || name == "upgrade"
  }

  /** The headers that go to the backend: the inbound ones, in order, less
      the hop-by-hop ones. */
  function Forwardable(headers: seq<Header>): (r: seq<Header>)
    ensures |r| <= |headers|
  {
    if headers == [] then []
    else
      var init, last := headers[..|headers| - 1], headers[|headers| - 1];
      Forwardable(init) + (if IsHopByHop(last.name) then [] else [last])
  }

  /** A header is forwarded exactly when it was sent and is not hop-by-hop. */
  lemma {:induction false} ForwardableMembers(headers: seq<Header>, h: Header)
    ensures h in Forwardable(headers) <==> h in headers && !IsHopByHop(h.name)
  {
    if headers != [] {
      var init, last := headers[..|headers| - 1], headers[|headers| - 1];
      assert headers == init + [last];
      ForwardableMembers(init, h);
    }
  }

  /** Filtering works header by header, so it keeps the relative order of
      what it keeps. */
  lemma {:induction false} ForwardableConcat(a: seq<Header>, b: seq<Header>)
    ensures Forwardable(a + b) == Forwardable(a) + Forwardable(b)
    decreases |b|
  {
    if b == [] {
      assert a + b == a;
    } else {
      var init := b[..|b| - 1];
      assert (a + b)[..|a + b| - 1] == a + init;
      ForwardableConcat(a, init);
    }
  }

  /** Without hop-by-hop headers, everything is forwarded unchanged. */
  lemma {:induction false} ForwardableKeepsClean(headers: seq<Header>)
    requires forall i :: 0 <= i < |headers| ==> !IsHopByHop(headers[i].name)
    ensures Forwardable(headers) == headers
  {
    if headers != [] {
      var init := headers[..|headers| - 1];
      ForwardableKeepsClean(init);
      assert init + [headers[|headers| - 1]] == headers;
    }
  }

  /** The outbound request builder: method and URL first, then the body when
      the buffered body is non-empty, then every header that is not hop-by-hop. */
  method BuildOutbound(httpMethod: string, target: string, body: Bytes, headers: seq<Header>)
    returns (req: OutboundRequest)
    ensures req.httpMethod == httpMethod && req.url == target
    ensures req.body == if |body| == 0 then None else Some(body)
    ensures req.headers == Forwardable(headers)
  {
    req := OutboundRequest(httpMethod, target, [], None);
    if |body| != 0 {
      req := req.(body := Some(body));
    }
    for i := 0 to |headers|
      invariant req.httpMethod == httpMethod && req.url == target
      invariant req.body == if |body| == 0 then None else Some(body)
      invariant req.headers == Forwardable(headers[..i])
    {
      assert headers[..i + 1][..i] == headers[..i];
      var header := headers[i];
      if IsHopByHop(header.name) {
        continue;
      }
      req := req.(headers := req.headers + [header]);
    }
    assert headers[..|headers|] == headers;
  }

  /** The response builder: the backend's status, then each backend header
      in turn, then the backend's body. */
  method RelayResponse(status: U16, headers: seq<Header>, body: Bytes) returns (resp: Response)
    ensures resp.status == status && resp.headers == headers && resp.body == body
  {
    var copied: seq<Header> := [];
    for i := 0 to |headers|
      invariant copied == headers[..i]
    {
      copied := copied + [headers[i]];
    }
    resp := Response(status, copied, body);
  }

  // ---------------------------------------------------------------------------
  // The whole handler.

  /** The handler's observable result: the outcome, the request sent to the
      backend (if it got that far) and the log recorded (if any). */
  datatype Decision = Decision(
    outcome: HandlerOutcome, sent: Option<OutboundRequest>, log: Option<RequestLog>)

  /** The reference for the handler, step by step in the source's order. */
  function Forward(routes: seq<Route>, clientIp: string, httpMethod: string,
                   headers: seq<Header>, uri: Uri, env: Environment): (d: Decision)
    ensures d.outcome == Aborted(NoRouteMatched) <==> MatchRoute(routes, uri.path).None?
    ensures d.log.Some? <==> d.outcome.Relayed?
    ensures d.outcome.Relayed? ==>
      && env.backend.Replied? && env.backend.body.IoOk?
      && d.outcome.response == Response(env.backend.status, env.backend.headers, env.backend.body.value)
    ensures d.log.Some? ==>
      && d.log.value.httpMethod == httpMethod && d.log.value.path == uri.path
      && d.log.value.status == env.backend.status && d.log.value.clientIp == clientIp
    ensures d.sent.Some? ==>
      && Resolve(routes, uri).Some? && env.inboundBody.IoOk?
      && d.sent.value.httpMethod == httpMethod
      && d.sent.value.url == Resolve(routes, uri).value.1
      && d.sent.value.headers == Forwardable(headers)
      && d.sent.value.body == (if |env.inboundBody.value| == 0 then None else Some(env.inboundBody.value))
  {
    match Resolve(routes, uri)
    case None => Decision(Aborted(NoRouteMatched), None, None)
    case Some((_, target)) =>
      match env.inboundBody
      case IoErr(e) => Decision(Failed(BodyError(e)), None, None)
      case IoOk(body) =>
        var req := OutboundRequest(httpMethod, target, Forwardable(headers),
          if |body| == 0 then None else Some(body));
        match env.backend
        case Unreachable(e) => Decision(Aborted(BackendSendFailed(e)), Some(req), None)
        case Replied(status, replyHeaders, replyBody) =>
          match replyBody
          case IoErr(e) => Decision(Failed(BackendError(e)), Some(req), None)
          case IoOk(bytes) =>
            if env.assembly.Some? then
              Decision(Failed(ResponseError(env.assembly.value)), Some(req), None)
            else
              Decision(Relayed(Response(status, replyHeaders, bytes)), Some(req),
                Some(RequestLog(env.now, httpMethod, uri.path, status, env.elapsed, clientIp)))
  }

  /** Which outcome each step's result leads to: the reply is relayed, and
      logged, exactly when a route matches and every I/O step succeeds; each
      failing step yields its own error or abort, and none of them logs. */
  lemma ForwardOutcomes(routes: seq<Route>, clientIp: string, httpMethod: string,
                        headers: seq<Header>, uri: Uri, env: Environment)
    ensures var d := Forward(routes, clientIp, httpMethod, headers, uri, env);
      && (d.outcome.Relayed? <==>
            Resolve(routes, uri).Some? && env.inboundBody.IoOk? && env.backend.Replied?
            && env.backend.body.IoOk? && env.assembly.None?)
      && (d.sent.Some? <==> Resolve(routes, uri).Some? && env.inboundBody.IoOk?)
      && (Resolve(routes, uri).Some? && env.inboundBody.IoErr? ==>
            d.outcome == Failed(BodyError(env.inboundBody.detail)))
      && (d.sent.Some? && env.backend.Unreachable? ==>
            d.outcome == Aborted(BackendSendFailed(env.backend.detail)))
      && (d.sent.Some? && env.backend.Replied? && env.backend.body.IoErr? ==>
            d.outcome == Failed(BackendError(env.backend.body.detail)))
      && (d.sent.Some? && env.backend.Replied? && env.backend.body.IoOk? && env.assembly.Some? ==>
            d.outcome == Failed(ResponseError(env.assembly.value)))
      && (!d.outcome.Relayed? ==> d.log.None?)
  {
  }

  /** The end-to-end case: one "/api" route, `GET /api/foo?x=1`. */
  lemma ForwardExample(headers: seq<Header>, reply: seq<Header>, body: Bytes,
                       now: Timestamp, elapsed: Duration)
    ensures var d := Forward([Route("/api", "http://backend-a")], "127.0.0.1", "GET", headers,
                             Uri("/api/foo", Some("x=1")),
                             Environment(IoOk([]), Replied(200, reply, IoOk(body)), None, now, elapsed));
      && d.sent.Some? && d.sent.value.url == "http://backend-a/foo?x=1" && d.sent.value.body.None?
      && d.outcome == Relayed(Response(200, reply, body))
      && d.log == Some(RequestLog(now, "GET", "/api/foo", 200, elapsed, "127.0.0.1"))
  {
    assert "/api/foo"[..4] == "/api";
    assert "/api/foo"[4..] == "/foo";
  }

  /** The handler, in the source's order of steps. It changes only the
      metrics store, and only on the relayed path, by one log. */
  method ProxyHandler(state: AppState, clientIp: string, httpMethod: string,
                      headers: seq<Header>, uri: Uri, env: Environment)
    returns (outcome: HandlerOutcome, sent: Option<OutboundRequest>)
    requires state.metricsStore.Valid()
    modifies state.metricsStore
    ensures state.metricsStore.Valid()
    ensures var d := Forward(state.routes, clientIp, httpMethod, headers, uri, env);
      && outcome == d.outcome && sent == d.sent
      && state.metricsStore.History
         == old(state.metricsStore.History) + (if d.log.Some? then [d.log.value] else [])
    ensures outcome.Relayed? ==> state.metricsStore.activeConnections == old(state.metricsStore.activeConnections)
    ensures !outcome.Relayed? ==> unchanged(state.metricsStore)
  {
    var query := QuerySuffix(uri.query);
    var matched := MatchRoute(state.routes, uri.path);
    if matched.None? {
      return Aborted(NoRouteMatched), None;
    }
    var route := matched.value;
    var stripped := StripPrefix(uri.path, route.path);
    var backendPath := stripped.value;
    var target := route.backendUrl + backendPath + query;

    if env.inboundBody.IoErr? {
      return Failed(BodyError(env.inboundBody.detail)), None;
    }
    var req := BuildOutbound(httpMethod, target, env.inboundBody.value, headers);
    sent := Some(req);

    if env.backend.Unreachable? {
      return Aborted(BackendSendFailed(env.backend.detail)), sent;
    }
    var status := env.backend.status;
    if env.backend.body.IoErr? {
      return Failed(BackendError(env.backend.body.detail)), sent;
    }
    var response := RelayResponse(status, env.backend.headers, env.backend.body.value);
    if env.assembly.Some? {
      return Failed(ResponseError(env.assembly.value)), sent;
    }

    var log := RequestLog(env.now, httpMethod, uri.path, status, env.elapsed, clientIp);
    state.metricsStore.AddRequest(log);
    outcome := Relayed(response);
  }
}
