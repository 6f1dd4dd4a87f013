# gateway-api: a verified model of the forwarding pipeline and metrics store

This project models the core of `gateway-api`, an HTTP reverse proxy that
forwards each request to a backend chosen by path prefix and records metrics
for a dashboard. The model covers these parts:

- **Route resolution** (`Router`). The first configured route whose path is a
  plain character prefix of the request path wins.
- **The forwarding decisions of the proxy handler** (`Proxy`):
  - query-suffix formatting and backend-target composition;
  - the hop-by-hop header filter and the outbound request builder;
  - the copy of the backend's status, headers and body into the reply;
  - the request log recorded on success.

  Every I/O step enters as a value of an `Environment`: the buffered body,
  the backend exchange, a response-builder failure and the clock readings.
  The two `unwrap`s that abort the handler become explicit `Aborted`
  outcomes.
- **The metrics store** (`Storage.MetricsStore`). It is a class with the
  store's fields:
  - the log buffer as a `seq`;
  - three 64-bit counters that wrap around as `fetch_add`/`fetch_sub` do;
  - the per-route count map.

  A ghost `History` holds every log ever added. `Valid()` pins every field
  except the connection gauge to a function of that history, so the class's invariants are proved against
  reference definitions:
  - the newest 100 logs;
  - the count modulo 2^64;
  - the number of error statuses;
  - the per-key counts.

  The route-key scan `extract_route_path` is an imperative loop proved
  against a recursive reference.
- **The dashboard endpoints** (`Handlers`): `get_metrics`, `get_logs` with
  its default limit and `take`, and `get_routes`.
- **The error type and its reply mapping** (`Errors`). `FromReply` reads a
  reply back, and a round-trip lemma shows that the reply loses nothing.

Behaviour of the code worth noting:

- Matching has no segment-boundary check, so "/app" claims "/application"
  (`Router.NoSegmentBoundary`).
- A request that matches no route aborts the handler instead of returning a
  404-class reply.
- A failed backend send aborts the handler instead of failing with a
  `BackendError`.
- A log is recorded only when the backend's reply is relayed; every error
  path leaves the store unchanged.

`src/state.rs` declares `AppState` without the `metrics_store` field that
src/proxy.rs:107 and src/handlers.rs:15 use. `State.AppState` carries
that field.

Files:

- `models.dfy`: shared records and machine-integer types.
- `router.dfy`: route resolution.
- `storage.dfy`: the metrics store.
- `state.dfy`: `AppState`.
- `errors.dfy`: the error type and its reply mapping.
- `proxy.dfy`: the proxy handler.
- `handlers.dfy`: the dashboard endpoints.

## Model

| member | source | states |
|---|---|---|
| Router.MatchRoute | src/router.rs:3-7 | None exactly when no route's path prefixes the request path; otherwise an element of the list at an index that matches, with no earlier index matching |
| Router.MatchIsLowestIndex | src/router.rs:4-6 | the route at the lowest matching index is the one returned, whatever matching routes follow it |
| Router.NoSegmentBoundary | src/router.rs:6 | the test is a bare character prefix: route "/app" matches "/application" |
| Router.EmptyRouteMatchesAll | src/router.rs:6 | the empty route path matches every request path |
| Router.FirstMatchWinsExample | src/router.rs:5-6 | with "/api" listed before "/api/users", "/api/users/1" resolves to "/api" |
| Storage.WrapInc | src/storage.rs:40-42 | a u64 `fetch_add(1)`: one more, or 0 after 2^64-1 |
| Storage.WrapDec | src/storage.rs:89-91 | a u64 `fetch_sub(1)`: one less, or 2^64-1 after 0 |
| Storage.WrapIncTracks | src/storage.rs:40 | incrementing a counter kept modulo 2^64 tracks the true count modulo 2^64 |
| Storage.DecUndoesInc | src/storage.rs:85-91 | a connection decrement undoes an increment, also across the wrap point |
| Storage.RoutePrefix | src/storage.rs:94-105 | None exactly when the path has fewer than two '/'; otherwise a proper prefix holding exactly one '/' and followed by the second '/' |
| Storage.RoutePrefixStable | src/storage.rs:96-101 | once a prefix of the path holds a second '/', the rest of the path does not change the result (the early return) |
| Storage.ExtractRoutePath | src/storage.rs:94-105 | the character scan with its slash counter returns exactly the route prefix |
| Storage.RouteKey | src/storage.rs:55-57 | the stats key is a prefix of the path: the whole path when it has fewer than two '/', else the part before the second '/' |
| Storage.RouteKeyExamples | src/storage.rs:94-105 | "/api/foo/bar" is counted under "/api", and "/api" under "/api" |
| Storage.Bump | src/storage.rs:58 | `entry(k).or_insert(0) += 1`: key k gains one, it is present afterwards, and every other key keeps its count |
| Storage.RouteCountsMatchHistory | src/storage.rs:53-59 | the count under each key is the number of logs whose path falls under it, and only keys that occurred are present |
| Storage.ErrorCount | src/storage.rs:41-43 | the number of error statuses never exceeds the number of logs |
| Storage.Push | src/storage.rs:47-50 | the reference buffer step: the front entry is dropped when the buffer holds 100 or more, then the log is appended (its properties are stated in PushEvictsOldest) |
| Storage.PushEvictsOldest | src/storage.rs:46-50 | an insert keeps at most 100 entries, appends the log at the back, and removes the front entry exactly when the buffer held 100 |
| Storage.Retained | src/storage.rs:46-50 | the reference buffer holds min(n, 100) of the n logs |
| Storage.RetainedStep | src/storage.rs:46-50 | one insert moves the newest-100 view of the history along by one log |
| Storage.PushAllRetains | src/storage.rs:46-50 | from empty, any run of inserts leaves exactly the newest 100 logs in arrival order |
| Storage.AfterOneHundredFifty | src/storage.rs:46-50 | after 150 inserts the buffer holds inserts 51..150 in arrival order |
| Storage.NewestFirst | src/storage.rs:67 | `rev().take(n)`: min(n, len) entries, entry i being the i-th newest |
| Storage.NewestOfRetained | src/storage.rs:65-68 | a 50-entry snapshot of the 100-entry buffer equals one over the whole history |
| Storage.ErrorCountStep | src/storage.rs:41-43 | one log adds one to the error count exactly when its status is 400 or more |
| Storage.RequestCounterStep | src/storage.rs:40 | one call advances the request counter to the new history length modulo 2^64 |
| Storage.ErrorCounterStep | src/storage.rs:41-43 | the error counter advances exactly when the status is 400 or more and stays the error count modulo 2^64 |
| Storage.RouteCountsStep | src/storage.rs:54-58 | one log bumps exactly its own route key |
| Storage.AddStep | src/storage.rs:39-59 | one `add_request` keeps all four fields consistent with the history extended by the log |
| Storage.AppendLog | src/storage.rs:45-51 | the pop-front-when-full, then push-back sequence is the buffer insert |
| Storage.CountRoute | src/storage.rs:53-59 | the in-place entry update bumps the log's route key |
| Storage.MetricsStore.constructor | src/storage.rs:26-37 | all counters 0, empty buffer, empty route stats, empty history |
| Storage.MetricsStore.AddRequest | src/storage.rs:39-62 | the request counter goes up by one; the error counter goes up by one iff the status is 400 or more; the buffer takes the FIFO insert; one route key gains one; connections are unchanged; the store stays consistent with the history grown by the log |
| Storage.MetricsStore.GetMetrics | src/storage.rs:64-79 | the counters and route stats unchanged, and the last min(50, len) buffer entries newest first; the store is only read |
| Storage.MetricsStore.IncrementConnections | src/storage.rs:85-87 | the connection gauge goes up by one, wrapping at 2^64, and nothing else changes |
| Storage.MetricsStore.DecrementConnections | src/storage.rs:89-91 | the connection gauge goes down by one, wrapping at 0, and nothing else changes |
| Storage.MetricsStore.BufferBounded | src/storage.rs:46-50 | the buffer never holds more than 100 entries, and it is full once 100 logs have arrived |
| Storage.MetricsStore.ErrorsWithinRequests | src/storage.rs:40-43 | until 2^64 requests, the request counter is the number of requests and the error counter never exceeds it |
| Storage.MetricsStore.SnapshotIsNewestOfHistory | src/storage.rs:65-68 | the snapshot's recent logs are the newest 50 logs ever added, newest first |
| Storage.MetricsStore.RouteStatsCountHistory | src/storage.rs:53-59 | the reported count for a key is the number of logs ever added under that key |
| Errors.Label | src/error.rs:15-38 | the label leading each variant's message: "Backend error", "Body error", "Response error", "Rate limit exceeded" |
| Errors.IntoResponse | src/error.rs:15-38 | BackendError iff 502, BodyError iff 400, ResponseError iff 500, RateLimitExceeded iff 429; the message is the variant label, ": " and the detail |
| Errors.ReplyRoundTrip | src/error.rs:15-38 | the status and message determine the error: variant and detail read back exactly |
| Errors.DistinctStatuses | src/error.rs:15-38 | distinct variants never share a status |
| Handlers.GetMetrics | src/handlers.rs:14-16 | the store's snapshot, passed through unaltered |
| Handlers.GetLogs | src/handlers.rs:19-26 | the first min(limit, len) snapshot entries, limit defaulting to 50; never more than 50; limit 0 gives none; newest first |
| Handlers.GetLogsAreNewest | src/handlers.rs:23-25 | the result is the newest min(limit, 50) logs ever added, newest first |
| Handlers.GetRoutes | src/handlers.rs:30-33 | the configured route list, unchanged and in order |
| Proxy.QuerySuffix | src/proxy.rs:28 | empty exactly when there is no query; otherwise "?" followed by the raw query |
| Proxy.StripPrefix | src/proxy.rs:35 | succeeds exactly when the path starts with the prefix, and the prefix plus the rest is the path |
| Proxy.Resolve | src/proxy.rs:32-37 | fails exactly when no route matches; otherwise the matched route and backend URL ++ path minus route prefix ++ query suffix (stripping cannot fail) |
| Proxy.TargetForwardsRequestTarget | src/proxy.rs:34-37 | the target is the base URL followed by the request target with the route path cut from its front |
| Proxy.ResolveFailsOnlyWithoutRoute | src/proxy.rs:32-35 | target composition fails exactly when no route's path prefixes the request path |
| Proxy.Forwardable | src/proxy.rs:50-66 | the filter never adds headers |
| Proxy.IsHopByHop | src/proxy.rs:52-60 | the nine stripped names: host, connection, keep-alive, proxy-authenticate, proxy-authorization, te, trailers, transfer-encoding, upgrade |
| Proxy.ForwardableMembers | src/proxy.rs:50-66 | a header is forwarded exactly when it was received and its name is not hop-by-hop |
| Proxy.ForwardableConcat | src/proxy.rs:50-66 | the filter works header by header, so forwarded headers keep their order |
| Proxy.ForwardableKeepsClean | src/proxy.rs:50-66 | headers with no hop-by-hop name are all forwarded, unchanged and in order |
| Proxy.BuildOutbound | src/proxy.rs:44-66 | the builder loop sends the method and target, a body only when the buffered body is non-empty, and exactly the forwardable headers in order |
| Proxy.RelayResponse | src/proxy.rs:84-92 | the reply carries the backend's status, every backend header in order, and the body bytes unchanged |
| Proxy.Forward | src/proxy.rs:18-110 | aborts with NoRouteMatched exactly when no route matches (a failed send aborts with BackendSendFailed, stated in ForwardOutcomes); logs exactly when relayed; a relayed reply is the backend's; the log carries method, path without query, backend status and client IP; the request sent has the inbound method, the resolved target, filtered headers and the body rule |
| Proxy.ForwardOutcomes | src/proxy.rs:32-109 | relayed and logged exactly when a route matches and body read, send, body fetch and response build all succeed; a request is sent exactly when a route matches and the body was read; a body read failure gives BodyError, a failed send aborts, a backend body failure gives BackendError, a builder failure gives ResponseError; no failure logs |
| Proxy.ForwardExample | src/proxy.rs:28-37 | route ("/api", "http://backend-a") and GET /api/foo?x=1 send to "http://backend-a/foo?x=1" and log path "/api/foo" |
| Proxy.ProxyHandler | src/proxy.rs:18-110 | the handler's steps produce the reference outcome and request sent; the store gains exactly one log when the reply is relayed and is untouched otherwise |

## Left out

- Concurrency: the `RwLock`s, lock-poisoning `unwrap`s and `Ordering::Relaxed` atomics of the store (src/storage.rs:15-22) are out of scope. The store is single-threaded, so interleavings of concurrent `add_request` calls are not modelled.
- The broadcast `send` of each new log (src/storage.rs:61) and `get_broadcaster` are out of scope: channel fan-out.
- `MetricsCollector` (src/metrics.rs), `websocket_handler` (src/handlers.rs:35-69) and the `health_check` responder are timer, socket and fixed-JSON code.
- Rate limiting (src/main.rs:37-51) is left out because it lives in an external crate. No code under `src/` constructs `RateLimitExceeded`; only its reply mapping is modelled.
- Startup is left out: reading the config file, building the HTTP client and binding the listener.
- Client IP extraction is taken as given: the IP is a parameter.
- Network and body I/O are inputs of an `Environment`. This covers the buffered request body, the backend send, the backend body read and a failure of the response builder.
- Clock values are opaque types: the timestamp and the latency are parameters, and the model only stores and compares them.
- Header maps are taken as a sequence of (name, value) pairs in iteration order. How `HeaderMap` groups repeated names is not modelled.
- The `info!`/`error!` tracing calls are side effects that change no state, so they are not modelled.
- Storage.Bump: route-stat counts are unbounded naturals. The source's u64 `+= 1` would overflow only after 2^64 requests to one key.
- Storage.MetricsStore.ErrorsWithinRequests: proved only while fewer than 2^64 requests have been added. Past that point both atomic counters wrap, and the error counter can exceed the request counter.
