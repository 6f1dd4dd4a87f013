/** The metrics store: request and error counters, a bounded log buffer that
    evicts oldest-first, and per-route request counts. The store is modelled
    single-threaded; its ghost History is every log ever added, in order, and
    every real field except the connection gauge is pinned to a function of
    that history. */
module Storage {
  import opened Models

  /** The log buffer holds at most this many entries. */
  const LOG_CAPACITY: nat := 100
  /** A snapshot reports at most this many recent entries. */
  const RECENT_LIMIT: nat := 50

  function Min(a: int, b: int): int {
    if a <= b then a else b
  }

  // ---------------------------------------------------------------------------
  // 64-bit atomic counters: fetch_add and fetch_sub wrap around.

  function WrapInc(x: U64): (r: U64)
    ensures x < U64_LIMIT - 1 ==> r == x + 1
    ensures x == U64_LIMIT - 1 ==> r == 0
  {
    (x + 1) % U64_LIMIT
  }

  function WrapDec(x: U64): (r: U64)
    ensures x > 0 ==> r == x - 1
    ensures x == 0 ==> r == U64_LIMIT - 1
  {
    (x - 1) % U64_LIMIT
  }

  /** Incrementing a counter that is kept modulo 2^64 tracks the true count modulo 2^64. */
  lemma WrapIncTracks(n: nat)
    ensures WrapInc(n % U64_LIMIT) == (n + 1) % U64_LIMIT
  {
    if n % U64_LIMIT == U64_LIMIT - 1 {
      assert (n + 1) % U64_LIMIT == 0;
    } else {
      assert (n + 1) % U64_LIMIT == n % U64_LIMIT + 1;
    }
  }

  /** A decrement undoes an increment, also across the wrap-around point. */
  lemma DecUndoesInc(x: U64)
    ensures WrapDec(WrapInc(x)) == x
  {
  }

  // ---------------------------------------------------------------------------
  // Route-stat keys: the path up to, but excluding, its second '/'.

  /** The number of '/' characters in `s`. */
  function Slashes(s: string): nat {
    if s == [] then 0 else Slashes(s[..|s| - 1]) + (if s[|s| - 1] == '/' then 1 else 0)
  }

  /** The part of `path` before its second '/', if it has two. */
  function RoutePrefix(path: string): (r: Option<string>)
    ensures r.None? <==> Slashes(path) < 2
    ensures r.Some? ==>
      && |r.value| < |path| && path[..|r.value|] == r.value
      && path[|r.value|] == '/' && Slashes(r.value) == 1
  {
    if path == [] then None
    else
      var init := path[..|path| - 1];
      var earlier := RoutePrefix(init);
      if earlier.Some? then
        assert init[..|earlier.value|] == path[..|earlier.value|];
        earlier
      else if path[|path| - 1] == '/' && Slashes(init) == 1 then Some(init)
      else None
  }

  /** Once a prefix of the path has a second '/', extending the path does not change the key. */
  lemma {:induction false} RoutePrefixStable(path: string, k: nat)
    requires k <= |path| && RoutePrefix(path[..k]).Some?
    ensures RoutePrefix(path) == RoutePrefix(path[..k])
    decreases |path|
  {
    if k < |path| {
      var init := path[..|path| - 1];
      assert init[..k] == path[..k];
      RoutePrefixStable(init, k);
    } else {
      assert path[..k] == path;
    }
  }

  /** The scan over the path's characters, counting slashes until the second. */
  method ExtractRoutePath(path: string) returns (r: Option<string>)
    ensures r == RoutePrefix(path)
  {
    var slashes := 0;
    var i := 0;
    while i < |path|
      invariant 0 <= i <= |path|
      invariant slashes == Slashes(path[..i]) && slashes < 2
      invariant RoutePrefix(path[..i]).None?
    {
      assert path[..i + 1][..i] == path[..i];
      if path[i] == '/' {
        slashes := slashes + 1;
        if slashes == 2 {
          RoutePrefixStable(path, i + 1);
          return Some(path[..i]);
        }
      }
      i := i + 1;
    }
    assert path[..i] == path;
    return None;
  }

  /** The key a path is counted under: its route prefix, or the whole path. */
  function RouteKey(path: string): (r: string)
    ensures |r| <= |path| && path[..|r|] == r
    ensures Slashes(path) < 2 ==> r == path
    ensures Slashes(path) >= 2 ==> |r| < |path| && Slashes(r) == 1 && path[|r|] == '/'
  {
    RoutePrefix(path).GetOr(path)
  }

  lemma RouteKeyExamples()
    ensures RouteKey("/api/foo/bar") == "/api"
    ensures RouteKey("/api") == "/api"
  {
    assert "/api/foo/bar"[..4] == "/api";
    assert "/api/foo/bar"[..4][..3] == "/ap";
    assert "/api/foo/bar"[..4][..3][..2] == "/a";
    assert "/api/foo/bar"[..4][..3][..2][..1] == "/";
    assert "/api/foo/bar"[..4][..3][..2][..1][..0] == "";
    assert Slashes("/api") == 1;
    assert "/api/foo/bar"[..5][..4] == "/api";
    assert RoutePrefix("/api/foo/bar"[..5]) == Some("/api");
    RoutePrefixStable("/api/foo/bar", 5);
  }

  // ---------------------------------------------------------------------------
  // Per-route counts.

  /** A missing key reads as a count of 0, as `entry(..).or_insert(0)` does. */
  function Count(m: map<string, nat>, k: string): nat {
    if k in m then m[k] else 0
  }

  /** One increment of one key's count. */
  function Bump(m: map<string, nat>, k: string): (r: map<string, nat>)
    ensures r.Keys == m.Keys + {k}
    ensures Count(r, k) == Count(m, k) + 1
    ensures forall k' :: k' != k ==> Count(r, k') == Count(m, k')
  {
    m[k := Count(m, k) + 1]
  }

  /** How many logs of `h` fall under route key `k`. */
  function KeyCount(h: seq<RequestLog>, k: string): nat {
    if h == [] then 0
    else KeyCount(h[..|h| - 1], k) + (if RouteKey(h[|h| - 1].path) == k then 1 else 0)
  }

  /** The route-stats map after recording the logs of `h` in order, from empty. */
  function RouteCounts(h: seq<RequestLog>): map<string, nat> {
    if h == [] then map[] else Bump(RouteCounts(h[..|h| - 1]), RouteKey(h[|h| - 1].path))
  }

  /** The count recorded under each key is the number of logs whose path
      falls under it, and only keys that occurred are present. */
  lemma {:induction false} RouteCountsMatchHistory(h: seq<RequestLog>, k: string)
    ensures Count(RouteCounts(h), k) == KeyCount(h, k)
    ensures k in RouteCounts(h) <==> KeyCount(h, k) > 0
  {
    if h != [] {
      RouteCountsMatchHistory(h[..|h| - 1], k);
    }
  }

  /** How many logs of `h` carry an error status (400 or more). */
  function ErrorCount(h: seq<RequestLog>): (n: nat)
    ensures n <= |h|
  {
    if h == [] then 0
    else ErrorCount(h[..|h| - 1]) + (if h[|h| - 1].status >= 400 then 1 else 0)
  }

  // ---------------------------------------------------------------------------
  // The bounded log buffer.

  /** The buffer step of one insert: when full, the front entry goes first. */
  function Push(buf: seq<RequestLog>, log: RequestLog): seq<RequestLog> {
    (if |buf| >= LOG_CAPACITY then buf[1..] else buf) + [log]
  }

  /** An insert keeps the buffer within LOG_CAPACITY, puts the new log at the
      back, and drops the front entry exactly when the buffer was full. */
  lemma PushEvictsOldest(buf: seq<RequestLog>, log: RequestLog)
    requires |buf| <= LOG_CAPACITY
    ensures var r := Push(buf, log);
      && |r| <= LOG_CAPACITY && r[|r| - 1] == log
      && (|buf| < LOG_CAPACITY ==> r[..|r| - 1] == buf)
      && (|buf| == LOG_CAPACITY ==> r[..|r| - 1] == buf[1..])
  {
    var kept := if |buf| >= LOG_CAPACITY then buf[1..] else buf;
    assert (kept + [log])[..|kept|] == kept;
  }

  /** The reference view of the buffer: the newest LOG_CAPACITY logs, oldest first. */
  function Retained(h: seq<RequestLog>): (b: seq<RequestLog>)
    ensures |b| == Min(|h|, LOG_CAPACITY)
  {
    h[|h| - Min(|h|, LOG_CAPACITY)..]
  }

  /** One insert moves the retained view along by one log. */
  lemma RetainedStep(h: seq<RequestLog>, log: RequestLog)
    ensures Retained(h + [log]) == Push(Retained(h), log)
  {
    var a, b := Retained(h + [log]), Push(Retained(h), log);
    assert |a| == |b|;
    forall i | 0 <= i < |a| ensures a[i] == b[i] {
      if i < |a| - 1 {
        assert b[i] == b[..|b| - 1][i];
      }
    }
  }

  /** The buffer after inserting `logs` one by one into `buf`. */
  function PushAll(buf: seq<RequestLog>, logs: seq<RequestLog>): seq<RequestLog> {
    if logs == [] then buf else Push(PushAll(buf, logs[..|logs| - 1]), logs[|logs| - 1])
  }

  /** From an empty buffer, any run of inserts leaves exactly the newest
      LOG_CAPACITY logs in arrival order. */
  lemma {:induction false} PushAllRetains(logs: seq<RequestLog>)
    ensures PushAll([], logs) == Retained(logs)
  {
    if logs != [] {
      var init := logs[..|logs| - 1];
      PushAllRetains(init);
      assert init + [logs[|logs| - 1]] == logs;
      RetainedStep(init, logs[|logs| - 1]);
    }
  }

  /** After 150 inserts the buffer holds inserts 51..150, in arrival order. */
  lemma AfterOneHundredFifty(logs: seq<RequestLog>)
    requires |logs| == 150
    ensures PushAll([], logs) == logs[50..]
  {
    PushAllRetains(logs);
  }

  /** `rev().take(n)`: the last min(n, |buf|) entries of `buf`, newest first. */
  function NewestFirst(buf: seq<RequestLog>, n: nat): (r: seq<RequestLog>)
    ensures |r| == Min(n, |buf|)
    ensures forall i :: 0 <= i < |r| ==> r[i] == buf[|buf| - 1 - i]
  {
    if n == 0 || buf == [] then [] else [buf[|buf| - 1]] + NewestFirst(buf[..|buf| - 1], n - 1)
  }

  /** Because the buffer keeps more than a snapshot shows, a snapshot of the
      buffer is the same as one taken over the whole history. */
  lemma NewestOfRetained(h: seq<RequestLog>)
    ensures NewestFirst(Retained(h), RECENT_LIMIT) == NewestFirst(h, RECENT_LIMIT)
  {
    var a, b := NewestFirst(Retained(h), RECENT_LIMIT), NewestFirst(h, RECENT_LIMIT);
    assert |a| == |b|;
    forall i | 0 <= i < |a| ensures a[i] == b[i] {
    }
  }

  /** Appending one log adds one to the error count exactly when its status
      is an error status. */
  lemma ErrorCountStep(h: seq<RequestLog>, log: RequestLog)
    ensures ErrorCount(h + [log]) == ErrorCount(h) + (if log.status >= 400 then 1 else 0)
  {
    var h' := h + [log];
    assert h'[..|h'| - 1] == h;
  }

  lemma RequestCounterStep(h: seq<RequestLog>, log: RequestLog, requests: U64)
    requires requests == |h| % U64_LIMIT
    ensures WrapInc(requests) == |h + [log]| % U64_LIMIT
  {
    WrapIncTracks(|h|);
  }

  lemma ErrorCounterStep(h: seq<RequestLog>, log: RequestLog, errors: U64)
    requires errors == ErrorCount(h) % U64_LIMIT
    ensures (if log.status >= 400 then WrapInc(errors) else errors) == ErrorCount(h + [log]) % U64_LIMIT
  {
    ErrorCountStep(h, log);
    if log.status >= 400 {
      WrapIncTracks(ErrorCount(h));
    }
  }

  /** Appending one log bumps exactly its own route key. */
  lemma RouteCountsStep(h: seq<RequestLog>, log: RequestLog)
    ensures RouteCounts(h + [log]) == Bump(RouteCounts(h), RouteKey(log.path))
  {
    var h' := h + [log];
    assert h'[..|h'| - 1] == h;
  }

  /** The store's fields agree with history `h`: the buffer is the retained
      view of it and the counters and route stats are counted over it. */
  ghost predicate Consistent(h: seq<RequestLog>, logs: seq<RequestLog>,
                             requests: U64, errors: U64, stats: map<string, nat>)
  {
    && logs == Retained(h)
    && requests == |h| % U64_LIMIT
    && errors == ErrorCount(h) % U64_LIMIT
    && stats == RouteCounts(h)
  }

  /** One `add_request` of `log` keeps the fields in agreement with the history. */
  lemma AddStep(h: seq<RequestLog>, log: RequestLog, logs: seq<RequestLog>,
                requests: U64, errors: U64, stats: map<string, nat>)
    requires Consistent(h, logs, requests, errors, stats)
    ensures Consistent(h + [log], Push(logs, log), WrapInc(requests),
      if log.status >= 400 then WrapInc(errors) else errors, Bump(stats, RouteKey(log.path)))
  {
    RetainedStep(h, log);
    RequestCounterStep(h, log, requests);
    ErrorCounterStep(h, log, errors);
    RouteCountsStep(h, log);
  }

  /** The buffer under its lock: when it is full the front entry is popped,
      then the log is pushed at the back. */
  method AppendLog(buf: seq<RequestLog>, log: RequestLog) returns (r: seq<RequestLog>)
    ensures r == Push(buf, log)
  {
    r := buf;
    if |r| >= LOG_CAPACITY {
      r := r[1..];
    }
    r := r + [log];
  }

  /** The route stats under their lock: the entry for the path's route key,
      inserted at 0 if absent, goes up by one. */
  method CountRoute(stats: map<string, nat>, path: string) returns (r: map<string, nat>)
    ensures r == Bump(stats, RouteKey(path))
  {
    var prefix := ExtractRoutePath(path);
    var routePath := prefix.GetOr(path);
    r := stats[routePath := Count(stats, routePath) + 1];
  }

  // ---------------------------------------------------------------------------

  class MetricsStore {
    var requestLogs: seq<RequestLog>
    var totalRequests: U64
    var totalErrors: U64
    var activeConnections: U64
    var routeStats: map<string, nat>

    /** Every log ever added, oldest first. */
    ghost var History: seq<RequestLog>

    ghost predicate Valid()
      reads this
    {
      Consistent(History, requestLogs, totalRequests, totalErrors, routeStats)
    }

    constructor ()
      ensures Valid() && History == []
      ensures requestLogs == [] && routeStats == map[]
      ensures totalRequests == 0 && totalErrors == 0 && activeConnections == 0
    {
      requestLogs := [];
      totalRequests, totalErrors, activeConnections := 0, 0, 0;
      routeStats := map[];
      History := [];
    }

    /** `add_request`: the counters, then the log buffer under its lock,
        then the route stats under theirs. */
    method AddRequest(log: RequestLog)
      requires Valid()
      modifies this
      ensures Valid() && History == old(History) + [log]
      ensures totalRequests == WrapInc(old(totalRequests))
      ensures totalErrors == if log.status >= 400 then WrapInc(old(totalErrors)) else old(totalErrors)
      ensures requestLogs == Push(old(requestLogs), log)
      ensures routeStats == Bump(old(routeStats), RouteKey(log.path))
      ensures activeConnections == old(activeConnections)
    {
      var requests := WrapInc(totalRequests);
      var errors := totalErrors;
      if log.status >= 400 {
        errors := WrapInc(errors);
      }
      var logs := AppendLog(requestLogs, log);
      var stats := CountRoute(routeStats, log.path);
      AddStep(History, log, requestLogs, totalRequests, totalErrors, routeStats);
      assert Consistent(History + [log], logs, requests, errors, stats);
      totalRequests, totalErrors, requestLogs, routeStats, History :=
        requests, errors, logs, stats, History + [log];
    }

    /** A read-only projection: counters and route stats as they are, and the
        newest RECENT_LIMIT buffer entries, newest first. */
    function GetMetrics(): (m: SummaryMetrics)
      reads this
      ensures m.totalRequests == totalRequests && m.totalErrors == totalErrors
      ensures m.activeConnections == activeConnections && m.routeStats == routeStats
      ensures |m.recentLogs| == Min(RECENT_LIMIT, |requestLogs|)
      ensures forall i :: 0 <= i < |m.recentLogs| ==>
        m.recentLogs[i] == requestLogs[|requestLogs| - 1 - i]
    {
      SummaryMetrics(totalRequests, totalErrors, activeConnections,
        NewestFirst(requestLogs, RECENT_LIMIT), routeStats)
    }

    method IncrementConnections()
      modifies this`activeConnections
      ensures activeConnections == WrapInc(old(activeConnections))
    {
      activeConnections := WrapInc(activeConnections);
    }

    method DecrementConnections()
      modifies this`activeConnections
      ensures activeConnections == WrapDec(old(activeConnections))
    {
      activeConnections := WrapDec(activeConnections);
    }

    /** The buffer never holds more than LOG_CAPACITY entries. */
    lemma BufferBounded()
      requires Valid()
      ensures |requestLogs| <= LOG_CAPACITY
      ensures |History| >= LOG_CAPACITY ==> |requestLogs| == LOG_CAPACITY
    {
    }

    /** Until the request counter wraps, it is never below the error counter. */
    lemma ErrorsWithinRequests()
      requires Valid() && |History| < U64_LIMIT
      ensures totalErrors <= totalRequests
      ensures totalRequests == |History|
    {
    }

    /** The snapshot's recent logs are the newest RECENT_LIMIT of all logs ever added. */
    lemma SnapshotIsNewestOfHistory()
      requires Valid()
      ensures GetMetrics().recentLogs == NewestFirst(History, RECENT_LIMIT)
    {
      NewestOfRetained(History);
    }

    /** The count reported for a route key is the number of logs ever added
        whose path falls under that key. */
    lemma RouteStatsCountHistory(k: string)
      requires Valid()
      ensures Count(GetMetrics().routeStats, k) == KeyCount(History, k)
    {
      RouteCountsMatchHistory(History, k);
    }
  }
}
