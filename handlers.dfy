/** The dashboard's read-only JSON endpoints: metrics, recent logs and routes. */
module Handlers {
  import opened Models
  import opened Storage
  import opened State

  /** The number of logs `/api/logs` returns when no `limit` is given. */
  const DEFAULT_LOG_LIMIT: nat := 50

  /** `GET /api/metrics`: the store's snapshot, passed through. */
  function GetMetrics(state: AppState): (m: SummaryMetrics)
    reads state.metricsStore
    ensures m.totalRequests == state.metricsStore.totalRequests
    ensures m.totalErrors == state.metricsStore.totalErrors
    ensures m.activeConnections == state.metricsStore.activeConnections
    ensures m.routeStats == state.metricsStore.routeStats
    ensures var buf := state.metricsStore.requestLogs;
      && |m.recentLogs| == Min(RECENT_LIMIT, |buf|)
      && forall i :: 0 <= i < |m.recentLogs| ==> m.recentLogs[i] == buf[|buf| - 1 - i]
  {
    state.metricsStore.GetMetrics()
  }

  /** `GET /api/logs?limit=N`: the first N entries of the snapshot's recent
      logs, N defaulting to DEFAULT_LOG_LIMIT. */
  function GetLogs(state: AppState, limit: Option<nat>): (r: seq<RequestLog>)
    reads state.metricsStore
    ensures var recent := state.metricsStore.GetMetrics().recentLogs;
      |r| == Min(limit.GetOr(DEFAULT_LOG_LIMIT), |recent|) && r == recent[..|r|]
    ensures |r| <= RECENT_LIMIT
    ensures limit == Some(0) ==> r == []
    ensures var buf := state.metricsStore.requestLogs;
      forall i :: 0 <= i < |r| ==> r[i] == buf[|buf| - 1 - i]
  {
    var recent := state.metricsStore.GetMetrics().recentLogs;
    recent[..Min(limit.GetOr(DEFAULT_LOG_LIMIT), |recent|)]
  }

  /** `/api/logs` reports the newest min(N, RECENT_LIMIT) logs ever recorded,
      newest first, whatever the buffer has since evicted. */
  lemma GetLogsAreNewest(state: AppState, limit: Option<nat>)
    requires state.metricsStore.Valid()
    ensures GetLogs(state, limit)
      == NewestFirst(state.metricsStore.History, Min(limit.GetOr(DEFAULT_LOG_LIMIT), RECENT_LIMIT))
  {
    var h := state.metricsStore.History;
    var r := GetLogs(state, limit);
    var n := Min(limit.GetOr(DEFAULT_LOG_LIMIT), RECENT_LIMIT);
    var s := NewestFirst(h, n);
    assert |state.metricsStore.requestLogs| == Min(|h|, LOG_CAPACITY);
    assert |r| == |s|;
    forall i | 0 <= i < |r| ensures r[i] == s[i] {
      var buf := state.metricsStore.requestLogs;
      assert buf == h[|h| - |buf|..];
      assert buf[|buf| - 1 - i] == h[|h| - 1 - i];
    }
  }

  /** `GET /api/routes`: the configured table, in order. */
  function GetRoutes(state: AppState): (r: seq<Route>)
    ensures |r| == |state.routes|
    ensures forall i :: 0 <= i < |r| ==> r[i] == state.routes[i]
  {
    state.routes
  }
}
