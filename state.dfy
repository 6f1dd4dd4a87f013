/** The state shared by every handler. */
module State {
  import opened Models
  import Storage

  /** The route table, fixed at startup, and the one metrics store. The
      outbound HTTP client is not part of the model: its calls are inputs. */
  datatype AppState = AppState(routes: seq<Route>, metricsStore: Storage.MetricsStore)
}
