/** Shared data model of the gateway: the records that travel between the
    proxy pipeline, the metrics store and the dashboard API. */
module Models {

  datatype Option<+T> = None | Some(value: T) {
    function GetOr(default: T): T {
      match this
      case Some(v) => v
      case None => default
    }
  }

  /** The result of an I/O step the model does not perform: the value read,
      or the error text it failed with. */
  datatype IoResult<+T> = IoOk(value: T) | IoErr(detail: string)

  /** Unsigned machine integers of the widths the gateway uses. */
  type U16 = x: int | 0 <= x < 0x1_0000
  const U64_LIMIT: int := 0x1_0000_0000_0000_0000
  type U64 = x: int | 0 <= x < U64_LIMIT
  type Byte = x: int | 0 <= x < 0x100
  type Bytes = seq<Byte>

  /** Clock readings are opaque: the model only stores and compares them. */
  type Timestamp(==)
  type Duration(==)

  /** One forwarded request, as recorded after the backend replied. */
  datatype RequestLog = RequestLog(
    timestamp: Timestamp,
    httpMethod: string,
    path: string,
    status: U16,
    responseTime: Duration,
    clientIp: string)

  /** A derived, read-only view of the metrics store. */
  datatype SummaryMetrics = SummaryMetrics(
    totalRequests: U64,
    totalErrors: U64,
    activeConnections: U64,
    recentLogs: seq<RequestLog>,
    routeStats: map<string, nat>)

  /** A configured mapping from a path prefix to a backend base URL. */
  datatype Route = Route(path: string, backendUrl: string)

  /** An HTTP header as a (name, value) pair; header maps hand out names in lower case. */
  datatype Header = Header(name: string, value: string)
}
