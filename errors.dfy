/** The gateway's error type and the (status, message) reply each variant
    turns into at the handler boundary. */
module Errors {
  import opened Models

  datatype ProxyError =
    | BackendError(detail: string)
    | BodyError(detail: string)
    | ResponseError(detail: string)
    | RateLimitExceeded(detail: string)

  /** What an error becomes on the wire: a status code and a plain-text body. */
  datatype ErrorReply = ErrorReply(status: U16, message: string)

  const BAD_REQUEST: U16 := 400
  const TOO_MANY_REQUESTS: U16 := 429
  const INTERNAL_SERVER_ERROR: U16 := 500
  const BAD_GATEWAY: U16 := 502

  /** The human-readable name of each variant, which leads its message. */
  function Label(e: ProxyError): string {
    match e
    case BackendError(_) => "Backend error"
    case BodyError(_) => "Body error"
    case ResponseError(_) => "Response error"
    case RateLimitExceeded(_) => "Rate limit exceeded"
  }

  function IntoResponse(e: ProxyError): (r: ErrorReply)
    ensures e.BackendError? <==> r.status == BAD_GATEWAY
    ensures e.BodyError? <==> r.status == BAD_REQUEST
    ensures e.ResponseError? <==> r.status == INTERNAL_SERVER_ERROR
    ensures e.RateLimitExceeded? <==> r.status == TOO_MANY_REQUESTS
    ensures r.message == Label(e) + ": " + e.detail
  {
    match e
    case BackendError(msg) => ErrorReply(BAD_GATEWAY, "Backend error: " + msg)
    case BodyError(msg) => ErrorReply(BAD_REQUEST, "Body error: " + msg)
    case ResponseError(msg) => ErrorReply(INTERNAL_SERVER_ERROR, "Response error: " + msg)
    case RateLimitExceeded(msg) => ErrorReply(TOO_MANY_REQUESTS, "Rate limit exceeded: " + msg)
  }

  /** Reads an error back from its reply: the status names the variant, and
      the detail is what follows the variant's label and ": ". */
  function FromReply(r: ErrorReply): Option<ProxyError> {
    var variant :=
      if r.status == BAD_GATEWAY then Some(BackendError(""))
      else if r.status == BAD_REQUEST then Some(BodyError(""))
      else if r.status == INTERNAL_SERVER_ERROR then Some(ResponseError(""))
      else if r.status == TOO_MANY_REQUESTS then Some(RateLimitExceeded(""))
      else None;
    if variant.None? then None
    else
      var lead := Label(variant.value) + ": ";
      if |lead| <= |r.message| && r.message[..|lead|] == lead then
        var detail := r.message[|lead|..];
        Some(match variant.value
          case BackendError(_) => BackendError(detail)
          case BodyError(_) => BodyError(detail)
          case ResponseError(_) => ResponseError(detail)
          case RateLimitExceeded(_) => RateLimitExceeded(detail))
      else None
  }

  /** The reply carries the whole error: its variant and its detail string. */
  lemma {:induction false} ReplyRoundTrip(e: ProxyError)
    ensures FromReply(IntoResponse(e)) == Some(e)
  {
    var r := IntoResponse(e);
    var lead := Label(e) + ": ";
    assert r.message == lead + e.detail;
    assert r.message[..|lead|] == lead;
    assert r.message[|lead|..] == e.detail;
  }

  /** Distinct variants never share a status code. */
  lemma DistinctStatuses(e1: ProxyError, e2: ProxyError)
    requires IntoResponse(e1).status == IntoResponse(e2).status
    ensures e1.BackendError? == e2.BackendError? && e1.BodyError? == e2.BodyError?
    ensures e1.ResponseError? == e2.ResponseError? && e1.RateLimitExceeded? == e2.RateLimitExceeded?
  {
  }
}
