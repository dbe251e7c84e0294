/** Option and Result, and the status mapping shared by both remote providers. */
module Wrappers {

  datatype Option<+T> = None | Some(value: T)

  /** A success value or the HTTP status code of the error the request ends with. */
  datatype Result<+T> = Success(value: T) | Failure(status: int)

  const InternalError := 500
  const GatewayTimeout := 504
  const Ok := 200

  /**
   * What a remote provider (embeddings or chat completions) gave back:
   * a reply with its status and, when its JSON had the expected shape,
   * the payload; or no reply within the client's timeout.
   */
  datatype ProviderReply<+T> = Replied(code: int, payload: Option<T>) | TimedOut

  /**
   * How a provider call ends. A non-200 reply raises an HTTPException carrying
   * the upstream status, but it is raised inside the `try` whose generic
   * `except Exception` re-raises every non-timeout failure as 500; a missing
   * payload (a KeyError while reading the JSON) ends the same way. Only the
   * client's timeout yields 504.
   */
  function FromProvider<T>(reply: ProviderReply<T>): (r: Result<T>)
    ensures r.Success? <==> reply.Replied? && reply.code == Ok && reply.payload.Some?
    ensures r.Success? ==> r.value == reply.payload.value
    ensures r.Failure? ==> (r.status == GatewayTimeout <==> reply.TimedOut?)
    ensures r.Failure? ==> r.status == InternalError || r.status == GatewayTimeout
  {
    match reply
    case TimedOut => Failure(GatewayTimeout)
    case Replied(code, payload) =>
      if code != Ok then Failure(InternalError)
      else if payload.None? then Failure(InternalError)
      else Success(payload.value)
  }
}
