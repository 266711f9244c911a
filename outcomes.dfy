/** Values shared by both adapters: an optional value, the ways one tool
    invocation can fail, and the abstract outcome of the HTTP round trip. */
module Outcomes {

  datatype Option<+T> = None | Some(value: T)

  /** Why an invocation failed; every failure reaches the caller as one error. */
  datatype Failure =
    | TransportError(reason: string)   // http.Get or reading the body failed
    | DecodeError(reason: string)      // json.Unmarshal rejected the body
    | BackendError(message: string)    // the backend itself reported a failure

  /** The value a step produces, or the failure that ends the invocation. */
  datatype Result<+T> = Ok(value: T) | Err(failure: Failure)

  /** What the network and the JSON decoder made of one outbound request:
      no body at all, a body that is not the expected JSON, or the decoded
      response envelope. */
  datatype Reply<+T> =
    | TransportFailed(reason: string)
    | Malformed(reason: string)
    | Decoded(body: T)

  /** The three early returns after `http.Get`, `ReadAll` and `json.Unmarshal`
      in both `Search` functions: a missing or undecodable body is a failure
      that is never confused with a backend-reported one. */
  function Receive<T>(reply: Reply<T>): (r: Result<T>)
    ensures r.Ok? <==> reply.Decoded?
    ensures reply.Decoded? ==> r.value == reply.body
    ensures reply.TransportFailed? ==> r == Err(TransportError(reply.reason))
    ensures reply.Malformed? ==> r == Err(DecodeError(reply.reason))
    ensures r.Err? ==> !r.failure.BackendError?
  {
    match reply
    case TransportFailed(reason) => Err(TransportError(reason))
    case Malformed(reason) => Err(DecodeError(reason))
    case Decoded(body) => Ok(body)
  }
}
