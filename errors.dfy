/** Go error values, by the concrete kinds the gateway meets, and the JSON-RPC
    error object the backend returns. */
module Errors {
  import opened Wrappers
  import Text

  /** The JSON-RPC 2.0 error object (its free-form `data` member is not modelled). */
  datatype JsonRpcError = JsonRpcError(code: int, message: string)

  /** A Go `error` value, by the concrete kinds the gateway meets. */
  datatype Error =
    | Plain(text: string)                     // errors.New, SDK and I/O errors
    | Wrapped(context: string, cause: Error)  // fmt.Errorf("<context>: %w", cause)
    | UrlError(text: string)                  // *url.Error: the transport could not connect
    | RpcErr(rpc: JsonRpcError)               // *JsonRpcError returned by the backend

  /** `err.Error()`. */
  function ErrorString(e: Error): (s: string)
    ensures e.Wrapped? || e.RpcErr? ==> |s| > 0
    ensures e.Plain? || e.UrlError? ==> s == e.text
    ensures e.Wrapped? ==> |s| >= |e.context| + 2 && s[..|e.context| + 2] == e.context + ": "
    ensures e.Wrapped? ==> s[|e.context| + 2..] == ErrorString(e.cause)
    ensures e.RpcErr? ==> s[0] == '[' && |s| >= |e.rpc.message| && s[|s| - |e.rpc.message|..] == e.rpc.message
  {
    match e
    case Plain(t) => t
    case Wrapped(c, cause) => c + ": " + ErrorString(cause)
    case UrlError(t) => t
    case RpcErr(j) => "[" + Text.IntToString(j.code) + "] " + j.message
  }

  /** The error the chain of `e` ends in, following Unwrap. */
  function Innermost(e: Error): (r: Error)
    ensures !r.Wrapped?
  {
    if e.Wrapped? then Innermost(e.cause) else e
  }

  /** NewJsonRpcErrorFromErrorOrNil, i.e. `errors.As(err, &rpcError)`: the
      JSON-RPC error found by unwrapping `e`, if any. */
  function AsRpcError(e: Error): (r: Option<JsonRpcError>)
    ensures r.Some? <==> Innermost(e).RpcErr?
    ensures r.Some? ==> Innermost(e) == RpcErr(r.value)
  {
    match e
    case Wrapped(_, cause) => AsRpcError(cause)
    case RpcErr(j) => Some(j)
    case _ => None
  }

  /** `errors.As(err, &urlError)` for a `*url.Error` target. */
  predicate IsUrlError(e: Error)
    ensures IsUrlError(e) <==> Innermost(e).UrlError?
  {
    match e
    case Wrapped(_, cause) => IsUrlError(cause)
    case UrlError(_) => true
    case _ => false
  }
}
