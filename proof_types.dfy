/** The records the proof gateway passes around: the backend's response, the
    JSON-RPC error the gateway raises itself, and the cached entry. */
module ProofTypes {
  import opened Wrappers
  import Text
  import opened Errors

  type Bytes = seq<Text.Byte>

  /** A successful prove call's payload. */
  datatype ProveResponse = ProveResponse(finalPair: Bytes, proof: Bytes)

  /** The code the gateway gives errors it raises itself: the first of the
      implementation-defined "server error" codes of section 5.1 of the
      JSON-RPC 2.0 specification (-32000 to -32099). */
  const ServerErrorCode: int := -32000

  /** NewJsonRpcErrorFromString: wrap a plain message as a server error. */
  function NewJsonRpcErrorFromString(message: string): (e: JsonRpcError)
    ensures e.code == ServerErrorCode && -32099 <= e.code <= -32000
    ensures e.message == message
  {
    JsonRpcError(ServerErrorCode, message)
  }

  /** A cached prove outcome, in the shape the service writes and reads. */
  datatype FileProof = FileProof(finalPair: Bytes, proof: Bytes, error: string, rpcError: Option<JsonRpcError>)

  /** A cached entry records a failure when its error message is non-empty. */
  predicate HasError(p: FileProof)
  {
    |p.error| != 0
  }
}
