/** The messages of proto/counter.proto as plain values. */
module Messages {

  const MIN_INT64: int := -0x8000_0000_0000_0000
  const MAX_INT64: int := 0x7FFF_FFFF_FFFF_FFFF

  type int64 = x: int | MIN_INT64 <= x <= MAX_INT64

  datatype Option<+T> = None | Some(value: T)

  datatype IncrRequest = IncrRequest(counterId: string, clientId: string, requestId: int64)

  /** redirectTo is non-empty iff the answering server is not the leader. */
  datatype IncrResponse = IncrResponse(newValue: int, redirectTo: string)

  /** What an RPC returns: a response, or one of the two gRPC status errors the handlers use. */
  datatype IncrOutcome = Answered(resp: IncrResponse) | InvalidArgument | Unavailable

  datatype ReplicateMsg = ReplicateMsg(
    counterId: string,
    newValue: int,
    clientId: string,
    requestId: int64,
    cachedResponse: Option<IncrResponse>)

  datatype ViewChangeMsg = ViewChangeMsg(view: int, sender: string)

  datatype ViewChangeAck = ViewChangeAck(accepted: bool, view: int)

  datatype CacheEntry = CacheEntry(clientId: string, requestId: int64, response: Option<IncrResponse>)

  datatype TransferResp = TransferResp(counters: map<string, int>, cache: seq<CacheEntry>, view: int)
}
