/** Stamping of requests: a client ID that never changes and an atomic 64-bit counter. */
module RequestIds {
  import opened Messages
  import opened Replicas
  import opened ExactlyOnce

  /** atomic.Int64 addition of one, wrapping around. */
  function Next(id: int64): int64 {
    if id == MAX_INT64 then MIN_INT64 else id + 1
  }

  /** The request as it leaves the interceptor: one that is already stamped is a retry. */
  function Stamped(req: IncrRequest, clientId: string, id: int64): IncrRequest {
    if req.clientId == "" then req.(clientId := clientId, requestId := id) else req
  }

  class RequestIDInterceptor {
    const clientID: string
    var requestID: int64

    constructor (clientID: string)
      ensures this.clientID == clientID && requestID == 0
    {
      this.clientID := clientID;
      requestID := 0;
    }

    method Unary(req: IncrRequest) returns (sent: IncrRequest)
      modifies this
      ensures sent == Stamped(req, clientID, Next(old(requestID)))
      ensures requestID == if req.clientId == "" then Next(old(requestID)) else old(requestID)
    {
      sent := req;
      if req.clientId == "" {
        requestID := if requestID == MAX_INT64 then MIN_INT64 else requestID + 1;
        sent := sent.(clientId := clientID, requestId := requestID);
      }
    }
  }

  function NthId(start: int64, k: nat): int64 {
    if k == 0 then start else Next(NthId(start, k - 1))
  }

  const TWO_64: int := 0x1_0000_0000_0000_0000

  /** The sum, less 2^64 for each time the counter has wrapped around. */
  lemma {:induction false} NthIdIsSum(start: int64, k: nat) returns (turns: int)
    ensures NthId(start, k) == start + k - TWO_64 * turns
  {
    if k == 0 {
      turns := 0;
    } else {
      turns := NthIdIsSum(start, k - 1);
      if NthId(start, k - 1) == MAX_INT64 {
        turns := turns + 1;
      }
    }
  }

  lemma MultipleIff(d: int, k: nat, turns: int)
    requires d == k + TWO_64 * turns && -TWO_64 < d < TWO_64
    ensures d == 0 <==> k % TWO_64 == 0
  {
    assert d == 0 ==> k / TWO_64 == 0 - turns;
    assert k % TWO_64 == 0 ==> d == TWO_64 * (k / TWO_64 + turns);
  }

  /** Two stamps of one client coincide exactly when they are a multiple of 2^64 calls apart, so a
      client that issues fewer requests never reuses one. */
  lemma StampsCoincideIff(start: int64, i: nat, j: nat)
    requires i <= j
    ensures NthId(start, i) == NthId(start, j) <==> (j - i) % TWO_64 == 0
  {
    var p := NthIdIsSum(start, i);
    var q := NthIdIsSum(start, j);
    MultipleIff(NthId(start, j) - NthId(start, i), j - i, p - q);
  }

  /** Stamping is idempotent: the stamp of a first attempt survives every retry of the message. */
  lemma RetryKeepsStamp(req: IncrRequest, clientId: string, id: int64, later: int64)
    requires clientId != ""
    ensures var sent := Stamped(req, clientId, id);
            sent.clientId != "" && Stamped(sent, clientId, later) == sent
  {
  }

  // ---- a client's new requests ------------------------------------------------------------

  predicate Unstamped(reqs: seq<IncrRequest>) {
    forall i :: 0 <= i < |reqs| ==> reqs[i].clientId == ""
  }

  /** The interceptor's output for new requests, one after the other; last is the ID used last. */
  function AllStamped(reqs: seq<IncrRequest>, clientId: string, last: int64): seq<IncrRequest> {
    seq(|reqs|, (i: nat) requires i < |reqs| => Stamped(reqs[i], clientId, NthId(last, i + 1)))
  }

  /** Requests sent later again are repeats of requests already sent. */
  predicate AllFrom(again: seq<IncrRequest>, sent: seq<IncrRequest>) {
    forall i :: 0 <= i < |again| ==> again[i] in sent
  }

  lemma StampedPairDiffers(reqs: seq<IncrRequest>, clientId: string, last: int64, i: nat, j: nat)
    requires Unstamped(reqs) && i < j < |reqs| <= TWO_64
    ensures !SameOperation(AllStamped(reqs, clientId, last)[i], AllStamped(reqs, clientId, last)[j])
  {
    StampsCoincideIff(last, i + 1, j + 1);
  }

  predicate AllDifferent(sent: seq<IncrRequest>) {
    forall i, j :: 0 <= i < j < |sent| ==> !SameOperation(sent[i], sent[j])
  }

  lemma StampsDiffer(reqs: seq<IncrRequest>, clientId: string, last: int64)
    requires Unstamped(reqs) && |reqs| <= TWO_64
    ensures AllDifferent(AllStamped(reqs, clientId, last))
  {
    var sent := AllStamped(reqs, clientId, last);
    forall i, j | 0 <= i < j < |sent| ensures !SameOperation(sent[i], sent[j]) {
      StampedPairDiffers(reqs, clientId, last, i, j);
    }
  }

  lemma {:induction false} DistinctStreamIsKept(sent: seq<IncrRequest>)
    requires AllDifferent(sent)
    ensures Dedup(sent) == sent
  {
    if sent != [] {
      var earlier, q := sent[..|sent| - 1], sent[|sent| - 1];
      assert sent == earlier + [q];
      DistinctStreamIsKept(earlier);
      DedupUnfold(earlier, q);
    }
  }

  lemma {:induction false} AgainAddsNothing(sent: seq<IncrRequest>, again: seq<IncrRequest>)
    requires AllFrom(again, sent) && AllTracked(sent)
    ensures forall c :: CountFor(Dedup(sent + again), c) == CountFor(Dedup(sent), c)
  {
    if again == [] {
      assert sent + again == sent;
    } else {
      var n := |again| - 1;
      AgainAddsNothing(sent, again[..n]);
      assert sent + again == sent + again[..n] + [again[n]];
      DedupUnfold(sent + again[..n], again[n]);
      if again[n].counterId != "" {
        var i :| 0 <= i < |sent| && sent[i] == again[n];
        assert SameOperation((sent + again[..n])[i], again[n]);
      } else {
        forall c ensures CountFor(Dedup(sent + again[..n]) + [again[n]], c) == CountFor(Dedup(sent + again[..n]), c) {
          CountUnfold(Dedup(sent + again[..n]), again[n], c);
        }
      }
    }
  }

  lemma {:induction false} SameCounters(reqs: seq<IncrRequest>, sent: seq<IncrRequest>, c: string)
    requires |sent| == |reqs| && forall i :: 0 <= i < |reqs| ==> sent[i].counterId == reqs[i].counterId
    ensures CountFor(sent, c) == CountFor(reqs, c)
  {
    if reqs != [] {
      SameCounters(reqs[..|reqs| - 1], sent[..|sent| - 1], c);
    }
  }

  lemma StampedAreKept(reqs: seq<IncrRequest>, clientId: string, last: int64)
    requires Unstamped(reqs) && |reqs| <= TWO_64
    ensures Dedup(AllStamped(reqs, clientId, last)) == AllStamped(reqs, clientId, last)
  {
    StampsDiffer(reqs, clientId, last);
    DistinctStreamIsKept(AllStamped(reqs, clientId, last));
  }

  lemma StampsKeepCounters(reqs: seq<IncrRequest>, clientId: string, last: int64, c: string)
    ensures CountFor(AllStamped(reqs, clientId, last), c) == CountFor(reqs, c)
  {
    SameCounters(reqs, AllStamped(reqs, clientId, last), c);
  }

  predicate AllTracked(reqs: seq<IncrRequest>) {
    forall i :: 0 <= i < |reqs| && reqs[i].counterId != "" ==> Tracked(reqs[i])
  }

  lemma StampedAreTracked(reqs: seq<IncrRequest>, clientId: string, last: int64)
    requires Unstamped(reqs) && clientId != ""
    ensures AllTracked(AllStamped(reqs, clientId, last))
  {
  }

  lemma KeptStreamCounts(r: Replica, sent: seq<IncrRequest>, again: seq<IncrRequest>, c: string)
    requires r.Serving() && r.dedup && r.store.cache == map[] && c != ""
    requires Dedup(sent) == sent && AllFrom(again, sent) && AllTracked(sent)
    ensures Lookup(Run(r, sent + again).final.store.counters, c) == Lookup(r.store.counters, c) + CountFor(sent, c)
  {
    AgainAddsNothing(sent, again);
    CountersCountOperations(r, sent + again, c);
  }

  /** The client and the cache together: up to 2^64 new requests of a client, the stamped messages sent
      again as often as one likes, advance each counter by the number of requests made for it. */
  lemma StampedOnceCountedOnce(r: Replica, reqs: seq<IncrRequest>, clientId: string, last: int64,
                               again: seq<IncrRequest>, c: string)
    requires r.Serving() && r.dedup && r.store.cache == map[] && c != ""
    requires Unstamped(reqs) && clientId != "" && |reqs| <= TWO_64
    requires AllFrom(again, AllStamped(reqs, clientId, last))
    ensures Lookup(Run(r, AllStamped(reqs, clientId, last) + again).final.store.counters, c) ==
            Lookup(r.store.counters, c) + CountFor(reqs, c)
  {
    var sent := AllStamped(reqs, clientId, last);
    StampedAreKept(reqs, clientId, last);
    StampsKeepCounters(reqs, clientId, last, c);
    StampedAreTracked(reqs, clientId, last);
    KeptStreamCounts(r, sent, again, c);
  }

  /** The bound is exact: the ID of the first of more than 2^64 requests is used a second time. */
  lemma StampsRunOutIff(reqs: seq<IncrRequest>, clientId: string, last: int64)
    requires Unstamped(reqs) && clientId != "" && forall i :: 0 <= i < |reqs| ==> reqs[i].counterId != ""
    ensures Dedup(AllStamped(reqs, clientId, last)) == AllStamped(reqs, clientId, last) <==> |reqs| <= TWO_64
  {
    var sent := AllStamped(reqs, clientId, last);
    if |reqs| <= TWO_64 {
      StampedAreKept(reqs, clientId, last);
    } else {
      var k: nat := TWO_64;
      StampsCoincideIff(last, 1, k + 1);
      assert SameOperation(sent[0], sent[k]);
      if Dedup(sent) == sent {
        DedupHasNoRepeats(sent, 0, k);
      }
    }
  }
}
