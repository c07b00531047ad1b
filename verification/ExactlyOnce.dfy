/** A leader's run over a stream of requests: the reply cache makes repeats invisible. */
module ExactlyOnce {
  import opened Messages
  import opened CacheKeys
  import opened Replicas

  datatype RunResult = RunResult(final: Replica, outcomes: seq<IncrOutcome>, emitted: seq<ReplicateMsg>)

  function Emitted(msg: Option<ReplicateMsg>): seq<ReplicateMsg> {
    match msg
    case None => []
    case Some(m) => [m]
  }

  /** The server handles the requests one after the other. */
  function Run(r: Replica, reqs: seq<IncrRequest>): RunResult {
    if reqs == [] then RunResult(r, [], [])
    else
      var before := Run(r, reqs[..|reqs| - 1]);
      var step := HandleIncr(before.final, reqs[|reqs| - 1]);
      RunResult(step.next, before.outcomes + [step.outcome], before.emitted + Emitted(step.emitted))
  }

  /** A request the cache can recognise: accepted by the server and stamped with a client. */
  predicate Tracked(q: IncrRequest) {
    q.counterId != "" && q.clientId != ""
  }

  predicate SameOperation(p: IncrRequest, q: IncrRequest) {
    Tracked(p) && Tracked(q) && p.clientId == q.clientId && p.requestId == q.requestId
  }

  predicate Repeats(earlier: seq<IncrRequest>, q: IncrRequest) {
    exists i :: 0 <= i < |earlier| && SameOperation(earlier[i], q)
  }

  /** The stream with only the first occurrence of each (client, request) pair. */
  function Dedup(reqs: seq<IncrRequest>): seq<IncrRequest> {
    if reqs == [] then []
    else
      var earlier, q := reqs[..|reqs| - 1], reqs[|reqs| - 1];
      Dedup(earlier) + (if Repeats(earlier, q) then [] else [q])
  }

  /** Reference meaning of a stream, without any cache: how many accepted requests name c. */
  function CountFor(reqs: seq<IncrRequest>, c: string): nat {
    if reqs == [] then 0
    else CountFor(reqs[..|reqs| - 1], c) + (if c != "" && reqs[|reqs| - 1].counterId == c then 1 else 0)
  }

  // ---- shape of a run ---------------------------------------------------------------------

  lemma {:induction false} RunKeepsView(r: Replica, reqs: seq<IncrRequest>)
    ensures var f := Run(r, reqs).final;
            f.self == r.self && f.all == r.all && f.dedup == r.dedup && f.view == r.view
    ensures |Run(r, reqs).outcomes| == |reqs|
  {
    if reqs != [] {
      RunKeepsView(r, reqs[..|reqs| - 1]);
    }
  }

  lemma SameKeySameOperation(p: IncrRequest, q: IncrRequest)
    ensures RequestKey(p) == RequestKey(q) <==> p.clientId == q.clientId && p.requestId == q.requestId
  {
    KeysNeverCollide(p.clientId, p.requestId, q.clientId, q.requestId);
  }

  lemma StepKeepsReplies(r: Replica, q: IncrRequest)
    requires r.Serving() && r.dedup
    ensures var step := HandleIncr(r, q);
            && (forall k :: k in r.store.cache ==>
                  k in step.next.store.cache && step.next.store.cache[k] == r.store.cache[k])
            && (Tracked(q) ==>
                  && RequestKey(q) in step.next.store.cache
                  && step.outcome == Answered(step.next.store.cache[RequestKey(q)]))
  {
  }

  /** Every tracked request is answered by the reply that stays in the cache for its key. */
  lemma {:induction false} RepliesStayCached(r: Replica, reqs: seq<IncrRequest>, i: nat)
    requires r.Serving() && r.dedup
    requires i < |reqs| && Tracked(reqs[i])
    ensures |Run(r, reqs).outcomes| == |reqs|
    ensures RequestKey(reqs[i]) in Run(r, reqs).final.store.cache
    ensures Run(r, reqs).outcomes[i] == Answered(Run(r, reqs).final.store.cache[RequestKey(reqs[i])])
  {
    var n := |reqs| - 1;
    RunKeepsView(r, reqs[..n]);
    StepKeepsReplies(Run(r, reqs[..n]).final, reqs[n]);
    if i < n {
      RepliesStayCached(r, reqs[..n], i);
      assert reqs[..n][i] == reqs[i];
    }
  }

  /** From an empty cache, every cached key was stamped on an earlier tracked request. */
  lemma {:induction false} CachedKeysWereRequested(r: Replica, reqs: seq<IncrRequest>, key: string)
    requires r.Serving() && r.store.cache == map[]
    requires key in Run(r, reqs).final.store.cache
    ensures exists i :: 0 <= i < |reqs| && Tracked(reqs[i]) && RequestKey(reqs[i]) == key
  {
    var n := |reqs| - 1;
    RunKeepsView(r, reqs[..n]);
    if key in Run(r, reqs[..n]).final.store.cache {
      CachedKeysWereRequested(r, reqs[..n], key);
      var i :| 0 <= i < n && Tracked(reqs[..n][i]) && RequestKey(reqs[..n][i]) == key;
      assert reqs[i] == reqs[..n][i];
    } else {
      assert Tracked(reqs[n]) && RequestKey(reqs[n]) == key;
    }
  }

  /** From an empty cache, the cache recognises exactly the repeats. */
  lemma HitIffRepeat(r: Replica, earlier: seq<IncrRequest>, q: IncrRequest)
    requires r.Serving() && r.dedup && r.store.cache == map[] && q.counterId != ""
    ensures CacheHit(Run(r, earlier).final, q) <==> Repeats(earlier, q)
  {
    RunKeepsView(r, earlier);
    if Repeats(earlier, q) {
      var i :| 0 <= i < |earlier| && SameOperation(earlier[i], q);
      RepliesStayCached(r, earlier, i);
      SameKeySameOperation(earlier[i], q);
    }
    if CacheHit(Run(r, earlier).final, q) {
      CachedKeysWereRequested(r, earlier, RequestKey(q));
      var i :| 0 <= i < |earlier| && Tracked(earlier[i]) && RequestKey(earlier[i]) == RequestKey(q);
      SameKeySameOperation(earlier[i], q);
      assert SameOperation(earlier[i], q);
    }
  }

  lemma DedupUnfold(earlier: seq<IncrRequest>, q: IncrRequest)
    ensures Dedup(earlier + [q]) == if Repeats(earlier, q) then Dedup(earlier) else Dedup(earlier) + [q]
  {
    assert (earlier + [q])[..|earlier|] == earlier;
  }

  lemma CountUnfold(earlier: seq<IncrRequest>, q: IncrRequest, c: string)
    ensures CountFor(earlier + [q], c) == CountFor(earlier, c) + if c != "" && q.counterId == c then 1 else 0
  {
    assert (earlier + [q])[..|earlier|] == earlier;
  }

  // ---- dedup preserves meaning ------------------------------------------------------------

  lemma RepeatChangesNothing(r: Replica, earlier: seq<IncrRequest>, q: IncrRequest)
    requires r.Serving() && r.dedup && Repeats(earlier, q)
    ensures HandleIncr(Run(r, earlier).final, q).next == Run(r, earlier).final
    ensures HandleIncr(Run(r, earlier).final, q).emitted == None
  {
    var i :| 0 <= i < |earlier| && SameOperation(earlier[i], q);
    RunKeepsView(r, earlier);
    RepliesStayCached(r, earlier, i);
    SameKeySameOperation(earlier[i], q);
  }

  /** A serving leader with dedup on ends every stream as it ends the stream of first occurrences: in
      the same state, having sent the same Replicate messages. */
  lemma {:induction false} DedupPreservesMeaning(r: Replica, reqs: seq<IncrRequest>)
    requires r.Serving() && r.dedup
    ensures Run(r, Dedup(reqs)).final == Run(r, reqs).final
    ensures Run(r, Dedup(reqs)).emitted == Run(r, reqs).emitted
  {
    if reqs != [] {
      var earlier, q := reqs[..|reqs| - 1], reqs[|reqs| - 1];
      DedupPreservesMeaning(r, earlier);
      if Repeats(earlier, q) {
        RepeatChangesNothing(r, earlier, q);
        assert Dedup(reqs) == Dedup(earlier);
      } else {
        assert Dedup(reqs)[..|Dedup(reqs)| - 1] == Dedup(earlier);
      }
    }
  }

  lemma {:induction false} DedupKeepsFirst(reqs: seq<IncrRequest>, i: nat)
    requires i < |reqs| && Tracked(reqs[i])
    ensures exists j :: 0 <= j < |Dedup(reqs)| && SameOperation(Dedup(reqs)[j], reqs[i])
  {
    var n := |reqs| - 1;
    var earlier := reqs[..n];
    var d := Dedup(earlier);
    assert forall j :: 0 <= j < |d| ==> Dedup(reqs)[j] == d[j];
    if i < n {
      DedupKeepsFirst(earlier, i);
      var j :| 0 <= j < |d| && SameOperation(d[j], earlier[i]);
      assert SameOperation(Dedup(reqs)[j], reqs[i]);
    } else if Repeats(earlier, reqs[n]) {
      var k :| 0 <= k < n && SameOperation(earlier[k], reqs[n]);
      DedupKeepsFirst(earlier, k);
      var j :| 0 <= j < |d| && SameOperation(d[j], earlier[k]);
      assert SameOperation(Dedup(reqs)[j], reqs[i]);
    } else {
      assert Dedup(reqs)[|d|] == reqs[n];
    }
  }

  lemma {:induction false} DedupComesFrom(reqs: seq<IncrRequest>, j: nat)
    requires j < |Dedup(reqs)|
    ensures Dedup(reqs)[j] in reqs
  {
    var n := |reqs| - 1;
    if j < |Dedup(reqs[..n])| {
      DedupComesFrom(reqs[..n], j);
      assert Dedup(reqs)[j] == Dedup(reqs[..n])[j];
    }
  }

  lemma {:induction false} DedupHasNoRepeats(reqs: seq<IncrRequest>, i: nat, j: nat)
    requires i < j < |Dedup(reqs)|
    ensures !SameOperation(Dedup(reqs)[i], Dedup(reqs)[j])
  {
    var n := |reqs| - 1;
    var earlier := reqs[..n];
    var d := Dedup(earlier);
    assert forall k :: 0 <= k < |d| ==> Dedup(reqs)[k] == d[k];
    if j < |d| {
      DedupHasNoRepeats(earlier, i, j);
    } else {
      DedupComesFrom(earlier, i);
      assert !Repeats(earlier, reqs[n]);
      assert Dedup(reqs)[j] == reqs[n];
    }
  }

  /** And each request gets the reply that its only representative gets in the stream of first
      occurrences: one exists by this lemma, and no two by DedupHasNoRepeats. */
  lemma DedupPreservesReplies(r: Replica, reqs: seq<IncrRequest>, i: nat) returns (j: nat)
    requires r.Serving() && r.dedup && i < |reqs| && Tracked(reqs[i])
    ensures |Run(r, reqs).outcomes| == |reqs| && |Run(r, Dedup(reqs)).outcomes| == |Dedup(reqs)|
    ensures j < |Dedup(reqs)| && SameOperation(Dedup(reqs)[j], reqs[i])
    ensures Run(r, Dedup(reqs)).outcomes[j] == Run(r, reqs).outcomes[i]
  {
    var d := Dedup(reqs);
    DedupKeepsFirst(reqs, i);
    j :| 0 <= j < |d| && SameOperation(d[j], reqs[i]);
    DedupPreservesMeaning(r, reqs);
    RepliesStayCached(r, reqs, i);
    RepliesStayCached(r, d, j);
    SameKeySameOperation(d[j], reqs[i]);
  }

  // ---- what the counters count ------------------------------------------------------------

  lemma StepCounts(r: Replica, q: IncrRequest, c: string)
    requires r.Serving() && q.counterId != "" && c != ""
    ensures Lookup(HandleIncr(r, q).next.store.counters, c) ==
            Lookup(r.store.counters, c) + if q.counterId == c && !CacheHit(r, q) then 1 else 0
  {
  }

  /** With dedup on and an empty cache, a counter advances by the number of distinct operations. */
  lemma {:induction false} CountersCountOperations(r: Replica, reqs: seq<IncrRequest>, c: string)
    requires r.Serving() && r.dedup && r.store.cache == map[] && c != ""
    ensures Lookup(Run(r, reqs).final.store.counters, c) ==
            Lookup(r.store.counters, c) + CountFor(Dedup(reqs), c)
  {
    if reqs != [] {
      var earlier, q := reqs[..|reqs| - 1], reqs[|reqs| - 1];
      assert reqs == earlier + [q];
      CountersCountOperations(r, earlier, c);
      RunKeepsView(r, earlier);
      DedupUnfold(earlier, q);
      CountUnfold(Dedup(earlier), q, c);
      if q.counterId != "" {
        HitIffRepeat(r, earlier, q);
        StepCounts(Run(r, earlier).final, q, c);
      }
    }
  }

  /** With dedup off it advances by every accepted request, repeats included. */
  lemma {:induction false} CountersCountRequests(r: Replica, reqs: seq<IncrRequest>, c: string)
    requires r.Serving() && !r.dedup && c != ""
    ensures Lookup(Run(r, reqs).final.store.counters, c) == Lookup(r.store.counters, c) + CountFor(reqs, c)
  {
    if reqs != [] {
      CountersCountRequests(r, reqs[..|reqs| - 1], c);
      RunKeepsView(r, reqs[..|reqs| - 1]);
    }
  }

  // ---- what the replies say ---------------------------------------------------------------

  /** A request that the cache does not answer is answered with the counter's new value. */
  lemma NewValueIsReplied(r: Replica, q: IncrRequest)
    requires r.Serving() && q.counterId != "" && !CacheHit(r, q)
    ensures var step := HandleIncr(r, q);
            step.outcome == Answered(IncrResponse(Lookup(step.next.store.counters, q.counterId), ""))
  {
  }

  lemma OutcomesGrow(r: Replica, reqs: seq<IncrRequest>)
    requires reqs != []
    ensures Run(r, reqs).outcomes ==
            Run(r, reqs[..|reqs| - 1]).outcomes +
            [HandleIncr(Run(r, reqs[..|reqs| - 1]).final, reqs[|reqs| - 1]).outcome]
  {
  }

  lemma {:induction false} OutcomesArePrefix(r: Replica, reqs: seq<IncrRequest>, k: nat)
    requires k <= |reqs|
    ensures Run(r, reqs[..k]).outcomes <= Run(r, reqs).outcomes
  {
    if k < |reqs| {
      OutcomesGrow(r, reqs);
      OutcomesArePrefix(r, reqs[..|reqs| - 1], k);
      assert reqs[..|reqs| - 1][..k] == reqs[..k];
    } else {
      assert reqs[..k] == reqs;
    }
  }

  lemma OutcomeAt(r: Replica, reqs: seq<IncrRequest>, i: nat)
    requires i < |reqs|
    ensures |Run(r, reqs).outcomes| == |reqs|
    ensures var step := HandleIncr(Run(r, reqs[..i]).final, reqs[i]);
            Run(r, reqs).outcomes[i] == step.outcome && Run(r, reqs[..i + 1]).final == step.next
  {
    assert reqs[..i + 1][..i] == reqs[..i];
    RunKeepsView(r, reqs);
    RunKeepsView(r, reqs[..i]);
    OutcomesGrow(r, reqs[..i + 1]);
    OutcomesArePrefix(r, reqs, i + 1);
  }

  /** With dedup off, a reply carries the number of requests on its counter up to then, repeats
      included. */
  lemma RepliesCountRequests(r: Replica, reqs: seq<IncrRequest>, i: nat)
    requires r.Serving() && !r.dedup && i < |reqs| && reqs[i].counterId != ""
    ensures |Run(r, reqs).outcomes| == |reqs|
    ensures var c := reqs[i].counterId;
            Run(r, reqs).outcomes[i] ==
              Answered(IncrResponse(Lookup(r.store.counters, c) + CountFor(reqs[..i + 1], c), ""))
  {
    OutcomeAt(r, reqs, i);
    RunKeepsView(r, reqs[..i]);
    NewValueIsReplied(Run(r, reqs[..i]).final, reqs[i]);
    CountersCountRequests(r, reqs[..i + 1], reqs[i].counterId);
  }

  /** With dedup on and an empty cache, a reply carries the number of distinct operations on its counter
      up to then, an unstamped request counting every time; and a repeat gets the earlier reply again. */
  lemma RepliesCountOperations(r: Replica, reqs: seq<IncrRequest>, i: nat)
    requires r.Serving() && r.dedup && r.store.cache == map[] && i < |reqs| && reqs[i].counterId != ""
    ensures |Run(r, reqs).outcomes| == |reqs|
    ensures var c := reqs[i].counterId;
            !Repeats(reqs[..i], reqs[i]) ==>
              Run(r, reqs).outcomes[i] ==
                Answered(IncrResponse(Lookup(r.store.counters, c) + CountFor(Dedup(reqs[..i + 1]), c), ""))
    ensures forall k :: 0 <= k < i && SameOperation(reqs[k], reqs[i]) ==>
              Run(r, reqs).outcomes[i] == Run(r, reqs).outcomes[k]
  {
    OutcomeAt(r, reqs, i);
    if !Repeats(reqs[..i], reqs[i]) {
      RunKeepsView(r, reqs[..i]);
      HitIffRepeat(r, reqs[..i], reqs[i]);
      NewValueIsReplied(Run(r, reqs[..i]).final, reqs[i]);
      CountersCountOperations(r, reqs[..i + 1], reqs[i].counterId);
    }
    forall k | 0 <= k < i && SameOperation(reqs[k], reqs[i])
      ensures Run(r, reqs).outcomes[i] == Run(r, reqs).outcomes[k]
    {
      RepliesStayCached(r, reqs, i);
      RepliesStayCached(r, reqs, k);
      SameKeySameOperation(reqs[k], reqs[i]);
    }
  }

  // ---- when repeats matter ----------------------------------------------------------------

  lemma {:induction false} DedupCounts(reqs: seq<IncrRequest>, c: string)
    ensures CountFor(Dedup(reqs), c) <= CountFor(reqs, c)
    ensures |Dedup(reqs)| <= |reqs|
  {
    if reqs != [] {
      var earlier, q := reqs[..|reqs| - 1], reqs[|reqs| - 1];
      assert reqs == earlier + [q];
      DedupCounts(earlier, c);
      DedupUnfold(earlier, q);
      CountUnfold(Dedup(earlier), q, c);
    }
  }

  lemma {:induction false} DroppedRequestCounts(reqs: seq<IncrRequest>) returns (c: string)
    requires Dedup(reqs) != reqs
    ensures c != "" && CountFor(Dedup(reqs), c) < CountFor(reqs, c)
  {
    var earlier, q := reqs[..|reqs| - 1], reqs[|reqs| - 1];
    assert reqs == earlier + [q];
    DedupUnfold(earlier, q);
    if Repeats(earlier, q) {
      c := q.counterId;
      DedupCounts(earlier, c);
    } else {
      c := DroppedRequestCounts(earlier);
      CountUnfold(Dedup(earlier), q, c);
    }
  }

  /** Repeats are harmless exactly when dedup is on or there are none. */
  lemma RepeatsHarmlessIff(r: Replica, reqs: seq<IncrRequest>)
    requires r.Serving()
    ensures Run(r, Dedup(reqs)).final.store.counters == Run(r, reqs).final.store.counters <==>
            r.dedup || Dedup(reqs) == reqs
  {
    if r.dedup {
      DedupPreservesMeaning(r, reqs);
    } else if Dedup(reqs) != reqs {
      var c := DroppedRequestCounts(reqs);
      CountersCountRequests(r, reqs, c);
      CountersCountRequests(r, Dedup(reqs), c);
    }
  }
}
