/** What the leader's Replicate messages carry, and what followers make of them. */
module Replication {
  import opened Messages
  import opened Replicas
  import opened ExactlyOnce

  function ApplyAll(f: Replica, msgs: seq<ReplicateMsg>): Replica {
    if msgs == [] then f
    else HandleReplicate(ApplyAll(f, msgs[..|msgs| - 1]), msgs[|msgs| - 1])
  }

  /** The values sent for one counter, in sending order. */
  function ValuesFor(msgs: seq<ReplicateMsg>, c: string): seq<int> {
    if msgs == [] then []
    else
      var m := msgs[|msgs| - 1];
      ValuesFor(msgs[..|msgs| - 1], c) + (if m.counterId == c then [m.newValue] else [])
  }

  /** The last message about one counter. */
  function LastFor(msgs: seq<ReplicateMsg>, c: string): Option<ReplicateMsg> {
    if msgs == [] then None
    else if msgs[|msgs| - 1].counterId == c then Some(msgs[|msgs| - 1])
    else LastFor(msgs[..|msgs| - 1], c)
  }

  predicate SubMap<K, V(==)>(a: map<K, V>, b: map<K, V>) {
    forall k :: k in a ==> k in b && a[k] == b[k]
  }

  lemma RunLast(r: Replica, reqs: seq<IncrRequest>)
    requires reqs != []
    ensures var before := Run(r, reqs[..|reqs| - 1]);
            var step := HandleIncr(before.final, reqs[|reqs| - 1]);
            Run(r, reqs).final == step.next && Run(r, reqs).emitted == before.emitted + Emitted(step.emitted)
  {
  }

  lemma IncrFacts(r: Replica, q: IncrRequest)
    ensures var step := HandleIncr(r, q);
            if q.counterId != "" && r.Serving() && !CacheHit(r, q) then
              var val := Lookup(r.store.counters, q.counterId) + 1;
              && step.emitted == Some(ReplicateFor(r.dedup, q, val))
              && step.next.store.counters == r.store.counters[q.counterId := val]
              && step.next.store == HandleReplicate(r, step.emitted.value).store
            else
              step.emitted == None && step.next == r
  {
  }

  lemma ValuesUnfold(msgs: seq<ReplicateMsg>, m: ReplicateMsg, c: string)
    ensures ValuesFor(msgs + [m], c) == ValuesFor(msgs, c) + if m.counterId == c then [m.newValue] else []
  {
    assert (msgs + [m])[..|msgs|] == msgs;
  }

  lemma ApplyUnfold(f: Replica, msgs: seq<ReplicateMsg>, m: ReplicateMsg)
    ensures ApplyAll(f, msgs + [m]) == HandleReplicate(ApplyAll(f, msgs), m)
  {
    assert (msgs + [m])[..|msgs|] == msgs;
  }

  // ---- the values sent --------------------------------------------------------------------

  /** The values a leader sends for a counter are consecutive and end at the counter's value. */
  lemma {:induction false} ValuesAreConsecutive(r: Replica, reqs: seq<IncrRequest>, c: string)
    ensures var values := ValuesFor(Run(r, reqs).emitted, c);
            && Lookup(Run(r, reqs).final.store.counters, c) == Lookup(r.store.counters, c) + |values|
            && forall i :: 0 <= i < |values| ==> values[i] == Lookup(r.store.counters, c) + i + 1
  {
    if reqs != [] {
      var before := Run(r, reqs[..|reqs| - 1]);
      ValuesAreConsecutive(r, reqs[..|reqs| - 1], c);
      RunLast(r, reqs);
      IncrFacts(before.final, reqs[|reqs| - 1]);
      var step := HandleIncr(before.final, reqs[|reqs| - 1]);
      if step.emitted.Some? {
        ValuesUnfold(before.emitted, step.emitted.value, c);
      } else {
        assert before.emitted + [] == before.emitted;
      }
    }
  }

  /** A message agrees with a cache when the reply it carries is the one cached under its key. */
  predicate Agrees(m: ReplicateMsg, cache: map<string, IncrResponse>) {
    if m.clientId == "" then m.cachedResponse == None
    else
      && m.cachedResponse == Some(IncrResponse(m.newValue, ""))
      && MessageKey(m) in cache && cache[MessageKey(m)] == IncrResponse(m.newValue, "")
  }

  /** One step adds at most one entry, the one its message carries. */
  lemma StepAgrees(r: Replica, q: IncrRequest)
    requires r.Serving() && r.dedup
    ensures var step := HandleIncr(r, q);
            && SubMap(r.store.cache, step.next.store.cache)
            && (forall c :: Lookup(r.store.counters, c) <= Lookup(step.next.store.counters, c))
            && match step.emitted
               case None => step.next.store.cache == r.store.cache
               case Some(m) =>
                 && Agrees(m, step.next.store.cache)
                 && m.newValue == Lookup(step.next.store.counters, m.counterId)
                 && step.next.store.cache.Keys ==
                    r.store.cache.Keys + (if m.clientId == "" then {} else {MessageKey(m)})
  {
    IncrFacts(r, q);
  }

  lemma {:induction false} MessagesAgreeWithLeader(r: Replica, reqs: seq<IncrRequest>)
    requires r.Serving() && r.dedup
    ensures var run := Run(r, reqs);
            && (forall m :: m in run.emitted ==>
                  Agrees(m, run.final.store.cache) && m.newValue <= Lookup(run.final.store.counters, m.counterId))
            && SubMap(r.store.cache, run.final.store.cache)
  {
    if reqs != [] {
      var before := Run(r, reqs[..|reqs| - 1]);
      MessagesAgreeWithLeader(r, reqs[..|reqs| - 1]);
      RunKeepsView(r, reqs[..|reqs| - 1]);
      RunLast(r, reqs);
      StepAgrees(before.final, reqs[|reqs| - 1]);
    }
  }

  lemma {:induction false} NewEntriesWereSent(r: Replica, reqs: seq<IncrRequest>, k: string)
    requires r.Serving() && r.dedup
    requires k in Run(r, reqs).final.store.cache && k !in r.store.cache
    ensures exists m :: m in Run(r, reqs).emitted && m.clientId != "" && MessageKey(m) == k
  {
    var before := Run(r, reqs[..|reqs| - 1]);
    RunKeepsView(r, reqs[..|reqs| - 1]);
    RunLast(r, reqs);
    StepAgrees(before.final, reqs[|reqs| - 1]);
    if k in before.final.store.cache {
      NewEntriesWereSent(r, reqs[..|reqs| - 1], k);
      var m :| m in before.emitted && m.clientId != "" && MessageKey(m) == k;
      assert m in Run(r, reqs).emitted;
    } else {
      var m := HandleIncr(before.final, reqs[|reqs| - 1]).emitted.value;
      assert m in Run(r, reqs).emitted;
    }
  }

  /** No value sent for a counter exceeds it. */
  lemma {:induction false} ValuesWithinCounter(r: Replica, reqs: seq<IncrRequest>, m: ReplicateMsg)
    requires m in Run(r, reqs).emitted
    ensures m.newValue <= Lookup(Run(r, reqs).final.store.counters, m.counterId)
  {
    var before := Run(r, reqs[..|reqs| - 1]);
    RunLast(r, reqs);
    IncrFacts(before.final, reqs[|reqs| - 1]);
    if m in before.emitted {
      ValuesWithinCounter(r, reqs[..|reqs| - 1], m);
    }
  }

  /** Along the messages of one counter the values strictly increase. */
  lemma {:induction false} ValuesIncrease(r: Replica, reqs: seq<IncrRequest>, i: nat, j: nat)
    requires i < j < |Run(r, reqs).emitted|
    requires Run(r, reqs).emitted[i].counterId == Run(r, reqs).emitted[j].counterId
    ensures Run(r, reqs).emitted[i].newValue < Run(r, reqs).emitted[j].newValue
  {
    var before := Run(r, reqs[..|reqs| - 1]);
    RunLast(r, reqs);
    IncrFacts(before.final, reqs[|reqs| - 1]);
    if j < |before.emitted| {
      ValuesIncrease(r, reqs[..|reqs| - 1], i, j);
    } else {
      ValuesWithinCounter(r, reqs[..|reqs| - 1], before.emitted[i]);
    }
  }

  // ---- conservation -----------------------------------------------------------------------

  ghost function SumCounters(counters: map<string, int>): int {
    if counters == map[] then 0
    else
      var c :| c in counters;
      counters[c] + SumCounters(counters - {c})
  }

  lemma {:induction false} SumWithout(counters: map<string, int>, c: string)
    requires c in counters
    ensures SumCounters(counters) == counters[c] + SumCounters(counters - {c})
    decreases |counters|
  {
    var d :| d in counters && SumCounters(counters) == counters[d] + SumCounters(counters - {d});
    if c != d {
      SumWithout(counters - {d}, c);
      SumWithout(counters - {c}, d);
      assert counters - {d} - {c} == counters - {c} - {d};
    }
  }

  lemma SumUpdate(counters: map<string, int>, c: string, v: int)
    ensures SumCounters(counters[c := v]) == SumCounters(counters) - Lookup(counters, c) + v
  {
    SumWithout(counters[c := v], c);
    if c in counters {
      SumWithout(counters, c);
      assert counters[c := v] - {c} == counters - {c};
    } else {
      assert counters[c := v] - {c} == counters;
    }
  }

  lemma StepConserves(r: Replica, q: IncrRequest)
    requires r.dedup && q.clientId != ""
    ensures var step := HandleIncr(r, q);
            var added := |Emitted(step.emitted)|;
            && SumCounters(step.next.store.counters) == SumCounters(r.store.counters) + added
            && |step.next.store.cache| == |r.store.cache| + added
  {
    IncrFacts(r, q);
    SumUpdate(r.store.counters, q.counterId, Lookup(r.store.counters, q.counterId) + 1);
  }

  /** Starting empty with dedup on and every request stamped: one cache entry and one message per
      applied increment, so the counters add up to the size of the cache. */
  lemma {:induction false} CountersSumToCacheSize(r: Replica, reqs: seq<IncrRequest>)
    requires r.Serving() && r.dedup && r.store == EMPTY_STORE
    requires forall q :: q in reqs ==> q.clientId != ""
    ensures var run := Run(r, reqs);
            SumCounters(run.final.store.counters) == |run.final.store.cache| == |run.emitted|
  {
    if reqs != [] {
      var before := Run(r, reqs[..|reqs| - 1]);
      var q := reqs[|reqs| - 1];
      forall p | p in reqs[..|reqs| - 1] ensures p.clientId != "" {
        assert p in reqs;
      }
      CountersSumToCacheSize(r, reqs[..|reqs| - 1]);
      RunKeepsView(r, reqs[..|reqs| - 1]);
      RunLast(r, reqs);
      assert q in reqs;
      StepConserves(before.final, q);
    }
  }

  /** The cached replies of the operations applied to counter c are 1..counters[c], each once:
      the i-th message about c has value i + 1, and the cache holds that reply under its key. */
  lemma CachedValuesAreExactlyOneToN(r: Replica, reqs: seq<IncrRequest>, c: string)
    requires r.Serving() && r.dedup && r.store == EMPTY_STORE
    requires forall q :: q in reqs ==> q.clientId != ""
    ensures var run := Run(r, reqs);
            var values := ValuesFor(run.emitted, c);
            && |values| == Lookup(run.final.store.counters, c)
            && (forall i :: 0 <= i < |values| ==> values[i] == i + 1)
            && (forall m :: m in run.emitted ==>
                  MessageKey(m) in run.final.store.cache &&
                  run.final.store.cache[MessageKey(m)] == IncrResponse(m.newValue, ""))
            && (forall k :: k in run.final.store.cache ==> exists m :: m in run.emitted && MessageKey(m) == k)
  {
    ValuesAreConsecutive(r, reqs, c);
    MessagesAgreeWithLeader(r, reqs);
    AllMessagesStamped(r, reqs);
    forall k | k in Run(r, reqs).final.store.cache
      ensures exists m :: m in Run(r, reqs).emitted && MessageKey(m) == k
    {
      NewEntriesWereSent(r, reqs, k);
    }
  }

  lemma {:induction false} AllMessagesStamped(r: Replica, reqs: seq<IncrRequest>)
    requires r.Serving() && r.dedup
    requires forall q :: q in reqs ==> q.clientId != ""
    ensures forall m :: m in Run(r, reqs).emitted ==> m.clientId != ""
  {
    if reqs != [] {
      forall p | p in reqs[..|reqs| - 1] ensures p.clientId != "" {
        assert p in reqs;
      }
      AllMessagesStamped(r, reqs[..|reqs| - 1]);
      RunKeepsView(r, reqs[..|reqs| - 1]);
      RunLast(r, reqs);
      IncrFacts(Run(r, reqs[..|reqs| - 1]).final, reqs[|reqs| - 1]);
    }
  }

  // ---- followers --------------------------------------------------------------------------

  /** In creation order, a follower that started level with the leader ends level with it. */
  lemma {:induction false} InOrderFollowerAgrees(r: Replica, f: Replica, reqs: seq<IncrRequest>)
    requires f.store == r.store && f.dedup == r.dedup
    ensures ApplyAll(f, Run(r, reqs).emitted).store == Run(r, reqs).final.store
    ensures ApplyAll(f, Run(r, reqs).emitted).dedup == f.dedup
  {
    if reqs != [] {
      var before := Run(r, reqs[..|reqs| - 1]);
      InOrderFollowerAgrees(r, f, reqs[..|reqs| - 1]);
      RunKeepsView(r, reqs[..|reqs| - 1]);
      RunLast(r, reqs);
      IncrFacts(before.final, reqs[|reqs| - 1]);
      var step := HandleIncr(before.final, reqs[|reqs| - 1]);
      if step.emitted.Some? {
        ApplyUnfold(f, before.emitted, step.emitted.value);
      } else {
        assert before.emitted + [] == before.emitted;
      }
    }
  }

  /** Counters no larger, and a part of the cache. */
  ghost predicate Below(a: Store, b: Store) {
    (forall c :: Lookup(a.counters, c) <= Lookup(b.counters, c)) && SubMap(a.cache, b.cache)
  }

  lemma IncrGrows(r: Replica, q: IncrRequest)
    requires r.Serving()
    ensures Below(r.store, HandleIncr(r, q).next.store)
  {
    IncrFacts(r, q);
  }

  lemma BelowTransitive(a: Store, b: Store, c: Store)
    requires Below(a, b) && Below(b, c)
    ensures Below(a, c)
  {
  }

  /** Having received only a prefix, it has counters no larger and a part of the cache. */
  lemma {:induction false} PrefixFollowerIsBehind(r: Replica, f: Replica, reqs: seq<IncrRequest>, k: nat)
    requires r.Serving() && f.store == r.store && f.dedup == r.dedup
    requires k <= |Run(r, reqs).emitted|
    ensures Below(ApplyAll(f, Run(r, reqs).emitted[..k]).store, Run(r, reqs).final.store)
  {
    var run := Run(r, reqs);
    if k == |run.emitted| {
      assert run.emitted[..k] == run.emitted;
      InOrderFollowerAgrees(r, f, reqs);
    } else {
      var before := Run(r, reqs[..|reqs| - 1]);
      RunLast(r, reqs);
      RunKeepsView(r, reqs[..|reqs| - 1]);
      IncrGrows(before.final, reqs[|reqs| - 1]);
      PrefixFollowerIsBehind(r, f, reqs[..|reqs| - 1], k);
      assert run.emitted[..k] == before.emitted[..k];
      BelowTransitive(ApplyAll(f, before.emitted[..k]).store, before.final.store, run.final.store);
    }
  }

  lemma {:induction false} LastForFacts(msgs: seq<ReplicateMsg>, c: string)
    ensures LastFor(msgs, c).Some? ==> LastFor(msgs, c).value in msgs && LastFor(msgs, c).value.counterId == c
    ensures LastFor(msgs, c).None? ==> forall m :: m in msgs ==> m.counterId != c
  {
    if msgs != [] {
      LastForFacts(msgs[..|msgs| - 1], c);
      assert msgs == msgs[..|msgs| - 1] + [msgs[|msgs| - 1]];
    }
  }

  /** Whatever the order, a counter holds the value of the last message delivered about it. */
  lemma {:induction false} CounterIsLastDelivered(f: Replica, msgs: seq<ReplicateMsg>, c: string)
    ensures Lookup(ApplyAll(f, msgs).store.counters, c) ==
            match LastFor(msgs, c)
            case None => Lookup(f.store.counters, c)
            case Some(m) => m.newValue
  {
    if msgs != [] {
      CounterIsLastDelivered(f, msgs[..|msgs| - 1], c);
    }
  }

  /** Messages that agree with a cache fill a follower's cache with entries of that cache only. */
  lemma {:induction false} AgreeingMessagesFillCache(f: Replica, msgs: seq<ReplicateMsg>,
                                                     cache: map<string, IncrResponse>)
    requires f.dedup && SubMap(f.store.cache, cache)
    requires forall m :: m in msgs ==> Agrees(m, cache)
    ensures var got := ApplyAll(f, msgs);
            && got.dedup
            && SubMap(got.store.cache, cache)
            && (forall k :: k in f.store.cache ==> k in got.store.cache)
            && (forall m :: m in msgs && m.clientId != "" ==> MessageKey(m) in got.store.cache)
  {
    if msgs != [] {
      var n := |msgs| - 1;
      forall m | m in msgs[..n] ensures Agrees(m, cache) {
        assert m in msgs;
      }
      AgreeingMessagesFillCache(f, msgs[..n], cache);
      assert Agrees(msgs[n], cache);
      assert msgs == msgs[..n] + [msgs[n]];
    }
  }

  lemma SameValueSameMessage(r: Replica, reqs: seq<IncrRequest>, m: ReplicateMsg, m': ReplicateMsg)
    requires m in Run(r, reqs).emitted && m' in Run(r, reqs).emitted
    requires m.counterId == m'.counterId && m.newValue == m'.newValue
    ensures m == m'
  {
    var msgs := Run(r, reqs).emitted;
    var i :| 0 <= i < |msgs| && msgs[i] == m;
    var j :| 0 <= j < |msgs| && msgs[j] == m';
    if i < j {
      ValuesIncrease(r, reqs, i, j);
    } else if j < i {
      ValuesIncrease(r, reqs, j, i);
    }
  }

  /** In any order, with any duplication: once every message has arrived the cache is the leader's. */
  lemma AnyOrderSameCache(r: Replica, f: Replica, reqs: seq<IncrRequest>, delivered: seq<ReplicateMsg>)
    requires r.Serving() && r.dedup && f.store == r.store && f.dedup
    requires forall m :: m in delivered <==> m in Run(r, reqs).emitted
    ensures ApplyAll(f, delivered).store.cache == Run(r, reqs).final.store.cache
  {
    var run := Run(r, reqs);
    MessagesAgreeWithLeader(r, reqs);
    AgreeingMessagesFillCache(f, delivered, run.final.store.cache);
    forall k | k in run.final.store.cache ensures k in ApplyAll(f, delivered).store.cache {
      if k !in r.store.cache {
        NewEntriesWereSent(r, reqs, k);
      }
    }
  }

  /** The counters need not agree. None exceeds the leader's, and a counter equals the leader's exactly
      when the message about it that was created last was also delivered last. */
  lemma AnyOrderCounters(r: Replica, f: Replica, reqs: seq<IncrRequest>, delivered: seq<ReplicateMsg>, c: string)
    requires f.store == r.store && f.dedup == r.dedup
    requires forall m :: m in delivered <==> m in Run(r, reqs).emitted
    ensures var got, leader := ApplyAll(f, delivered).store, Run(r, reqs).final.store;
            && Lookup(got.counters, c) <= Lookup(leader.counters, c)
            && (Lookup(got.counters, c) == Lookup(leader.counters, c) <==>
                LastFor(delivered, c) == LastFor(Run(r, reqs).emitted, c))
  {
    var emitted := Run(r, reqs).emitted;
    CounterIsLastDelivered(f, delivered, c);
    CounterIsLastDelivered(f, emitted, c);
    InOrderFollowerAgrees(r, f, reqs);
    LastForFacts(delivered, c);
    LastForFacts(emitted, c);
    if LastFor(delivered, c).Some? {
      var m, last := LastFor(delivered, c).value, LastFor(emitted, c).value;
      ValuesWithinCounter(r, reqs, m);
      if m.newValue == last.newValue {
        SameValueSameMessage(r, reqs, m, last);
      }
    }
  }

  /** The failing family is not empty: two increments of one counter, delivered newest first. */
  lemma ReorderedCountersRegress(r: Replica, f: Replica, p: IncrRequest, q: IncrRequest)
    requires r.Serving() && r.dedup && r.store == EMPTY_STORE && f.store == r.store && f.dedup
    requires Tracked(p) && Tracked(q) && p.counterId == q.counterId && !SameOperation(p, q)
    ensures var run := Run(r, [p, q]);
            && |run.emitted| == 2
            && Lookup(run.final.store.counters, p.counterId) == 2
            && Lookup(ApplyAll(f, [run.emitted[1], run.emitted[0]]).store.counters, p.counterId) == 1
  {
    assert [p, q][..1] == [p] && [p][..0] == [];
    SameKeySameOperation(p, q);
    RunLast(r, [p]);
    RunLast(r, [p, q]);
    IncrFacts(r, p);
    IncrFacts(Run(r, [p]).final, q);
    var msgs := Run(r, [p, q]).emitted;
    assert msgs == [ReplicateFor(true, p, 1), ReplicateFor(true, q, 2)];
    assert [msgs[1], msgs[0]] == [msgs[1]] + [msgs[0]];
    ApplyUnfold(f, [msgs[1]], msgs[0]);
  }
}
