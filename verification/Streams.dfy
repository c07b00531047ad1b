/** Streams of different operations: the store after performing each once, and the stores of servers
    that have stored some of the results in some order. */
module Streams {
  import opened Messages
  import opened Replicas
  import opened ExactlyOnce

  /** A request and the value computed for it. */
  datatype Ack = Ack(req: IncrRequest, value: int)

  /** One increment with its reply recorded: no cache lookup, no gates, no replication. */
  function Once(st: Store, req: IncrRequest): Store {
    var val := Lookup(st.counters, req.counterId) + 1;
    Store(st.counters[req.counterId := val], st.cache[RequestKey(req) := IncrResponse(val, "")])
  }

  /** The store after performing each request once, in order. */
  function Reference(reqs: seq<IncrRequest>): Store {
    if reqs == [] then EMPTY_STORE
    else Once(Reference(reqs[..|reqs| - 1]), reqs[|reqs| - 1])
  }

  function Put(st: Store, q: IncrRequest, val: int): Store {
    Store(st.counters[q.counterId := val], st.cache[RequestKey(q) := IncrResponse(val, "")])
  }

  /** The store of a server in which these results have arrived one after the other. */
  function Stored(acks: seq<Ack>): Store {
    if acks == [] then EMPTY_STORE
    else
      var n := |acks| - 1;
      Put(Stored(acks[..n]), acks[n].req, acks[n].value)
  }

  /** The value that arrived last for a counter. */
  function LastValue(acks: seq<Ack>, c: string): int {
    if acks == [] then 0
    else
      var n := |acks| - 1;
      if acks[n].req.counterId == c then acks[n].value else LastValue(acks[..n], c)
  }

  /** For every counter, the newest result that has arrived also arrived last. */
  predicate NewestLast(acks: seq<Ack>) {
    forall a :: a in acks ==> a.value <= LastValue(acks, a.req.counterId)
  }

  /** With dedup off nothing is cached. */
  function Shown(dedup: bool, st: Store): Store {
    if dedup then st else Store(st.counters, map[])
  }

  function Rank(reqs: seq<IncrRequest>, q: IncrRequest): int {
    if RequestKey(q) in Reference(reqs).cache then Reference(reqs).cache[RequestKey(q)].newValue else 0
  }

  function Requests(acks: seq<Ack>): seq<IncrRequest> {
    seq(|acks|, i requires 0 <= i < |acks| => acks[i].req)
  }

  /** Every value is the rank of its request in the stream. */
  predicate Ranked(acks: seq<Ack>, reqs: seq<IncrRequest>) {
    forall a :: a in acks ==> a.req in reqs && a.value == Rank(reqs, a.req)
  }

  function Among(reqs: seq<IncrRequest>): set<IncrRequest> {
    set q | q in reqs
  }

  predicate Differ(p: IncrRequest, q: IncrRequest) {
    RequestKey(p) != RequestKey(q)
  }

  /** Different operations, all of which the cache can recognise. */
  predicate Distinct(reqs: seq<IncrRequest>) {
    && (forall i {:trigger Tracked(reqs[i])} :: 0 <= i < |reqs| ==> Tracked(reqs[i]))
    && (forall i, j {:trigger Differ(reqs[i], reqs[j])} :: 0 <= i < j < |reqs| ==> Differ(reqs[i], reqs[j]))
  }

  lemma ReferenceUnfold(reqs: seq<IncrRequest>, q: IncrRequest)
    ensures Reference(reqs + [q]) == Once(Reference(reqs), q)
  {
    assert (reqs + [q])[..|reqs|] == reqs;
  }

  lemma DistinctPrefix(reqs: seq<IncrRequest>, n: nat)
    requires Distinct(reqs) && n <= |reqs|
    ensures Distinct(reqs[..n])
    ensures n < |reqs| ==> Tracked(reqs[n]) && forall q :: q in reqs[..n] ==> RequestKey(q) != RequestKey(reqs[n])
  {
    if n < |reqs| {
      forall q | q in reqs[..n] ensures RequestKey(q) != RequestKey(reqs[n]) {
        var i :| 0 <= i < n && reqs[..n][i] == q;
        assert Differ(reqs[i], reqs[n]);
      }
    }
  }

  /** The reference caches exactly the requests it has performed. */
  lemma {:induction false} ReferenceKeys(reqs: seq<IncrRequest>, k: string)
    ensures k in Reference(reqs).cache <==> exists q :: q in reqs && RequestKey(q) == k
  {
    if reqs != [] {
      var n := |reqs| - 1;
      ReferenceKeys(reqs[..n], k);
      assert reqs == reqs[..n] + [reqs[n]];
      if RequestKey(reqs[n]) == k {
        assert reqs[n] in reqs;
      }
    }
  }

  lemma {:induction false} ReferenceCounts(reqs: seq<IncrRequest>, c: string)
    requires forall q :: q in reqs ==> Tracked(q)
    ensures c != "" ==> Lookup(Reference(reqs).counters, c) == CountFor(reqs, c)
  {
    if reqs != [] {
      var n := |reqs| - 1;
      forall q | q in reqs[..n] ensures Tracked(q) {
        assert q in reqs;
      }
      ReferenceCounts(reqs[..n], c);
      assert reqs[n] in reqs;
    }
  }

  lemma RankOfLast(reqs: seq<IncrRequest>, q: IncrRequest)
    ensures var val := Lookup(Reference(reqs).counters, q.counterId) + 1;
            && Rank(reqs + [q], q) == val
            && RequestKey(q) in Reference(reqs + [q]).cache
            && Reference(reqs + [q]).cache[RequestKey(q)] == IncrResponse(val, "")
  {
    ReferenceUnfold(reqs, q);
  }

  lemma RankUndisturbed(reqs: seq<IncrRequest>, q: IncrRequest, key: string)
    requires key in Reference(reqs).cache && key != RequestKey(q)
    ensures key in Reference(reqs + [q]).cache
    ensures Reference(reqs + [q]).cache[key] == Reference(reqs).cache[key]
  {
    ReferenceUnfold(reqs, q);
  }

  /** A request keeps its rank when the stream grows, and its rank counts those up to it. */
  lemma {:induction false} RankStays(reqs: seq<IncrRequest>, i: nat)
    requires Distinct(reqs) && i < |reqs|
    ensures Rank(reqs, reqs[i]) == Lookup(Reference(reqs[..i]).counters, reqs[i].counterId) + 1
    ensures RequestKey(reqs[i]) in Reference(reqs).cache
    ensures Reference(reqs).cache[RequestKey(reqs[i])] == IncrResponse(Rank(reqs, reqs[i]), "")
  {
    var n := |reqs| - 1;
    assert reqs == reqs[..n] + [reqs[n]];
    if i < n {
      DistinctPrefix(reqs, n);
      assert reqs[..n][i] == reqs[i] && reqs[..n][..i] == reqs[..i];
      RankStays(reqs[..n], i);
      RankUndisturbed(reqs[..n], reqs[n], RequestKey(reqs[i]));
    } else {
      RankOfLast(reqs[..n], reqs[n]);
    }
  }

  lemma OccursOnce(reqs: seq<IncrRequest>, i: nat)
    requires Distinct(reqs) && i < |reqs|
    ensures reqs[i] !in reqs[..i] && reqs[..i + 1] == reqs[..i] + [reqs[i]]
    ensures forall j :: i < j < |reqs| ==> reqs[j] != reqs[i]
  {
    DistinctPrefix(reqs, i);
    forall j | i < j < |reqs| ensures reqs[j] != reqs[i] {
      assert Differ(reqs[i], reqs[j]);
    }
  }

  lemma RankIsCount(reqs: seq<IncrRequest>, i: nat)
    requires Distinct(reqs) && i < |reqs|
    ensures Rank(reqs, reqs[i]) == CountFor(reqs[..i + 1], reqs[i].counterId)
  {
    RankStays(reqs, i);
    DistinctPrefix(reqs, i);
    forall q | q in reqs[..i] ensures Tracked(q) {
    }
    ReferenceCounts(reqs[..i], reqs[i].counterId);
    assert reqs[..i + 1][..i] == reqs[..i];
  }

  lemma {:induction false} CountGrows(reqs: seq<IncrRequest>, i: nat, c: string)
    requires i <= |reqs|
    ensures CountFor(reqs[..i], c) <= CountFor(reqs, c)
  {
    if i == |reqs| {
      assert reqs[..i] == reqs;
    } else {
      var n := |reqs| - 1;
      CountGrows(reqs[..n], i, c);
      assert reqs[..n][..i] == reqs[..i];
    }
  }

  lemma CountUpTo(reqs: seq<IncrRequest>, j: nat)
    requires j < |reqs| && reqs[j].counterId != ""
    ensures CountFor(reqs[..j + 1], reqs[j].counterId) == CountFor(reqs[..j], reqs[j].counterId) + 1
  {
    assert reqs[..j + 1][..j] == reqs[..j];
  }

  /** Of two requests for one counter the later has the higher rank. */
  lemma RanksGrow(reqs: seq<IncrRequest>, i: nat, j: nat)
    requires Distinct(reqs) && i < j < |reqs| && reqs[i].counterId == reqs[j].counterId
    ensures Rank(reqs, reqs[i]) < Rank(reqs, reqs[j])
  {
    RankIsCount(reqs, i);
    RankIsCount(reqs, j);
    DistinctPrefix(reqs, j);
    CountUpTo(reqs, j);
    CountGrows(reqs[..j], i + 1, reqs[i].counterId);
    assert reqs[..j][..i + 1] == reqs[..i + 1];
  }

  lemma IndexOf(reqs: seq<IncrRequest>, q: IncrRequest) returns (i: nat)
    requires q in reqs
    ensures i < |reqs| && reqs[i] == q
  {
    i :| 0 <= i < |reqs| && reqs[i] == q;
  }

  /** Requests of a stream are told apart by their keys. */
  lemma KeysTellApart(reqs: seq<IncrRequest>, p: IncrRequest, q: IncrRequest)
    requires Distinct(reqs) && p in reqs && q in reqs
    ensures p != q ==> RequestKey(p) != RequestKey(q)
  {
    if p != q {
      var i := IndexOf(reqs, p);
      var j := IndexOf(reqs, q);
      assert i < j ==> Differ(reqs[i], reqs[j]);
      assert j < i ==> Differ(reqs[j], reqs[i]);
    }
  }

  // ---- arrivals ---------------------------------------------------------------------------

  lemma RequestsUnfold(acks: seq<Ack>, a: Ack)
    ensures Requests(acks + [a]) == Requests(acks) + [a.req]
    ensures Among(Requests(acks + [a])) == Among(Requests(acks)) + {a.req}
  {
    assert Requests(acks + [a]) == Requests(acks) + [a.req];
  }

  lemma StoredUnfold(acks: seq<Ack>, a: Ack)
    ensures Stored(acks + [a]) == Put(Stored(acks), a.req, a.value)
    ensures forall c :: LastValue(acks + [a], c) == if c == a.req.counterId then a.value else LastValue(acks, c)
  {
    assert (acks + [a])[..|acks|] == acks;
  }

  lemma ArrivedRequest(acks: seq<Ack>, q: IncrRequest) returns (a: Ack)
    requires q in Requests(acks)
    ensures a in acks && a.req == q
  {
    var i :| 0 <= i < |Requests(acks)| && Requests(acks)[i] == q;
    a := acks[i];
  }

  lemma InRequests(acks: seq<Ack>, a: Ack)
    requires a in acks
    ensures a.req in Requests(acks)
  {
    var i :| 0 <= i < |acks| && acks[i] == a;
    assert Requests(acks)[i] == a.req;
  }

  lemma {:induction false} CounterIsLastValue(acks: seq<Ack>, c: string)
    ensures Lookup(Stored(acks).counters, c) == LastValue(acks, c)
    ensures c in Stored(acks).counters <==> exists a :: a in acks && a.req.counterId == c
    ensures c in Stored(acks).counters ==>
              exists a :: a in acks && a.req.counterId == c && a.value == LastValue(acks, c)
  {
    if acks != [] {
      var n := |acks| - 1;
      CounterIsLastValue(acks[..n], c);
      assert acks == acks[..n] + [acks[n]];
      assert acks[n] in acks;
    }
  }

  /** Whatever the order of arrival, the cache has the rank of every request that has arrived. */
  lemma {:induction false} StoredCaches(acks: seq<Ack>, reqs: seq<IncrRequest>, q: IncrRequest)
    requires Distinct(reqs) && Ranked(acks, reqs) && q in reqs
    ensures RequestKey(q) in Stored(acks).cache <==> q in Requests(acks)
    ensures q in Requests(acks) ==> Stored(acks).cache[RequestKey(q)] == IncrResponse(Rank(reqs, q), "")
  {
    if acks != [] {
      var n := |acks| - 1;
      assert acks == acks[..n] + [acks[n]];
      assert acks[n] in acks;
      StoredCaches(acks[..n], reqs, q);
      RequestsUnfold(acks[..n], acks[n]);
      KeysTellApart(reqs, acks[n].req, q);
    }
  }

  lemma {:induction false} StoredKeyArrived(acks: seq<Ack>, k: string)
    requires k in Stored(acks).cache
    ensures exists a :: a in acks && RequestKey(a.req) == k
  {
    var n := |acks| - 1;
    assert acks[n] in acks;
    if k in Stored(acks[..n]).cache {
      StoredKeyArrived(acks[..n], k);
      var a :| a in acks[..n] && RequestKey(a.req) == k;
      assert a in acks;
    }
  }

  // ---- being level with the stream --------------------------------------------------------

  lemma RankInFront(reqs: seq<IncrRequest>, n: nat, q: IncrRequest)
    requires Distinct(reqs) && n <= |reqs| && q in reqs[..n]
    ensures q in reqs && RequestKey(q) in Reference(reqs[..n]).cache
    ensures Reference(reqs[..n]).cache[RequestKey(q)] == IncrResponse(Rank(reqs, q), "")
  {
    var i := IndexOf(reqs[..n], q);
    assert reqs[i] == q && reqs[..n][..i] == reqs[..i];
    DistinctPrefix(reqs, n);
    RankStays(reqs[..n], i);
    RankStays(reqs, i);
  }

  /** A server in which exactly the first n requests have arrived, in any order, has their cache. */
  lemma CachesAgree(acks: seq<Ack>, reqs: seq<IncrRequest>, n: nat)
    requires Distinct(reqs) && Ranked(acks, reqs) && n <= |reqs| && Among(Requests(acks)) == Among(reqs[..n])
    ensures Stored(acks).cache == Reference(reqs[..n]).cache
  {
    var got, want := Stored(acks).cache, Reference(reqs[..n]).cache;
    forall k | k in got ensures k in want {
      StoredKeyArrived(acks, k);
      var a :| a in acks && RequestKey(a.req) == k;
      InRequests(acks, a);
      assert a.req in Among(reqs[..n]);
      RankInFront(reqs, n, a.req);
    }
    forall k | k in want ensures k in got && got[k] == want[k] {
      ReferenceKeys(reqs[..n], k);
      var q :| q in reqs[..n] && RequestKey(q) == k;
      assert q in Among(Requests(acks));
      RankInFront(reqs, n, q);
      StoredCaches(acks, reqs, q);
    }
  }

  /** A counter of the reference is no lower than the ranks of its requests. */
  lemma {:induction false} RankWithinCounter(reqs: seq<IncrRequest>, n: nat, i: nat)
    requires Distinct(reqs) && i < n <= |reqs|
    ensures var counters := Reference(reqs[..n]).counters;
            reqs[i].counterId in counters && Rank(reqs, reqs[i]) <= counters[reqs[i].counterId]
  {
    assert reqs[..n] == reqs[..n - 1] + [reqs[n - 1]];
    ReferenceUnfold(reqs[..n - 1], reqs[n - 1]);
    if i < n - 1 {
      RankWithinCounter(reqs, n - 1, i);
    } else {
      RankStays(reqs, i);
    }
  }

  /** And it is the rank of one of them. */
  lemma {:induction false} CounterIsRank(reqs: seq<IncrRequest>, n: nat, c: string) returns (i: nat)
    requires Distinct(reqs) && n <= |reqs| && c in Reference(reqs[..n]).counters
    ensures i < n && reqs[i].counterId == c && Rank(reqs, reqs[i]) == Reference(reqs[..n]).counters[c]
  {
    assert n > 0 && reqs[..n] == reqs[..n - 1] + [reqs[n - 1]];
    ReferenceUnfold(reqs[..n - 1], reqs[n - 1]);
    if reqs[n - 1].counterId == c {
      RankStays(reqs, n - 1);
      i := n - 1;
    } else {
      i := CounterIsRank(reqs, n - 1, c);
    }
  }

  lemma CountersAgree(acks: seq<Ack>, reqs: seq<IncrRequest>, n: nat, c: string)
    requires Distinct(reqs) && Ranked(acks, reqs) && n <= |reqs| && Among(Requests(acks)) == Among(reqs[..n])
    ensures c in Stored(acks).counters <==> c in Reference(reqs[..n]).counters
    ensures c in Stored(acks).counters ==> LastValue(acks, c) <= Reference(reqs[..n]).counters[c]
    ensures NewestLast(acks) && c in Stored(acks).counters ==> LastValue(acks, c) == Reference(reqs[..n]).counters[c]
  {
    CounterIsLastValue(acks, c);
    if c in Stored(acks).counters {
      var a :| a in acks && a.req.counterId == c && a.value == LastValue(acks, c);
      ArrivedWithin(acks, reqs, n, a);
    }
    if c in Reference(reqs[..n]).counters {
      var i := CounterIsRank(reqs, n, c);
      assert reqs[..n][i] == reqs[i];
      assert reqs[i] in Among(Requests(acks));
      var a := ArrivedRequest(acks, reqs[i]);
    }
  }

  lemma ArrivedWithin(acks: seq<Ack>, reqs: seq<IncrRequest>, n: nat, a: Ack)
    requires Distinct(reqs) && Ranked(acks, reqs) && n <= |reqs| && Among(Requests(acks)) == Among(reqs[..n])
    requires a in acks
    ensures a.req.counterId in Reference(reqs[..n]).counters
    ensures a.value <= Reference(reqs[..n]).counters[a.req.counterId]
  {
    InRequests(acks, a);
    assert a.req in Among(reqs[..n]);
    var i := IndexOf(reqs[..n], a.req);
    assert reqs[i] == a.req;
    RankWithinCounter(reqs, n, i);
  }

  /** Level with the first n requests, when exactly these have arrived: iff the newest arrived last. */
  lemma LevelIff(acks: seq<Ack>, reqs: seq<IncrRequest>, n: nat)
    requires Distinct(reqs) && Ranked(acks, reqs) && n <= |reqs| && Among(Requests(acks)) == Among(reqs[..n])
    ensures Stored(acks).cache == Reference(reqs[..n]).cache
    ensures Stored(acks).counters == Reference(reqs[..n]).counters <==> NewestLast(acks)
  {
    var got, want := Stored(acks).counters, Reference(reqs[..n]).counters;
    CachesAgree(acks, reqs, n);
    forall c ensures c in got <==> c in want {
      CountersAgree(acks, reqs, n, c);
    }
    if NewestLast(acks) {
      forall c | c in got ensures got[c] == want[c] {
        CountersAgree(acks, reqs, n, c);
        CounterIsLastValue(acks, c);
      }
    }
    if got == want {
      forall a | a in acks ensures a.value <= LastValue(acks, a.req.counterId) {
        NoneAbove(acks, reqs, n, a);
      }
    }
  }

  lemma NoneAbove(acks: seq<Ack>, reqs: seq<IncrRequest>, n: nat, a: Ack)
    requires Distinct(reqs) && Ranked(acks, reqs) && n <= |reqs| && Among(Requests(acks)) == Among(reqs[..n])
    requires a in acks && Stored(acks).counters == Reference(reqs[..n]).counters
    ensures a.value <= LastValue(acks, a.req.counterId)
  {
    ArrivedWithin(acks, reqs, n, a);
    CounterIsLastValue(acks, a.req.counterId);
  }

  /** Of the requests for a counter the last has the highest rank. */
  lemma LastRanksHighest(reqs: seq<IncrRequest>, q: IncrRequest)
    requires Distinct(reqs) && reqs != [] && q in reqs && q.counterId == reqs[|reqs| - 1].counterId
    ensures Rank(reqs, q) <= Rank(reqs, reqs[|reqs| - 1])
  {
    var i := IndexOf(reqs, q);
    if i < |reqs| - 1 {
      RanksGrow(reqs, i, |reqs| - 1);
    }
  }

  /** The result of the last request of the stream may arrive after any others. */
  lemma NewestMayArrive(acks: seq<Ack>, reqs: seq<IncrRequest>, a: Ack)
    requires Distinct(reqs) && reqs != [] && Ranked(acks, reqs) && NewestLast(acks)
    requires a.req == reqs[|reqs| - 1] && a.value == Rank(reqs, a.req)
    ensures NewestLast(acks + [a])
  {
    StoredUnfold(acks, a);
    forall b | b in acks + [a] ensures b.value <= LastValue(acks + [a], b.req.counterId) {
      if b in acks && b.req.counterId == a.req.counterId {
        LastRanksHighest(reqs, b.req);
      }
    }
  }
}
