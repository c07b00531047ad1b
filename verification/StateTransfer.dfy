/** State transfer to a joining replica: a snapshot round trip through printed cache keys, in every run
    of the cluster. */
module StateTransfer {
  import opened Messages
  import opened CacheKeys
  import opened Membership
  import opened Replicas
  import opened ViewChanges

  predicate CanonicalCache(cache: map<string, IncrResponse>) {
    forall k {:trigger Canonical(k)} :: k in cache ==> Canonical(k)
  }

  // ---- the run invariant on keys ----------------------------------------------------------

  lemma IncrKeepsCanonical(r: Replica, req: IncrRequest)
    requires CanonicalCache(r.store.cache)
    ensures CanonicalCache(HandleIncr(r, req).next.store.cache)
  {
    if req.clientId != "" {
      StoredKeysAreCanonical(req.clientId, req.requestId);
    }
  }

  lemma ReplicateKeepsCanonical(r: Replica, msg: ReplicateMsg)
    requires CanonicalCache(r.store.cache)
    ensures CanonicalCache(HandleReplicate(r, msg).store.cache)
  {
    if msg.clientId != "" {
      StoredKeysAreCanonical(msg.clientId, msg.requestId);
    }
  }

  lemma {:induction false} EntriesKeepCanonical(cache: map<string, IncrResponse>, entries: seq<CacheEntry>)
    requires CanonicalCache(cache)
    ensures CanonicalCache(ApplyEntries(cache, entries))
  {
    if entries != [] {
      var n := |entries| - 1;
      EntriesKeepCanonical(cache, entries[..n]);
      if entries[n].clientId != "" {
        StoredKeysAreCanonical(entries[n].clientId, entries[n].requestId);
      }
    }
  }

  lemma TransferKeepsCanonical(r: Replica, resp: TransferResp)
    requires CanonicalCache(r.store.cache)
    ensures CanonicalCache(HandleTransfer(r, resp).store.cache)
  {
    EntriesKeepCanonical(r.store.cache, resp.cache);
  }

  /** Keys are canonical, and with dedup off there are none. */
  predicate CacheOk(r: Replica) {
    CanonicalCache(r.store.cache) && (!r.dedup ==> r.store.cache == map[])
  }

  lemma StepKeepsCanonical(c: Cluster, a: Action, s: string)
    requires s in c.replicas && CacheOk(c.replicas[s])
    ensures s in Step(c, a).replicas && CacheOk(Step(c, a).replicas[s])
  {
    if Enabled(c, a) {
      match a
      case Incr(_, req) => IncrKeepsCanonical(c.replicas[s], req);
      case Replicate(_, msg) => ReplicateKeepsCanonical(c.replicas[s], msg);
      case Join(t, donor, order) =>
        if t == s && donor.Some? {
          var r := c.replicas[s];
          TransferKeepsCanonical(FreshReplica(s, r.all, r.dedup), Snapshot(c.replicas[donor.value], order));
        }
      case _ =>
    }
  }

  /** In every run of the cluster, joins included, every server's cache holds canonical keys only. */
  lemma {:induction false} RunKeepsCanonical(all: Members, dedup: bool, actions: seq<Action>, s: string)
    requires s in Exec(Start(all, dedup), actions).replicas
    ensures CacheOk(Exec(Start(all, dedup), actions).replicas[s])
  {
    if actions != [] {
      var n := |actions| - 1;
      var c := Exec(Start(all, dedup), actions[..n]);
      assert s in c.replicas;
      RunKeepsCanonical(all, dedup, actions[..n], s);
      StepKeepsCanonical(c, actions[n], s);
    }
  }

  // ---- the copy ---------------------------------------------------------------------------

  lemma ApplyLast(cache: map<string, IncrResponse>, entries: seq<CacheEntry>, e: CacheEntry)
    requires e.clientId != "" && e.response.Some?
    ensures ApplyEntries(cache, entries + [e]) ==
            ApplyEntries(cache, entries)[CacheKey(e.clientId, e.requestId) := e.response.value]
  {
    assert (entries + [e])[..|entries|] == entries;
  }

  /** Printing an entry back under its parsed key stores it under the key it came from. */
  lemma ListLast(cache: map<string, IncrResponse>, order: seq<string>, k: string)
    requires Canonical(k) && k in cache && forall x :: x in order ==> x in cache
    ensures ApplyEntries(map[], EntriesOf(order + [k], cache)) ==
            ApplyEntries(map[], EntriesOf(order, cache))[k := cache[k]]
  {
    var key := ParseKey(k).value;
    assert (order + [k])[..|order|] == order;
    ApplyLast(map[], EntriesOf(order, cache), CacheEntry(key.clientId, key.requestId, Some(cache[k])));
  }

  /** Listing part of a canonical cache and applying the list rebuilds exactly that part. */
  lemma {:induction false} EntriesRoundTrip(cache: map<string, IncrResponse>, order: seq<string>)
    requires CanonicalCache(cache) && forall k :: k in order ==> k in cache
    ensures var got := ApplyEntries(map[], EntriesOf(order, cache));
            && (forall k :: k in got <==> k in order)
            && (forall k :: k in got ==> got[k] == cache[k])
  {
    if order != [] {
      var n := |order| - 1;
      EntriesRoundTrip(cache, order[..n]);
      assert order == order[..n] + [order[n]];
      assert Canonical(order[n]);
      ListLast(cache, order[..n], order[n]);
    }
  }

  lemma SnapshotRestoresCache(donor: Replica, order: seq<string>)
    requires CanonicalCache(donor.store.cache) && AsSet(order) == donor.store.cache.Keys
    ensures ApplyEntries(map[], Snapshot(donor, order).cache) == donor.store.cache
  {
    forall k ensures k in order <==> k in donor.store.cache {
      assert k in AsSet(order) <==> k in order;
    }
    EntriesRoundTrip(donor.store.cache, order);
  }

  lemma {:induction false} ApplyOverlays(cache: map<string, IncrResponse>, entries: seq<CacheEntry>)
    ensures ApplyEntries(cache, entries) == cache + ApplyEntries(map[], entries)
  {
    if entries != [] {
      ApplyOverlays(cache, entries[..|entries| - 1]);
    } else {
      assert cache + map[] == cache;
    }
  }

  /** Whatever the receiver holds already: the donor's counters and, with dedup on, its cache win over its
      own, and what the donor does not have is kept; a donor in view 0 leaves its view alone. */
  lemma TransferOverlays(r: Replica, donor: Replica, order: seq<string>)
    requires CanonicalCache(donor.store.cache) && AsSet(order) == donor.store.cache.Keys
    ensures var r' := HandleTransfer(r, Snapshot(donor, order));
            && r'.store.counters == r.store.counters + donor.store.counters
            && r'.store.cache == (if r.dedup then r.store.cache + donor.store.cache else r.store.cache)
            && r'.view.changing == r.view.changing && r'.view.votes == r.view.votes
            && (if donor.view.number == 0 then r'.view == r.view
                else r'.view.number == donor.view.number
                     && r'.view.leader == r.all[donor.view.number % |r.all|])
  {
    SnapshotRestoresCache(donor, order);
    ApplyOverlays(r.store.cache, Snapshot(donor, order).cache);
  }

  /** A joiner ends with the donor's counters, view number and leader. It gets the donor's cache,
      whatever order that was listed in, exactly when it runs with dedup on or there is none to copy. */
  lemma CacheCopiedIff(donor: Replica, self: string, dedup: bool, order: seq<string>)
    requires CanonicalCache(donor.store.cache) && AsSet(order) == donor.store.cache.Keys
    ensures var joined := Joined(self, donor.all, dedup, Some(donor), order);
            && joined.store.counters == donor.store.counters
            && (joined.store.cache == donor.store.cache <==> dedup || donor.store.cache == map[])
  {
    SnapshotRestoresCache(donor, order);
    assert map[] + donor.store.counters == donor.store.counters;
  }

  /** In every run, whether the donor itself has joined before or not: a server that joins from it has
      exactly the donor's store, view number and leader, for every listing order of the cache. */
  lemma JoinerCopiesDonor(all: Members, dedup: bool, actions: seq<Action>, s: string, d: string, order: seq<string>)
    requires Enabled(Exec(Start(all, dedup), actions), Join(s, Some(d), order))
    ensures var c := Exec(Start(all, dedup), actions);
            var c' := Step(c, Join(s, Some(d), order));
            && s in c'.replicas && c'.replicas[s].store == c.replicas[d].store
            && c'.replicas[s].view.number == c.replicas[d].view.number
            && c'.replicas[s].view.leader == c.replicas[d].view.leader
            && s in c'.live && c'.replicas == c.replicas[s := c'.replicas[s]]
  {
    var c := Exec(Start(all, dedup), actions);
    RunKeepsLeaders(all, dedup, actions);
    RunKeepsCanonical(all, dedup, actions, d);
    assert FollowsView(c.replicas[s], s, all, dedup) && FollowsView(c.replicas[d], d, all, dedup);
    CacheCopiedIff(c.replicas[d], s, dedup, order);
    JoinedView(s, all, dedup, Some(c.replicas[d]), order);
  }
}
