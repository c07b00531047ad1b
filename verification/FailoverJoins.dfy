/** A server that starts while Replicate messages are under way: what it knows, then and ever after. */
module FailoverJoins {
  import opened Messages
  import opened CacheKeys
  import opened Membership
  import opened Replicas
  import opened Streams
  import opened Failover
  import opened StateTransfer

  /** j, which was down, has pulled its state from the live server d and starts serving. Nothing that was
      sent before is on its way to j. */
  predicate MayJoin(s: System, j: string, d: string, order: seq<string>) {
    && j in s.replicas && j !in s.live && d in s.live && d in s.replicas
    && AsSet(order) == s.replicas[d].store.cache.Keys
  }

  function Join(s: System, j: string, d: string, order: seq<string>): System
    requires MayJoin(s, j, d, order)
  {
    var donor := s.replicas[d];
    s.(live := s.live + {j}, replicas := s.replicas[j := Joined(j, donor.all, s.dedup, Some(donor), order)],
       pending := s.pending[j := {}], arrived := s.arrived[j := Arrived(s, d)])
  }

  lemma StoresAreCanonical(s: System, d: string)
    requires Inv(s) && d in s.live && d in s.replicas
    ensures CanonicalCache(s.replicas[d].store.cache)
  {
    forall k | k in s.replicas[d].store.cache ensures Canonical(k) {
      StoredKeyArrived(Arrived(s, d), k);
      var a :| a in Arrived(s, d) && RequestKey(a.req) == k;
      assert Ranked(Arrived(s, d), s.issued);
      TrackedMembers(s.issued);
      StoredKeysAreCanonical(a.req.clientId, a.req.requestId);
    }
  }

  lemma JoinerCopies(s: System, j: string, d: string, order: seq<string>)
    requires Inv(s) && MayJoin(s, j, d, order)
    ensures Join(s, j, d, order).replicas[j].store == s.replicas[d].store
    ensures j != s.leader && Join(s, j, d, order).replicas[j].dedup == s.dedup
  {
    StoresAreCanonical(s, d);
    CacheCopiedIff(s.replicas[d], j, s.dedup, order);
    JoinedView(j, s.replicas[d].all, s.dedup, Some(s.replicas[d]), order);
  }

  // ---- at the join ------------------------------------------------------------------------

  lemma SameCacheSameHeld(s: System, d: string)
    requires Inv(s) && s.dedup && d in s.live && s.replicas[d].store.cache == s.replicas[s.leader].store.cache
    ensures Held(s, d) == Held(s, s.leader)
  {
    HeldAreIssued(s, d);
    HeldAreIssued(s, s.leader);
    forall q | q in s.issued ensures q in Held(s, d) <==> q in Held(s, s.leader) {
      StoredCaches(Arrived(s, d), s.issued, q);
      StoredCaches(Arrived(s, s.leader), s.issued, q);
    }
  }

  /** In every safe run with dedup on: a server that joins is level with the leader iff its donor has
      received exactly what the leader has applied, and the newest message about each counter last. */
  lemma JoinerIsLevelIff(s0: System, actions: seq<Action>, j: string, d: string, order: seq<string>)
    requires Initial(s0) && s0.dedup && EveryStepSafe(s0, actions)
    requires MayJoin(Exec(s0, actions), j, d, order)
    ensures var s := Exec(s0, actions);
            s.leader in s.replicas &&
            (Join(s, j, d, order).replicas[j].store == s.replicas[s.leader].store <==>
               Held(s, d) == Held(s, s.leader) && NewestLast(Arrived(s, d)))
  {
    var s := Exec(s0, actions);
    RunInv(s0, actions);
    DedupStays(s0, actions);
    JoinerCopies(s, j, d, order);
    if Held(s, d) == Held(s, s.leader) {
      LevelIff(Arrived(s, d), s.issued, Applied(s));
    } else {
      var same := s.replicas[d].store.cache == s.replicas[s.leader].store.cache;
      if same {
        SameCacheSameHeld(s, d);
      }
    }
  }

  // ---- ever after -------------------------------------------------------------------------

  /** j does not know the operation, the leader does, and no message on its way to j tells. */
  predicate Missed(s: System, j: string, key: string) {
    && s.leader in s.replicas && s.leader != j && j in s.replicas && s.replicas[s.leader].dedup
    && key in s.replicas[s.leader].store.cache && key !in s.replicas[j].store.cache
    && (forall p :: p in Pending(s, j) && p.msg.clientId != "" ==> MessageKey(p.msg) != key)
  }

  lemma IncrKeepsKnown(r: Replica, req: IncrRequest, key: string)
    requires r.dedup && key in r.store.cache
    ensures var step := HandleIncr(r, req);
            && step.next.dedup && key in step.next.store.cache
            && (step.emitted.Some? && step.emitted.value.clientId != "" ==> MessageKey(step.emitted.value) != key)
  {
  }

  lemma ServeKeepsMissed(s: System, j: string, key: string)
    requires Missed(s, j, key)
    ensures Missed(Step(s, Serve), j, key)
  {
    if s.call.Some? {
      IncrKeepsKnown(s.replicas[s.leader], s.call.value, key);
      var s' := Step(s, Serve);
      var step := HandleIncr(s.replicas[s.leader], s.call.value);
      forall p | p in Pending(s', j) && p.msg.clientId != "" ensures MessageKey(p.msg) != key {
        assert p in Pending(s, j) || p.msg == step.emitted.value;
      }
    }
  }

  lemma StepKeepsMissed(s: System, j: string, key: string, a: Action)
    requires Missed(s, j, key) && !a.LeaderCrash?
    ensures Missed(Step(s, a), j, key)
  {
    if a.Serve? {
      ServeKeepsMissed(s, j, key);
    } else {
      var s' := Step(s, a);
      forall p | p in Pending(s', j) ensures p in Pending(s, j) {
      }
    }
  }

  lemma {:induction false} RunKeepsMissed(s: System, j: string, key: string, actions: seq<Action>)
    requires Missed(s, j, key) && NoLeaderCrash(actions)
    ensures Missed(Exec(s, actions), j, key)
  {
    if actions != [] {
      RunKeepsMissed(s, j, key, actions[..|actions| - 1]);
      StepKeepsMissed(Exec(s, actions[..|actions| - 1]), j, key, actions[|actions| - 1]);
    }
  }

  predicate Known(s: System, j: string, key: string) {
    j in s.replicas && j != s.leader && key in s.replicas[j].store.cache
  }

  lemma StepKeepsKnown(s: System, j: string, key: string, a: Action)
    requires Known(s, j, key) && !a.LeaderCrash?
    ensures Known(Step(s, a), j, key)
  {
  }

  lemma {:induction false} RunKeepsKnown(s: System, j: string, key: string, actions: seq<Action>)
    requires Known(s, j, key) && NoLeaderCrash(actions)
    ensures Known(Exec(s, actions), j, key)
  {
    if actions != [] {
      RunKeepsKnown(s, j, key, actions[..|actions| - 1]);
      StepKeepsKnown(Exec(s, actions[..|actions| - 1]), j, key, actions[|actions| - 1]);
    }
  }

  /** In every safe run with dedup on, for a request that the leader has applied before the join: for as
      long as that leader leads, the joiner knows it iff its donor had received it at the join. What was
      on its way to the donor then, the joiner misses for good, acknowledged or not. */
  lemma JoinerKnowsIff(s0: System, before: seq<Action>, j: string, d: string, order: seq<string>,
                       after: seq<Action>, q: IncrRequest)
    requires Initial(s0) && s0.dedup && EveryStepSafe(s0, before) && NoLeaderCrash(after)
    requires var s := Exec(s0, before); MayJoin(s, j, d, order) && q in Held(s, s.leader)
    ensures var s := Exec(s0, before);
            var end := Exec(Join(s, j, d, order), after);
            j in end.replicas && (RequestKey(q) in end.replicas[j].store.cache <==> q in Held(s, d))
  {
    var s := Exec(s0, before);
    RunInv(s0, before);
    DedupStays(s0, before);
    JoinerCopies(s, j, d, order);
    HeldAreIssued(s, s.leader);
    StoredCaches(Arrived(s, s.leader), s.issued, q);
    StoredCaches(Arrived(s, d), s.issued, q);
    var s1 := Join(s, j, d, order);
    if q in Held(s, d) {
      RunKeepsKnown(s1, j, RequestKey(q), after);
    } else {
      RunKeepsMissed(s1, j, RequestKey(q), after);
    }
  }
}
