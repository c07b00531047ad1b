/** A client with one outstanding request that it may send again at any time, Replicate messages that
    arrive in any order, and any number of crashes: when every issued request takes effect exactly once. */
module Failover {
  import opened Messages
  import opened Replicas
  import opened ExactlyOnce
  import opened Streams

  /** A Replicate message, with the request it was sent for. */
  datatype Parcel = Parcel(req: IncrRequest, msg: ReplicateMsg)

  /** call is the outstanding request and done the acknowledged ones in order. pending holds what the
      leader has sent to each follower and not yet been delivered, and handlers the invocations at the
      leader that wait for their deliveries.
      History: arrived is what has reached each server's store, in order, computed the values leaders
      have computed, cacheAcked the requests acknowledged by an answer from a cache. */
  datatype System = System(
    replicas: map<string, Replica>,
    live: set<string>,
    leader: string,
    dedup: bool,
    pending: map<string, set<Parcel>>,
    handlers: set<Parcel>,
    call: Option<IncrRequest>,
    issued: seq<IncrRequest>,
    done: seq<Ack>,
    arrived: map<string, seq<Ack>>,
    computed: set<Ack>,
    cacheAcked: set<IncrRequest>)

  datatype Action =
    | Issue(req: IncrRequest)
    | Serve
    | Deliver(to: string, parcel: Parcel)
    | Finish(parcel: Parcel)
    | FollowerCrash(server: string)
    | LeaderCrash(next: string, views: map<string, ViewState>)

  function Pending(s: System, f: string): set<Parcel> {
    if f in s.pending then s.pending[f] else {}
  }

  function Arrived(s: System, f: string): seq<Ack> {
    if f in s.arrived then s.arrived[f] else []
  }

  function Held(s: System, f: string): set<IncrRequest> {
    Among(Requests(Arrived(s, f)))
  }

  /** Servers of one cluster, none of which has handled anything yet. */
  predicate Initial(s: System) {
    && s.leader in s.live && s.live <= s.replicas.Keys
    && (forall f :: f in s.replicas ==>
          s.replicas[f].self == f && s.replicas[f].dedup == s.dedup && s.replicas[f].store == EMPTY_STORE)
    && s.replicas[s.leader].Serving()
    && s.pending == map[] && s.handlers == {} && s.call == None && s.issued == [] && s.done == []
    && s.arrived == map[] && s.computed == {} && s.cacheAcked == {}
  }

  function Reviewed(r: Replica, f: string, views: map<string, ViewState>): Replica {
    if f in views then r.(view := views[f]) else r
  }

  function Review(replicas: map<string, Replica>, views: map<string, ViewState>): map<string, Replica> {
    map f | f in replicas :: Reviewed(replicas[f], f, views)
  }

  predicate Fresh(s: System, req: IncrRequest) {
    Tracked(req) && forall i :: 0 <= i < |s.issued| ==> !SameOperation(s.issued[i], req)
  }

  predicate Enabled(s: System, a: Action) {
    match a
    case Issue(req) => s.call.None? && Fresh(s, req)
    case Serve => s.call.Some? && s.leader in s.replicas
    case Deliver(f, p) => f in s.live && f != s.leader && f in s.replicas && p in Pending(s, f)
    case Finish(p) =>
      && p in s.handlers && s.call == Some(p.req)
      && forall f :: f in s.live && f != s.leader ==> p !in Pending(s, f)
    case FollowerCrash(f) => f in s.live && f != s.leader
    case LeaderCrash(next, views) =>
      && next in s.live && next != s.leader && next in s.replicas
      && Reviewed(s.replicas[next], next, views).Serving()
  }

  /** The leader handles the outstanding request, whether it comes for the first time or again. An
      answer from the cache is acknowledged at once and sends nothing. */
  function ServeStep(s: System): System
    requires Enabled(s, Serve)
  {
    var q := s.call.value;
    var step := HandleIncr(s.replicas[s.leader], q);
    var s' := s.(replicas := s.replicas[s.leader := step.next]);
    match step.emitted
    case Some(msg) =>
      s'.(pending := map f | f in s.live && f != s.leader :: Pending(s, f) + {Parcel(q, msg)},
          handlers := s.handlers + {Parcel(q, msg)},
          arrived := s.arrived[s.leader := Arrived(s, s.leader) + [Ack(q, msg.newValue)]],
          computed := s.computed + {Ack(q, msg.newValue)})
    case None =>
      if step.outcome.Answered? && step.outcome.resp.redirectTo == ""
      then s'.(call := None, done := s.done + [Ack(q, step.outcome.resp.newValue)], cacheAcked := s.cacheAcked + {q})
      else s'
  }

  function Step(s: System, a: Action): System {
    if !Enabled(s, a) then s
    else
      match a
      case Issue(req) => s.(call := Some(req), issued := s.issued + [req])
      case Serve => ServeStep(s)
      case Deliver(f, p) =>
        s.(replicas := s.replicas[f := HandleReplicate(s.replicas[f], p.msg)],
           pending := s.pending[f := Pending(s, f) - {p}],
           arrived := s.arrived[f := Arrived(s, f) + [Ack(p.req, p.msg.newValue)]])
      case Finish(p) => s.(call := None, done := s.done + [Ack(p.req, p.msg.newValue)])
      case FollowerCrash(f) => s.(live := s.live - {f})
      // The leader dies with its undelivered messages, and some live server becomes the serving
      // leader with whatever views the election left.
      case LeaderCrash(next, views) =>
        s.(live := s.live - {s.leader}, leader := next, replicas := Review(s.replicas, views),
           pending := map[], handlers := {})
  }

  function Exec(s: System, actions: seq<Action>): System {
    if actions == [] then s
    else Step(Exec(s, actions[..|actions| - 1]), actions[|actions| - 1])
  }

  // ---- one server against the stream ------------------------------------------------------

  /** The Replicate message of an issued request. */
  predicate IsMessage(dedup: bool, issued: seq<IncrRequest>, p: Parcel) {
    p.req in issued && p.msg == ReplicateFor(dedup, p.req, Rank(issued, p.req))
  }

  lemma StoresMessage(r: Replica, st: Store, q: IncrRequest, val: int)
    requires r.store == Shown(r.dedup, st) && Tracked(q)
    ensures HandleReplicate(r, ReplicateFor(r.dedup, q, val)).store == Shown(r.dedup, Put(st, q, val))
    ensures ReplicateFor(r.dedup, q, val).newValue == val
  {
  }

  /** Level with the first m requests and nothing else. */
  predicate Level(r: Replica, issued: seq<IncrRequest>, held: set<IncrRequest>, m: nat) {
    m <= |issued| && r.store == Shown(r.dedup, Reference(issued[..m])) && held == Among(issued[..m])
  }

  lemma LeaderApplies(r: Replica, issued: seq<IncrRequest>, held: set<IncrRequest>)
    requires Distinct(issued) && issued != [] && r.Serving() && Level(r, issued, held, |issued| - 1)
    ensures var n := |issued| - 1;
            var q, step := issued[n], HandleIncr(r, issued[n]);
            && q !in held
            && step.emitted == Some(ReplicateFor(r.dedup, q, Rank(issued, q)))
            && step.emitted.value.newValue == Rank(issued, q)
            && step.next == r.(store := step.next.store) && Level(step.next, issued, held + {q}, |issued|)
  {
    var n := |issued| - 1;
    var q := issued[n];
    OccursOnce(issued, n);
    DistinctPrefix(issued, n);
    RankStays(issued, n);
    assert issued[..|issued|] == issued == issued[..n] + [q];
    ReferenceKeys(issued[..n], RequestKey(q));
    ReferenceUnfold(issued[..n], q);
    AppliesNew(r, Reference(issued[..n]), q);
  }

  lemma AppliesNew(r: Replica, st: Store, q: IncrRequest)
    requires r.Serving() && Tracked(q) && r.store == Shown(r.dedup, st) && (r.dedup ==> RequestKey(q) !in st.cache)
    ensures HandleIncr(r, q).next == r.(store := Shown(r.dedup, Once(st, q)))
    ensures HandleIncr(r, q).emitted == Some(ReplicateFor(r.dedup, q, Lookup(st.counters, q.counterId) + 1))
    ensures HandleIncr(r, q).emitted.value.newValue == Lookup(st.counters, q.counterId) + 1
  {
  }

  /** A leader with dedup on that has the request already answers from its cache and sends nothing. */
  lemma LeaderRemembers(r: Replica, issued: seq<IncrRequest>, held: set<IncrRequest>, q: IncrRequest)
    requires Distinct(issued) && r.Serving() && r.dedup && Level(r, issued, held, |issued|) && q in issued
    ensures HandleIncr(r, q).next == r && HandleIncr(r, q).emitted == None
    ensures HandleIncr(r, q).outcome == Answered(IncrResponse(Rank(issued, q), ""))
  {
    var i :| 0 <= i < |issued| && issued[i] == q;
    RankStays(issued, i);
    assert Tracked(issued[i]);
    assert issued[..|issued|] == issued;
  }

  function Reached(issued: seq<IncrRequest>, held: set<IncrRequest>, n: nat): nat {
    if n < |issued| && issued[n] in held then |issued| else n
  }

  lemma HoldsPrefix(issued: seq<IncrRequest>, held: set<IncrRequest>, n: nat)
    requires held <= Among(issued) && n <= |issued| <= n + 1 && Among(issued[..n]) <= held
    ensures held == Among(issued[..Reached(issued, held, n)])
  {
    var m := Reached(issued, held, n);
    forall i | 0 <= i < m ensures issued[i] in held {
      if i < n {
        assert issued[..n][i] == issued[i];
      }
    }
    forall q | q in held ensures q in Among(issued[..m]) {
      var i :| 0 <= i < |issued| && issued[i] == q;
      assert issued[..m][i] == q;
    }
  }

  // ---- the invariant, in layers -----------------------------------------------------------

  predicate Shape(s: System) {
    && s.leader in s.live && s.live <= s.replicas.Keys
    && (forall f :: f in s.replicas ==> s.replicas[f].self == f && s.replicas[f].dedup == s.dedup)
    && s.replicas[s.leader].Serving()
  }

  function Outstanding(call: Option<IncrRequest>): seq<IncrRequest> {
    if call.None? then [] else [call.value]
  }

  /** Issued requests are different operations; all but the outstanding one are acknowledged, once each. */
  predicate Stream(s: System) {
    Distinct(s.issued) && s.issued == Requests(s.done) + Outstanding(s.call)
  }

  /** How many requests the leader has applied. */
  function Applied(s: System): nat {
    Reached(s.issued, Held(s, s.leader), |s.done|)
  }

  predicate LeaderOk(s: System)
    requires s.leader in s.replicas
  {
    Level(s.replicas[s.leader], s.issued, Held(s, s.leader), Applied(s))
  }

  predicate LeaderInv(s: System) {
    Shape(s) && Stream(s) && LeaderOk(s)
  }

  /** A server's store is what has arrived there. */
  predicate StoresOk(s: System) {
    forall f :: f in s.replicas ==> s.replicas[f].store == Shown(s.dedup, Stored(Arrived(s, f)))
  }

  predicate MessagesOk(s: System) {
    && (forall p :: p in s.handlers ==> IsMessage(s.dedup, s.issued, p))
    && (forall f, p :: f in s.live && p in Pending(s, f) ==> IsMessage(s.dedup, s.issued, p))
  }

  /** Every value computed, stored or acknowledged is the request's rank. */
  predicate ValuesOk(s: System) {
    && (forall a :: a in s.done ==> a.value == Rank(s.issued, a.req))
    && (forall a :: a in s.computed ==> a.req in s.issued && a.value == Rank(s.issued, a.req))
    && (forall f :: f in s.live ==> Ranked(Arrived(s, f), s.issued))
  }

  /** A handler's message about the outstanding request is on its way to whoever has not got it. */
  predicate HandlersOk(s: System) {
    forall p :: p in s.handlers && s.call == Some(p.req) ==>
      && p.req in Held(s, s.leader)
      && (forall f :: f in s.live && f != s.leader ==> p in Pending(s, f) || p.req in Held(s, f))
  }

  /** What was acknowledged by its handler has reached every live server, so what is still under way is
      outstanding or was acknowledged from a cache. */
  predicate AckedOk(s: System) {
    && s.cacheAcked <= Among(Requests(s.done)) && (!s.dedup ==> s.cacheAcked == {})
    && (forall f :: f in s.live ==> Among(Requests(s.done)) - s.cacheAcked <= Held(s, f))
    && (forall f, p :: f in s.live && f != s.leader && p in Pending(s, f) ==>
          s.call == Some(p.req) || p.req in s.cacheAcked)
  }

  /** As long as nothing was acknowledged from a cache, messages cannot overtake each other. */
  predicate OrderOk(s: System) {
    s.cacheAcked == {} ==> forall f :: f in s.live ==> NewestLast(Arrived(s, f))
  }

  predicate Inv(s: System) {
    LeaderInv(s) && StoresOk(s) && MessagesOk(s) && ValuesOk(s) && HandlersOk(s) && AckedOk(s) && OrderOk(s)
  }

  lemma FreshExtends(s: System, q: IncrRequest)
    requires Distinct(s.issued) && Fresh(s, q)
    ensures Distinct(s.issued + [q])
  {
    var longer := s.issued + [q];
    forall i | 0 <= i < |s.issued| ensures Differ(longer[i], q) && Tracked(longer[i]) {
      SameKeySameOperation(s.issued[i], q);
      assert Tracked(s.issued[i]);
    }
    forall i, j | 0 <= i < j < |longer| ensures Differ(longer[i], longer[j]) {
      assert j < |s.issued| ==> Differ(s.issued[i], s.issued[j]);
    }
  }

  lemma RankKept(issued: seq<IncrRequest>, q: IncrRequest, p: IncrRequest)
    requires Distinct(issued + [q]) && p in issued
    ensures Rank(issued + [q], p) == Rank(issued, p) && p != q
  {
    var j :| 0 <= j < |issued| && issued[j] == p;
    var longer := issued + [q];
    assert longer[j] == p && longer[..j] == issued[..j] && longer[..|issued|] == issued;
    DistinctPrefix(longer, |issued|);
    RankStays(issued, j);
    RankStays(longer, j);
    OccursOnce(longer, |issued|);
  }

  /** The outstanding request is the one after the acknowledged ones. */
  lemma OutstandingIsLast(s: System)
    requires Stream(s)
    ensures s.issued[..|s.done|] == Requests(s.done)
    ensures s.call.None? ==> |s.issued| == |s.done|
    ensures s.call.Some? ==> |s.issued| == |s.done| + 1 && s.issued[|s.done|] == s.call.value
    ensures s.call.Some? ==> s.call.value in s.issued && s.call.value !in Requests(s.done)
  {
    if s.call.Some? {
      assert s.issued[|s.done|] == s.call.value;
      OccursOnce(s.issued, |s.done|);
    }
  }

  // ---- issuing ----------------------------------------------------------------------------

  /** A new request: nobody holds it, and nothing that is known about the others changes. */
  lemma IssueLeader(s: System, q: IncrRequest)
    requires LeaderInv(s) && Enabled(s, Issue(q))
    ensures Distinct(s.issued + [q]) && s.issued == Requests(s.done)
    ensures LeaderInv(Step(s, Issue(q)))
  {
    var s' := Step(s, Issue(q));
    FreshExtends(s, q);
    OccursOnce(s'.issued, |s.issued|);
    assert Requests(s.done) + [] == Requests(s.done);
    assert s'.issued[..|s.issued|] == s.issued[..|s.issued|] == s.issued;
  }

  lemma IssueRanks(issued: seq<IncrRequest>, q: IncrRequest)
    requires Distinct(issued + [q])
    ensures forall p :: p in issued ==> p != q && p in issued + [q] && Rank(issued + [q], p) == Rank(issued, p)
  {
    forall p | p in issued ensures p != q && Rank(issued + [q], p) == Rank(issued, p) {
      RankKept(issued, q, p);
    }
  }

  lemma IssueMessages(s: System, q: IncrRequest)
    requires MessagesOk(s) && Distinct(s.issued + [q])
    ensures MessagesOk(s.(call := Some(q), issued := s.issued + [q]))
  {
    var s' := s.(call := Some(q), issued := s.issued + [q]);
    IssueRanks(s.issued, q);
    forall f, p | f in s'.live && p in Pending(s', f) ensures IsMessage(s'.dedup, s'.issued, p) {
      assert p in Pending(s, f) && IsMessage(s.dedup, s.issued, p);
      assert p.req in s.issued;
    }
  }

  lemma DoneAreIssued(s: System)
    requires Stream(s)
    ensures forall a :: a in s.done ==> a.req in s.issued
  {
    forall a | a in s.done ensures a.req in s.issued {
      InRequests(s.done, a);
    }
  }

  lemma IssueValues(s: System, q: IncrRequest)
    requires Stream(s) && ValuesOk(s) && Distinct(s.issued + [q])
    ensures ValuesOk(s.(call := Some(q), issued := s.issued + [q]))
  {
    IssueRanks(s.issued, q);
    DoneAreIssued(s);
  }

  lemma IssueFlow(s: System, q: IncrRequest)
    requires MessagesOk(s) && HandlersOk(s) && AckedOk(s) && Distinct(s.issued + [q]) && s.call.None?
    ensures var s' := s.(call := Some(q), issued := s.issued + [q]); HandlersOk(s') && AckedOk(s')
  {
    IssueRanks(s.issued, q);
  }

  lemma IssueInv(s: System, q: IncrRequest)
    requires Inv(s) && Enabled(s, Issue(q))
    ensures Inv(Step(s, Issue(q)))
  {
    IssueLeader(s, q);
    IssueMessages(s, q);
    IssueValues(s, q);
    IssueFlow(s, q);
  }

  // ---- acknowledging ----------------------------------------------------------------------

  /** The outstanding request, already applied, is acknowledged with its rank. */
  predicate Acks(s: System, a: Ack, s': System) {
    && s.call == Some(a.req) && a.req in Held(s, s.leader) && a.value == Rank(s.issued, a.req)
    && s' == s.(call := None, done := s.done + [a], cacheAcked := s'.cacheAcked)
    && s.cacheAcked <= s'.cacheAcked
  }

  lemma AckLeader(s: System, a: Ack, s': System)
    requires LeaderInv(s) && Acks(s, a, s')
    ensures LeaderInv(s')
  {
    OutstandingIsLast(s);
    RequestsUnfold(s.done, a);
    assert Requests(s.done) + [a.req] + [] == Requests(s.done) + [a.req];
  }

  lemma AckRest(s: System, a: Ack, s': System)
    requires Acks(s, a, s') && StoresOk(s) && MessagesOk(s) && ValuesOk(s) && OrderOk(s)
    ensures StoresOk(s') && MessagesOk(s') && ValuesOk(s') && OrderOk(s') && HandlersOk(s')
  {
    assert forall f :: Arrived(s', f) == Arrived(s, f) && Pending(s', f) == Pending(s, f);
  }

  lemma FinishAcked(s: System, p: Parcel)
    requires HandlersOk(s) && AckedOk(s) && MessagesOk(s) && Enabled(s, Finish(p)) && s.leader in s.live
    ensures AckedOk(Step(s, Finish(p)))
  {
    var s' := Step(s, Finish(p));
    RequestsUnfold(s.done, Ack(p.req, p.msg.newValue));
    assert forall f :: Held(s', f) == Held(s, f) && Pending(s', f) == Pending(s, f);
    forall f, x | f in s.live && f != s.leader && x in Pending(s, f) ensures x.req in s.cacheAcked {
      assert x != p;
      assert IsMessage(s.dedup, s.issued, x) && IsMessage(s.dedup, s.issued, p);
    }
  }

  lemma FinishInv(s: System, p: Parcel)
    requires Inv(s) && Enabled(s, Finish(p))
    ensures Inv(Step(s, Finish(p)))
  {
    var a, s' := Ack(p.req, p.msg.newValue), Step(s, Finish(p));
    assert IsMessage(s.dedup, s.issued, p);
    AckLeader(s, a, s');
    AckRest(s, a, s');
    FinishAcked(s, p);
  }

  /** An answer from the cache. */
  lemma ServeHit(s: System)
    requires LeaderInv(s) && s.dedup && s.call.Some? && s.call.value in Held(s, s.leader)
    ensures var q := s.call.value;
            Step(s, Serve) ==
              s.(call := None, done := s.done + [Ack(q, Rank(s.issued, q))], cacheAcked := s.cacheAcked + {q})
  {
    OutstandingIsLast(s);
    LeaderRemembers(s.replicas[s.leader], s.issued, Held(s, s.leader), s.call.value);
    assert s.replicas[s.leader := s.replicas[s.leader]] == s.replicas;
  }

  lemma HitAcked(s: System, a: Ack, s': System)
    requires AckedOk(s) && s.dedup && s.call == Some(a.req)
    requires s' == s.(call := None, done := s.done + [a], cacheAcked := s.cacheAcked + {a.req})
    ensures AckedOk(s')
  {
    RequestsUnfold(s.done, a);
    assert forall f :: Held(s', f) == Held(s, f) && Pending(s', f) == Pending(s, f);
  }

  lemma ServeHitInv(s: System)
    requires Inv(s) && s.dedup && s.call.Some? && s.call.value in Held(s, s.leader)
    ensures Inv(Step(s, Serve))
  {
    var a, s' := Ack(s.call.value, Rank(s.issued, s.call.value)), Step(s, Serve);
    ServeHit(s);
    AckLeader(s, a, s');
    AckRest(s, a, s');
    HitAcked(s, a, s');
  }

  // ---- applying and delivering ------------------------------------------------------------

  /** The result a reaches the store of server f. */
  predicate Arrives(s: System, f: string, a: Ack, s': System) {
    && s'.arrived == s.arrived[f := Arrived(s, f) + [a]]
    && f in s.replicas && f in s'.replicas && s'.replicas == s.replicas[f := s'.replicas[f]]
    && s'.replicas[f] == s.replicas[f].(store := s'.replicas[f].store)
    && s'.live == s.live && s'.leader == s.leader && s'.dedup == s.dedup && s'.call == s.call
    && s'.issued == s.issued && s'.done == s.done && s'.cacheAcked == s.cacheAcked
  }

  lemma HeldAfter(s: System, f: string, a: Ack, s': System)
    requires Arrives(s, f, a, s')
    ensures Arrived(s', f) == Arrived(s, f) + [a] && Held(s', f) == Held(s, f) + {a.req}
    ensures forall g :: g != f ==> Arrived(s', g) == Arrived(s, g) && Held(s', g) == Held(s, g)
  {
    RequestsUnfold(Arrived(s, f), a);
  }

  lemma ArrivalStored(s: System, f: string, a: Ack, s': System)
    requires StoresOk(s) && Arrives(s, f, a, s')
    requires s'.replicas[f].store == Shown(s.dedup, Put(Stored(Arrived(s, f)), a.req, a.value))
    ensures StoresOk(s')
  {
    HeldAfter(s, f, a, s');
    StoredUnfold(Arrived(s, f), a);
  }

  lemma ArrivalRanked(s: System, f: string, a: Ack, s': System)
    requires ValuesOk(s) && Arrives(s, f, a, s') && a.req in s.issued && a.value == Rank(s.issued, a.req)
    requires s'.computed <= s.computed + {a}
    ensures ValuesOk(s')
  {
    HeldAfter(s, f, a, s');
    forall g | g in s'.live ensures Ranked(Arrived(s', g), s'.issued) {
      assert Ranked(Arrived(s, g), s.issued);
    }
  }

  /** While nothing was acknowledged from a cache only the newest request is under way. */
  lemma ArrivalOrdered(s: System, f: string, a: Ack, s': System)
    requires Stream(s) && ValuesOk(s) && OrderOk(s) && Arrives(s, f, a, s') && f in s.live
    requires a.req in s.issued && a.value == Rank(s.issued, a.req) && (s.cacheAcked == {} ==> s.call == Some(a.req))
    ensures OrderOk(s')
  {
    HeldAfter(s, f, a, s');
    OutstandingIsLast(s);
    if s.cacheAcked == {} {
      assert Ranked(Arrived(s, f), s.issued);
      NewestMayArrive(Arrived(s, f), s.issued, a);
    }
  }

  lemma DeliverArrives(s: System, f: string, p: Parcel)
    requires Shape(s) && Stream(s) && StoresOk(s) && MessagesOk(s) && Enabled(s, Deliver(f, p))
    ensures IsMessage(s.dedup, s.issued, p) && p.msg.newValue == Rank(s.issued, p.req)
    ensures var a, s' := Ack(p.req, p.msg.newValue), Step(s, Deliver(f, p));
            && Arrives(s, f, a, s')
            && s'.replicas[f].store == Shown(s.dedup, Put(Stored(Arrived(s, f)), a.req, a.value))
            && s'.pending == s.pending[f := Pending(s, f) - {p}] && s'.handlers == s.handlers
            && s'.computed == s.computed
  {
    assert IsMessage(s.dedup, s.issued, p);
    var i := IndexOf(s.issued, p.req);
    assert Tracked(s.issued[i]);
    StoresMessage(s.replicas[f], Stored(Arrived(s, f)), p.req, Rank(s.issued, p.req));
  }

  lemma DeliverLeader(s: System, f: string, a: Ack, s': System)
    requires LeaderInv(s) && Arrives(s, f, a, s') && f != s.leader
    ensures LeaderInv(s')
  {
    HeldAfter(s, f, a, s');
  }

  lemma DeliverFlow(s: System, f: string, p: Parcel, a: Ack, s': System)
    requires MessagesOk(s) && HandlersOk(s) && AckedOk(s) && Arrives(s, f, a, s') && a.req == p.req && f != s.leader
    requires s'.pending == s.pending[f := Pending(s, f) - {p}] && s'.handlers == s.handlers
    ensures MessagesOk(s') && HandlersOk(s') && AckedOk(s')
  {
    HeldAfter(s, f, a, s');
    assert forall g :: Pending(s', g) <= Pending(s, g);
    assert forall g, x :: x in Pending(s, g) ==> x in Pending(s', g) || (g == f && x == p);
  }

  lemma DeliverInv(s: System, f: string, p: Parcel)
    requires Inv(s) && Enabled(s, Deliver(f, p))
    ensures Inv(Step(s, Deliver(f, p)))
  {
    var a, s' := Ack(p.req, p.msg.newValue), Step(s, Deliver(f, p));
    DeliverArrives(s, f, p);
    ArrivalStored(s, f, a, s');
    ArrivalRanked(s, f, a, s');
    ArrivalOrdered(s, f, a, s');
    DeliverLeader(s, f, a, s');
    DeliverFlow(s, f, p, a, s');
  }

  function NewAck(s: System): Ack
    requires s.call.Some?
  {
    Ack(s.call.value, Rank(s.issued, s.call.value))
  }

  function NewParcel(s: System): Parcel
    requires s.call.Some?
  {
    Parcel(s.call.value, ReplicateFor(s.dedup, s.call.value, Rank(s.issued, s.call.value)))
  }

  /** The leader applies the outstanding request and sends its message. */
  predicate AppliesNext(s: System, s': System) {
    && s.call.Some? && s.call.value in s.issued && s.call.value !in Held(s, s.leader)
    && Arrives(s, s.leader, NewAck(s), s')
    && s'.computed == s.computed + {NewAck(s)} && s'.handlers == s.handlers + {NewParcel(s)}
    && s'.pending == map f | f in s.live && f != s.leader :: Pending(s, f) + {NewParcel(s)}
  }

  lemma ServeEmits(s: System)
    requires LeaderInv(s) && s.call.Some? && s.call.value !in Held(s, s.leader)
    ensures var r, q := s.replicas[s.leader], s.call.value;
            var step := HandleIncr(r, q);
            && q in s.issued && Tracked(q)
            && step.emitted == Some(NewParcel(s).msg) && NewParcel(s).msg.newValue == NewAck(s).value
            && step.next == r.(store := step.next.store)
            && Level(step.next, s.issued, Held(s, s.leader) + {q}, |s.issued|)
  {
    OutstandingIsLast(s);
    LeaderApplies(s.replicas[s.leader], s.issued, Held(s, s.leader));
    assert Tracked(s.issued[|s.done|]);
  }

  lemma ServeNew(s: System)
    requires LeaderInv(s) && s.call.Some? && s.call.value !in Held(s, s.leader)
    ensures AppliesNext(s, Step(s, Serve))
    ensures Step(s, Serve).replicas[s.leader] == HandleIncr(s.replicas[s.leader], s.call.value).next
  {
    ServeEmits(s);
  }

  lemma ServeNewLevel(s: System, s': System)
    requires LeaderInv(s) && AppliesNext(s, s')
    requires s'.replicas[s.leader] == HandleIncr(s.replicas[s.leader], s.call.value).next
    ensures LeaderOk(s')
  {
    ServeEmits(s);
    OutstandingIsLast(s);
    HeldAfter(s, s.leader, NewAck(s), s');
  }

  lemma ServeNewLeader(s: System, s': System)
    requires Shape(s) && Stream(s) && AppliesNext(s, s') && LeaderOk(s')
    ensures LeaderInv(s')
  {
  }

  /** What a leader that applies a request stores is the value it sends. */
  lemma PutsValue(r: Replica, st: Store, q: IncrRequest)
    requires r.store == Shown(r.dedup, st) && Tracked(q)
    ensures var step := HandleIncr(r, q);
            step.emitted.Some? ==> step.next.store == Shown(r.dedup, Put(st, q, step.emitted.value.newValue))
  {
  }

  lemma ServeNewStored(s: System, s': System)
    requires LeaderInv(s) && StoresOk(s) && AppliesNext(s, s')
    requires s'.replicas[s.leader] == HandleIncr(s.replicas[s.leader], s.call.value).next
    ensures StoresOk(s')
  {
    ServeEmits(s);
    PutsValue(s.replicas[s.leader], Stored(Arrived(s, s.leader)), s.call.value);
    ArrivalStored(s, s.leader, NewAck(s), s');
  }

  lemma ServeNewMessages(s: System, s': System)
    requires MessagesOk(s) && AppliesNext(s, s')
    ensures MessagesOk(s')
  {
    assert Pending(s', s.leader) == {};
    forall f, p | f in s'.live && p in Pending(s', f) ensures IsMessage(s'.dedup, s'.issued, p) {
      assert p in Pending(s, f) || p == NewParcel(s);
    }
  }

  lemma ServeNewFlow(s: System, s': System)
    requires HandlersOk(s) && AckedOk(s) && AppliesNext(s, s')
    ensures HandlersOk(s') && AckedOk(s')
  {
    HeldAfter(s, s.leader, NewAck(s), s');
    forall f | f in s.live && f != s.leader ensures Pending(s', f) == Pending(s, f) + {NewParcel(s)} {
    }
  }

  lemma ServeNewInv(s: System)
    requires Inv(s) && s.call.Some? && s.call.value !in Held(s, s.leader)
    ensures Inv(Step(s, Serve))
  {
    var s' := Step(s, Serve);
    ServeNew(s);
    ServeNewLevel(s, s');
    ServeNewLeader(s, s');
    ServeNewStored(s, s');
    ServeNewMessages(s, s');
    ServeNewFlow(s, s');
    ArrivalRanked(s, s.leader, NewAck(s), s');
    ArrivalOrdered(s, s.leader, NewAck(s), s');
  }

  // ---- crashes ----------------------------------------------------------------------------

  lemma FollowerCrashInv(s: System, f: string)
    requires Inv(s) && Enabled(s, FollowerCrash(f))
    ensures Inv(Step(s, FollowerCrash(f)))
  {
    CrashLeader(s, f);
    CrashRest(s, f);
  }

  lemma CrashLeader(s: System, f: string)
    requires LeaderInv(s) && Enabled(s, FollowerCrash(f))
    ensures LeaderInv(Step(s, FollowerCrash(f)))
  {
  }

  lemma CrashRest(s: System, f: string)
    requires StoresOk(s) && MessagesOk(s) && ValuesOk(s) && HandlersOk(s) && AckedOk(s) && OrderOk(s)
    requires Enabled(s, FollowerCrash(f))
    ensures var s' := Step(s, FollowerCrash(f));
            StoresOk(s') && MessagesOk(s') && ValuesOk(s') && HandlersOk(s') && AckedOk(s') && OrderOk(s')
  {
    var s' := Step(s, FollowerCrash(f));
    assert forall g :: Held(s', g) == Held(s, g) && Pending(s', g) == Pending(s, g) && Arrived(s', g) == Arrived(s, g);
  }

  /** A successor knows every request acknowledged by an answer from a cache, and for every counter the
      newest message that has reached it came last; and with dedup off no request reaches a leader that
      has applied it, or got it by replication, before. */
  predicate Safe(s: System, a: Action) {
    match a
    case LeaderCrash(next, _) =>
      Enabled(s, a) ==>
        && (forall q :: q in s.cacheAcked ==> RequestKey(q) in s.replicas[next].store.cache)
        && NewestLast(Arrived(s, next))
    case Serve => Enabled(s, a) ==> s.dedup || s.call.value !in Held(s, s.leader)
    case _ => true
  }

  lemma CachedIsHeld(s: System, f: string, q: IncrRequest)
    requires Stream(s) && StoresOk(s) && ValuesOk(s) && f in s.live && f in s.replicas && q in s.issued
    requires RequestKey(q) in s.replicas[f].store.cache
    ensures q in Held(s, f)
  {
    StoredCaches(Arrived(s, f), s.issued, q);
  }

  lemma HeldAreIssued(s: System, f: string)
    requires ValuesOk(s) && f in s.live
    ensures Held(s, f) <= Among(s.issued)
  {
    forall q | q in Held(s, f) ensures q in s.issued {
      var a := ArrivedRequest(Arrived(s, f), q);
    }
  }

  /** What a live server holds, if it knows the requests acknowledged from a cache. */
  lemma HoldsDone(s: System, f: string)
    requires Stream(s) && StoresOk(s) && ValuesOk(s) && AckedOk(s) && f in s.live && f in s.replicas
    requires forall q :: q in s.cacheAcked ==> RequestKey(q) in s.replicas[f].store.cache
    ensures Held(s, f) == Among(s.issued[..Reached(s.issued, Held(s, f), |s.done|)])
  {
    OutstandingIsLast(s);
    forall q | q in s.cacheAcked ensures q in Held(s, f) {
      assert q in Requests(s.done);
      CachedIsHeld(s, f, q);
    }
    assert Among(Requests(s.done)) <= (Among(Requests(s.done)) - s.cacheAcked) + s.cacheAcked;
    HeldAreIssued(s, f);
    HoldsPrefix(s.issued, Held(s, f), |s.done|);
  }

  /** Such a server is level with the stream iff the newest messages reached it last. */
  lemma SuccessorIsLevel(s: System, f: string)
    requires Stream(s) && StoresOk(s) && ValuesOk(s) && AckedOk(s) && f in s.live && f in s.replicas
    requires forall q :: q in s.cacheAcked ==> RequestKey(q) in s.replicas[f].store.cache
    ensures var front := s.issued[..Reached(s.issued, Held(s, f), |s.done|)];
            && Held(s, f) == Among(front) && Stored(Arrived(s, f)).cache == Reference(front).cache
            && (Stored(Arrived(s, f)).counters == Reference(front).counters <==> NewestLast(Arrived(s, f)))
  {
    HoldsDone(s, f);
    LevelIff(Arrived(s, f), s.issued, Reached(s.issued, Held(s, f), |s.done|));
  }

  lemma LeaderCrashShape(s: System, next: string, views: map<string, ViewState>)
    requires Shape(s) && Stream(s) && Enabled(s, LeaderCrash(next, views))
    ensures var s' := Step(s, LeaderCrash(next, views));
            && Shape(s') && Stream(s') && s'.issued == s.issued && s'.done == s.done && s'.dedup == s.dedup
            && s'.leader == next && next in s.replicas && s'.arrived == s.arrived
            && s'.replicas[next].store == s.replicas[next].store && s'.replicas[next].dedup == s.dedup
  {
  }

  lemma LeaderCrashLeader(s: System, next: string, views: map<string, ViewState>)
    requires LeaderInv(s) && StoresOk(s) && ValuesOk(s) && AckedOk(s)
    requires Enabled(s, LeaderCrash(next, views)) && Safe(s, LeaderCrash(next, views))
    ensures LeaderInv(Step(s, LeaderCrash(next, views)))
  {
    LeaderCrashShape(s, next, views);
    SuccessorIsLevel(s, next);
  }

  lemma LeaderCrashValues(s: System, next: string, views: map<string, ViewState>)
    requires StoresOk(s) && ValuesOk(s) && OrderOk(s) && Enabled(s, LeaderCrash(next, views))
    ensures var s' := Step(s, LeaderCrash(next, views)); StoresOk(s') && ValuesOk(s') && OrderOk(s')
  {
    var s' := Step(s, LeaderCrash(next, views));
    assert forall g :: Arrived(s', g) == Arrived(s, g);
  }

  lemma LeaderCrashFlow(s: System, next: string, views: map<string, ViewState>)
    requires AckedOk(s) && Enabled(s, LeaderCrash(next, views))
    ensures var s' := Step(s, LeaderCrash(next, views)); MessagesOk(s') && HandlersOk(s') && AckedOk(s')
  {
    var s' := Step(s, LeaderCrash(next, views));
    assert forall g :: Held(s', g) == Held(s, g) && Pending(s', g) == {};
  }

  lemma StepInv(s: System, a: Action)
    requires Inv(s) && Safe(s, a)
    ensures Inv(Step(s, a))
  {
    if Enabled(s, a) {
      match a
      case Issue(q) => IssueInv(s, q);
      case Serve => if s.call.value in Held(s, s.leader) { ServeHitInv(s); } else { ServeNewInv(s); }
      case Deliver(f, p) => DeliverInv(s, f, p);
      case Finish(p) => FinishInv(s, p);
      case FollowerCrash(f) => FollowerCrashInv(s, f);
      case LeaderCrash(next, views) =>
        LeaderCrashLeader(s, next, views);
        LeaderCrashValues(s, next, views);
        LeaderCrashFlow(s, next, views);
    }
  }

  // ---- exactly once -----------------------------------------------------------------------

  /** The leader holds what performing each acknowledged request once gives, with the outstanding one
      or without it. */
  predicate CountedOnce(s: System) {
    && s.leader in s.replicas && |s.done| <= |s.issued|
    && (|| s.replicas[s.leader].store == Shown(s.dedup, Reference(s.issued[..|s.done|]))
        || s.replicas[s.leader].store == Shown(s.dedup, Reference(s.issued)))
  }

  predicate AlwaysCountedOnce(s: System, actions: seq<Action>) {
    CountedOnce(Exec(s, actions)) && (actions == [] || AlwaysCountedOnce(s, actions[..|actions| - 1]))
  }

  predicate EveryStepSafe(s: System, actions: seq<Action>) {
    if actions == [] then true
    else
      var n := |actions| - 1;
      EveryStepSafe(s, actions[..n]) && Safe(Exec(s, actions[..n]), actions[n])
  }

  lemma StartInv(s: System)
    requires Initial(s)
    ensures Inv(s)
  {
    assert Shown(s.dedup, Reference([])) == EMPTY_STORE && Shown(s.dedup, Stored([])) == EMPTY_STORE;
    assert forall f :: Arrived(s, f) == [] && Held(s, f) == {} && Pending(s, f) == {};
  }

  lemma {:induction false} RunInv(s: System, actions: seq<Action>)
    requires Initial(s) && EveryStepSafe(s, actions)
    ensures Inv(Exec(s, actions))
  {
    if actions == [] {
      StartInv(s);
    } else {
      RunInv(s, actions[..|actions| - 1]);
      StepInv(Exec(s, actions[..|actions| - 1]), actions[|actions| - 1]);
    }
  }

  lemma InvCountsOnce(s: System)
    requires LeaderInv(s)
    ensures CountedOnce(s)
  {
    assert s.issued[..|s.issued|] == s.issued;
  }

  /** An acknowledged request is in the cache of either reference store. */
  lemma DoneIsCached(s: System, q: IncrRequest)
    requires Stream(s) && q in Requests(s.done)
    ensures RequestKey(q) in Reference(s.issued[..|s.done|]).cache && RequestKey(q) in Reference(s.issued).cache
  {
    OutstandingIsLast(s);
    ReferenceKeys(Requests(s.done), RequestKey(q));
    assert q in s.issued;
    ReferenceKeys(s.issued, RequestKey(q));
  }

  /** The outstanding request tells the two reference stores apart. */
  lemma OutstandingIsCached(s: System)
    requires Stream(s) && s.call.Some?
    ensures Reference(s.issued[..|s.done|]).cache != Reference(s.issued).cache
  {
    OutstandingIsLast(s);
    var key := RequestKey(s.call.value);
    DistinctPrefix(s.issued, |s.done|);
    ReferenceKeys(s.issued[..|s.done|], key);
    ReferenceKeys(s.issued, key);
  }

  lemma OrderedWithoutDedup(s: System, f: string)
    requires AckedOk(s) && OrderOk(s) && f in s.live && !NewestLast(Arrived(s, f))
    ensures s.dedup
  {
  }

  /** A server in which an older message came last for some counter is level with neither reference. */
  lemma OvertakenIsNotLevel(s: System, f: string)
    requires Stream(s) && StoresOk(s) && ValuesOk(s) && AckedOk(s) && f in s.live && f in s.replicas
    requires forall q :: q in s.cacheAcked ==> RequestKey(q) in s.replicas[f].store.cache
    requires !NewestLast(Arrived(s, f))
    ensures Stored(Arrived(s, f)) != Reference(s.issued[..|s.done|]) && Stored(Arrived(s, f)) != Reference(s.issued)
  {
    SuccessorIsLevel(s, f);
    OutstandingIsLast(s);
    assert s.issued[..|s.issued|] == s.issued;
    if s.call.Some? {
      OutstandingIsCached(s);
    }
  }

  lemma OvertakenCrashBreaks(s: System, next: string, views: map<string, ViewState>)
    requires LeaderInv(s) && StoresOk(s) && ValuesOk(s) && AckedOk(s) && OrderOk(s)
    requires Enabled(s, LeaderCrash(next, views)) && !NewestLast(Arrived(s, next))
    requires forall q :: q in s.cacheAcked ==> RequestKey(q) in s.replicas[next].store.cache
    ensures !CountedOnce(Step(s, LeaderCrash(next, views)))
  {
    OrderedWithoutDedup(s, next);
    OvertakenIsNotLevel(s, next);
    LeaderCrashShape(s, next, views);
  }

  lemma UnknowingCrashBreaks(s: System, next: string, views: map<string, ViewState>, q: IncrRequest)
    requires LeaderInv(s) && AckedOk(s) && Enabled(s, LeaderCrash(next, views))
    requires q in s.cacheAcked && RequestKey(q) !in s.replicas[next].store.cache
    ensures !CountedOnce(Step(s, LeaderCrash(next, views)))
  {
    assert q in Requests(s.done);
    DoneIsCached(s, q);
    LeaderCrashShape(s, next, views);
  }

  /** The counter of the outstanding request is higher by one with it than without it. */
  lemma OutstandingCounts(s: System)
    requires Stream(s) && s.call.Some?
    ensures Tracked(s.call.value)
    ensures var c := s.call.value.counterId;
            Lookup(Reference(s.issued).counters, c) == Lookup(Reference(s.issued[..|s.done|]).counters, c) + 1
  {
    OutstandingIsLast(s);
    var front := s.issued[..|s.done|];
    assert s.issued == front + [s.call.value];
    assert Tracked(s.issued[|s.done|]);
    ReferenceUnfold(front, s.call.value);
  }

  lemma UnsafeServeBreaks(s: System)
    requires LeaderInv(s) && Enabled(s, Serve) && !Safe(s, Serve)
    ensures !CountedOnce(Step(s, Serve))
  {
    OutstandingIsLast(s);
    OutstandingCounts(s);
    assert s.issued[..|s.issued|] == s.issued;
    CountsAgain(s.replicas[s.leader], s.call.value);
  }

  lemma CountsAgain(r: Replica, q: IncrRequest)
    requires r.Serving() && !r.dedup && Tracked(q)
    ensures Lookup(HandleIncr(r, q).next.store.counters, q.counterId) == Lookup(r.store.counters, q.counterId) + 1
    ensures HandleIncr(r, q).emitted.Some?
  {
  }

  lemma StepCountsOnceIff(s: System, a: Action)
    requires Inv(s)
    ensures CountedOnce(Step(s, a)) <==> Safe(s, a)
  {
    if Safe(s, a) {
      StepInv(s, a);
      InvCountsOnce(Step(s, a));
    } else {
      match a
      case LeaderCrash(next, views) =>
        if forall q :: q in s.cacheAcked ==> RequestKey(q) in s.replicas[next].store.cache {
          OvertakenCrashBreaks(s, next, views);
        } else {
          var q :| q in s.cacheAcked && RequestKey(q) !in s.replicas[next].store.cache;
          UnknowingCrashBreaks(s, next, views, q);
        }
      case Serve => UnsafeServeBreaks(s);
    }
  }

  /** For every run with retransmissions, messages overtaking each other and any number of crashes:
      every leader it goes through holds each acknowledged request exactly once, and the outstanding one
      at most once, exactly when every step is safe. */
  lemma {:induction false} CountedOnceIff(s: System, actions: seq<Action>)
    requires Initial(s)
    ensures AlwaysCountedOnce(s, actions) <==> EveryStepSafe(s, actions)
  {
    if actions == [] {
      StartInv(s);
      InvCountsOnce(s);
    } else {
      var n := |actions| - 1;
      CountedOnceIff(s, actions[..n]);
      if EveryStepSafe(s, actions[..n]) {
        RunInv(s, actions[..n]);
        StepCountsOnceIff(Exec(s, actions[..n]), actions[n]);
      }
    }
  }

  // ---- what every safe run guarantees -----------------------------------------------------

  /** Every issued request is acknowledged once or outstanding; all the values that leaders have ever
      computed for an acknowledged request are the acknowledged one; and the values acknowledged for a
      counter rise. */
  predicate AnsweredOnce(s: System) {
    && s.issued == Requests(s.done) + Outstanding(s.call)
    && (forall i, j :: 0 <= i < j < |s.issued| ==> !SameOperation(s.issued[i], s.issued[j]))
    && (forall a, d :: a in s.computed && d in s.done && a.req == d.req ==> a.value == d.value)
    && (forall i, j :: 0 <= i < j < |s.done| && s.done[i].req.counterId == s.done[j].req.counterId ==>
          s.done[i].value < s.done[j].value)
  }

  lemma NoTwoAlike(reqs: seq<IncrRequest>)
    requires Distinct(reqs)
    ensures forall i, j :: 0 <= i < j < |reqs| ==> !SameOperation(reqs[i], reqs[j])
  {
    forall i, j | 0 <= i < j < |reqs| ensures !SameOperation(reqs[i], reqs[j]) {
      assert Differ(reqs[i], reqs[j]);
      SameKeySameOperation(reqs[i], reqs[j]);
    }
  }

  lemma DoneAt(s: System, i: nat)
    requires Stream(s) && ValuesOk(s) && i < |s.done|
    ensures i < |s.issued| && s.done[i].req == s.issued[i] && s.done[i].value == Rank(s.issued, s.issued[i])
  {
    assert s.issued[i] == Requests(s.done)[i] == s.done[i].req;
    assert s.done[i] in s.done;
  }

  lemma ValuesRise(s: System, i: nat, j: nat)
    requires Stream(s) && ValuesOk(s) && i < j < |s.done| && s.done[i].req.counterId == s.done[j].req.counterId
    ensures s.done[i].value < s.done[j].value
  {
    DoneAt(s, i);
    DoneAt(s, j);
    RanksGrow(s.issued, i, j);
  }

  lemma InvAnswersOnce(s: System)
    requires Stream(s) && ValuesOk(s)
    ensures AnsweredOnce(s)
  {
    NoTwoAlike(s.issued);
    forall i, j | 0 <= i < j < |s.done| && s.done[i].req.counterId == s.done[j].req.counterId
      ensures s.done[i].value < s.done[j].value
    {
      ValuesRise(s, i, j);
    }
  }

  lemma AcknowledgedOnce(s0: System, actions: seq<Action>)
    requires Initial(s0) && EveryStepSafe(s0, actions)
    ensures AnsweredOnce(Exec(s0, actions))
  {
    RunInv(s0, actions);
    InvAnswersOnce(Exec(s0, actions));
  }

  /** The value acknowledged to the i-th request is its rank among the requests for its counter. */
  lemma AcknowledgedValueIsRank(s0: System, actions: seq<Action>, i: nat)
    requires Initial(s0) && EveryStepSafe(s0, actions) && i < |Exec(s0, actions).done|
    ensures var s := Exec(s0, actions);
            && i < |s.issued| && s.done[i].req == s.issued[i]
            && s.done[i].value == CountFor(s.issued[..i + 1], s.issued[i].counterId)
  {
    RunInv(s0, actions);
    var s := Exec(s0, actions);
    DoneAt(s, i);
    RankIsCount(s.issued, i);
  }

  /** The leader holds each issued request once and its counters count them. The live server f has no
      higher counter and no other reply, and every reply that was not acknowledged from a cache; and
      unless an older message reached it last, its counters count at least those requests too. */
  ghost predicate Settled(s: System, f: string) {
    && s.leader in s.replicas && f in s.replicas
    && var leader, st := s.replicas[s.leader].store, s.replicas[f].store;
       && leader == Shown(s.dedup, Reference(s.issued))
       && (forall c :: c != "" ==> Lookup(leader.counters, c) == CountFor(s.issued, c))
       && (forall c :: Lookup(st.counters, c) <= Lookup(leader.counters, c))
       && (s.dedup ==> forall q :: q in s.issued && q !in s.cacheAcked ==> RequestKey(q) in st.cache)
       && (forall k :: k in st.cache ==> k in leader.cache && st.cache[k] == leader.cache[k])
       && (NewestLast(Arrived(s, f)) ==> forall q :: q in s.issued && q !in s.cacheAcked ==>
             Rank(s.issued, q) <= Lookup(st.counters, q.counterId))
       && (s.cacheAcked == {} ==> st == leader)
  }

  lemma TrackedMembers(reqs: seq<IncrRequest>)
    requires Distinct(reqs)
    ensures forall q :: q in reqs ==> Tracked(q)
  {
    forall q | q in reqs ensures Tracked(q) {
      var i := IndexOf(reqs, q);
      assert Tracked(reqs[i]);
    }
  }

  /** With nothing outstanding: all requests are acknowledged and the leader has them all. */
  lemma LeaderIsSettled(s: System)
    requires LeaderInv(s) && s.call.None?
    ensures Requests(s.done) == s.issued && s.issued[..|s.issued|] == s.issued
    ensures s.replicas[s.leader].store == Shown(s.dedup, Reference(s.issued))
    ensures forall c :: c != "" ==> Lookup(Reference(s.issued).counters, c) == CountFor(s.issued, c)
  {
    OutstandingIsLast(s);
    TrackedMembers(s.issued);
    forall c | c != "" ensures Lookup(Reference(s.issued).counters, c) == CountFor(s.issued, c) {
      ReferenceCounts(s.issued, c);
    }
  }

  lemma CountersStayBelow(acks: seq<Ack>, reqs: seq<IncrRequest>, c: string)
    requires Distinct(reqs) && Ranked(acks, reqs)
    ensures Lookup(Stored(acks).counters, c) <= Lookup(Reference(reqs).counters, c)
  {
    CounterIsLastValue(acks, c);
    ReferenceIsPositive(reqs, c);
    if c in Stored(acks).counters {
      var a :| a in acks && a.req.counterId == c && a.value == LastValue(acks, c);
      var i := IndexOf(reqs, a.req);
      assert reqs[..|reqs|] == reqs;
      RankWithinCounter(reqs, |reqs|, i);
    }
  }

  lemma {:induction false} ReferenceIsPositive(reqs: seq<IncrRequest>, c: string)
    ensures Lookup(Reference(reqs).counters, c) >= 0
  {
    if reqs != [] {
      ReferenceIsPositive(reqs[..|reqs| - 1], c);
      ReferenceIsPositive(reqs[..|reqs| - 1], reqs[|reqs| - 1].counterId);
    }
  }

  lemma CacheIsPart(acks: seq<Ack>, reqs: seq<IncrRequest>, k: string)
    requires Distinct(reqs) && Ranked(acks, reqs) && k in Stored(acks).cache
    ensures k in Reference(reqs).cache && Stored(acks).cache[k] == Reference(reqs).cache[k]
  {
    StoredKeyArrived(acks, k);
    var a :| a in acks && RequestKey(a.req) == k;
    InRequests(acks, a);
    StoredCaches(acks, reqs, a.req);
    var i := IndexOf(reqs, a.req);
    RankStays(reqs, i);
  }

  /** A server in which the newest messages came last counts at least what has arrived. */
  lemma ArrivedIsCounted(acks: seq<Ack>, reqs: seq<IncrRequest>, q: IncrRequest)
    requires Ranked(acks, reqs) && NewestLast(acks) && q in Requests(acks)
    ensures Rank(reqs, q) <= Lookup(Stored(acks).counters, q.counterId)
  {
    var a := ArrivedRequest(acks, q);
    CounterIsLastValue(acks, q.counterId);
  }

  lemma InvSettles(s: System, f: string)
    requires Inv(s) && s.call.None? && f in s.live
    ensures Settled(s, f)
  {
    LeaderIsSettled(s);
    var acks := Arrived(s, f);
    assert Ranked(acks, s.issued);
    forall c ensures Lookup(Stored(acks).counters, c) <= Lookup(Reference(s.issued).counters, c) {
      CountersStayBelow(acks, s.issued, c);
    }
    forall k | k in Stored(acks).cache
      ensures k in Reference(s.issued).cache && Stored(acks).cache[k] == Reference(s.issued).cache[k]
    {
      CacheIsPart(acks, s.issued, k);
    }
    forall q | q in s.issued && q !in s.cacheAcked
      ensures RequestKey(q) in Stored(acks).cache
      ensures NewestLast(acks) ==> Rank(s.issued, q) <= Lookup(Stored(acks).counters, q.counterId)
    {
      assert q in Among(Requests(s.done)) - s.cacheAcked;
      StoredCaches(acks, s.issued, q);
      if NewestLast(acks) {
        ArrivedIsCounted(acks, s.issued, q);
      }
    }
    if s.cacheAcked == {} {
      SuccessorIsLevel(s, f);
    }
  }

  /** With nothing outstanding the leader and every live server are settled. */
  lemma ReplicasAfterFailover(s0: System, actions: seq<Action>, f: string)
    requires Initial(s0) && EveryStepSafe(s0, actions)
    requires var s := Exec(s0, actions); s.call.None? && f in s.live
    ensures Settled(Exec(s0, actions), f)
  {
    RunInv(s0, actions);
    InvSettles(Exec(s0, actions), f);
  }

  /** With nothing outstanding, a live server is level with the leader iff its cache knows every request
      that was acknowledged from a cache and the newest messages reached it last. */
  lemma SuccessorIsLevelIff(s0: System, actions: seq<Action>, f: string)
    requires Initial(s0) && EveryStepSafe(s0, actions)
    requires var s := Exec(s0, actions); s.call.None? && f in s.live
    ensures var s := Exec(s0, actions);
            && s.leader in s.replicas && f in s.replicas
            && (s.replicas[f].store == s.replicas[s.leader].store <==>
                  && (forall q :: q in s.cacheAcked ==> RequestKey(q) in s.replicas[f].store.cache)
                  && NewestLast(Arrived(s, f)))
  {
    RunInv(s0, actions);
    var s := Exec(s0, actions);
    LeaderIsSettled(s);
    if forall q :: q in s.cacheAcked ==> RequestKey(q) in s.replicas[f].store.cache {
      SuccessorIsLevel(s, f);
    } else {
      var q :| q in s.cacheAcked && RequestKey(q) !in s.replicas[f].store.cache;
      assert q in Requests(s.done);
      DoneIsCached(s, q);
    }
  }

  // ---- which runs are safe ----------------------------------------------------------------

  /** The leader is not asked again for a request that it has. */
  predicate NotAskedAgain(s: System, a: Action) {
    a.Serve? && Enabled(s, a) ==> s.call.value !in Held(s, s.leader)
  }

  predicate NeverAskedAgain(s: System, actions: seq<Action>) {
    if actions == [] then true
    else
      var n := |actions| - 1;
      NeverAskedAgain(s, actions[..n]) && NotAskedAgain(Exec(s, actions[..n]), actions[n])
  }

  predicate NoLeaderCrash(actions: seq<Action>) {
    forall i :: 0 <= i < |actions| ==> !actions[i].LeaderCrash?
  }

  lemma StepWithoutAnswers(s: System, a: Action)
    requires Inv(s) && s.cacheAcked == {} && NotAskedAgain(s, a)
    ensures Safe(s, a) && Step(s, a).cacheAcked == {}
  {
    if a.Serve? && Enabled(s, a) {
      ServeNew(s);
    }
  }

  /** As long as no leader is asked again for what it has, nothing is answered from a cache, and the run
      is safe whatever crashes. */
  lemma {:induction false} SafeIfNotAskedAgain(s: System, actions: seq<Action>)
    requires Initial(s) && NeverAskedAgain(s, actions)
    ensures EveryStepSafe(s, actions) && Exec(s, actions).cacheAcked == {}
  {
    if actions != [] {
      var n := |actions| - 1;
      SafeIfNotAskedAgain(s, actions[..n]);
      RunInv(s, actions[..n]);
      StepWithoutAnswers(Exec(s, actions[..n]), actions[n]);
    }
  }

  lemma {:induction false} ExecSplit(s: System, front: seq<Action>, back: seq<Action>)
    ensures Exec(s, front + back) == Exec(Exec(s, front), back)
  {
    if back == [] {
      assert front + back == front;
    } else {
      var n := |back| - 1;
      assert (front + back)[..|front| + n] == front + back[..n];
      ExecSplit(s, front, back[..n]);
    }
  }

  lemma {:induction false} DedupStays(s: System, actions: seq<Action>)
    ensures Exec(s, actions).dedup == s.dedup
  {
    if actions != [] {
      DedupStays(s, actions[..|actions| - 1]);
    }
  }

  /** With dedup on, only leader crashes can be unsafe. */
  lemma {:induction false} SafeWithoutCrashes(s: System, front: seq<Action>, back: seq<Action>)
    requires s.dedup && EveryStepSafe(s, front) && NoLeaderCrash(back)
    ensures EveryStepSafe(s, front + back)
  {
    if back == [] {
      assert front + back == front;
    } else {
      var n := |back| - 1;
      SafeWithoutCrashes(s, front, back[..n]);
      assert (front + back)[..|front| + n] == front + back[..n];
      DedupStays(s, front + back[..n]);
      assert (front + back)[|front| + n] == back[n];
    }
  }

  /** A rule that a client can keep: with dedup on, until the last leader crash it asks no leader again for
      a request that the leader has. Then every step is safe, and every request is counted once. */
  lemma AskedOnceUntilLastCrash(s0: System, front: seq<Action>, back: seq<Action>, f: string)
    requires Initial(s0) && s0.dedup && NeverAskedAgain(s0, front) && NoLeaderCrash(back)
    ensures EveryStepSafe(s0, front + back) && AlwaysCountedOnce(s0, front + back)
    ensures var s := Exec(s0, front + back);
            AnsweredOnce(s) && (s.call.None? && f in s.live ==> Settled(s, f))
  {
    SafeIfNotAskedAgain(s0, front);
    SafeWithoutCrashes(s0, front, back);
    CountedOnceIff(s0, front + back);
    AcknowledgedOnce(s0, front + back);
    if Exec(s0, front + back).call.None? && f in Exec(s0, front + back).live {
      ReplicasAfterFailover(s0, front + back, f);
    }
  }

  /** One outstanding request, one leader crash at any point, retry at the new leader as often as the
      client likes: if the first leader is not asked again for what it has, every issued request takes
      effect exactly once and is acknowledged at most once, with its rank. */
  lemma OneLeaderCrash(s0: System, before: seq<Action>, next: string, views: map<string, ViewState>,
                       after: seq<Action>, f: string)
    requires Initial(s0) && s0.dedup && NeverAskedAgain(s0, before) && NoLeaderCrash(before) && NoLeaderCrash(after)
    ensures var run := before + [LeaderCrash(next, views)] + after;
            var s := Exec(s0, run);
            && EveryStepSafe(s0, run) && AlwaysCountedOnce(s0, run) && AnsweredOnce(s)
            && (s.call.None? && f in s.live ==> Settled(s, f))
  {
    var front := before + [LeaderCrash(next, views)];
    assert front[..|before|] == before;
    AskedOnceUntilLastCrash(s0, front, after, f);
  }
}
