/** The other replicas after the last leader crash: each equals the new leader, or lacks only the request
    that was interrupted. */
module FailoverReplicas {
  import opened Messages
  import opened Replicas
  import opened Streams
  import opened Failover

  // ---- messages that do not overtake each other -------------------------------------------

  predicate Ordered(s: System) {
    forall f :: f in s.live ==> NewestLast(Arrived(s, f))
  }

  /** The result of the last issued request reaches a server. */
  lemma ArrivalKeepsOrder(s: System, f: string, a: Ack, s': System)
    requires Stream(s) && ValuesOk(s) && Ordered(s) && Arrives(s, f, a, s') && f in s.live
    requires s.issued != [] && a.req == s.issued[|s.issued| - 1] && a.value == Rank(s.issued, a.req)
    ensures Ordered(s')
  {
    HeldAfter(s, f, a, s');
    assert Ranked(Arrived(s, f), s.issued);
    NewestMayArrive(Arrived(s, f), s.issued, a);
  }

  /** The message of the last issued request reaches a server. */
  lemma DeliverOrdered(s: System, f: string, p: Parcel)
    requires Inv(s) && Ordered(s) && Enabled(s, Deliver(f, p))
    requires s.issued != [] && p.req == s.issued[|s.issued| - 1]
    ensures var s' := Step(s, Deliver(f, p));
            && Arrives(s, f, Ack(p.req, p.msg.newValue), s') && Ordered(s')
            && s'.pending == s.pending[f := Pending(s, f) - {p}] && s'.handlers == s.handlers
  {
    DeliverArrives(s, f, p);
    ArrivalKeepsOrder(s, f, Ack(p.req, p.msg.newValue), Step(s, Deliver(f, p)));
  }

  lemma SameArrivals(s: System, s': System)
    requires Ordered(s) && s'.live <= s.live && s'.arrived == s.arrived
    ensures Ordered(s')
  {
    assert forall f :: Arrived(s', f) == Arrived(s, f);
  }

  /** Right after a leader crash in a run without answers from a cache. */
  lemma AfterCrash(s0: System, before: seq<Action>, next: string, views: map<string, ViewState>)
    requires Initial(s0) && NeverAskedAgain(s0, before)
    requires Enabled(Exec(s0, before), LeaderCrash(next, views))
    ensures var front := before + [LeaderCrash(next, views)];
            var s := Exec(s0, front);
            && NeverAskedAgain(s0, front) && Inv(s) && Ordered(s) && s.dedup == s0.dedup
            && s.cacheAcked == {} && s.pending == map[] && s.handlers == {}
            && s == Step(Exec(s0, before), LeaderCrash(next, views))
  {
    var front := before + [LeaderCrash(next, views)];
    assert front[..|before|] == before;
    SafeIfNotAskedAgain(s0, front);
    RunInv(s0, front);
    DedupStays(s0, front);
  }

  // ---- any retries, no further request ----------------------------------------------------

  /** q was issued last; only q can have been answered from a cache, and only q is under way. */
  predicate LastOnly(s: System, q: IncrRequest) {
    && s.dedup && s.issued != [] && s.issued[|s.issued| - 1] == q && s.cacheAcked <= {q} && Ordered(s)
    && (forall f, p :: f in s.live && f != s.leader && p in Pending(s, f) ==> p.req == q)
  }

  lemma OutstandingIsIssuedLast(s: System)
    requires Stream(s) && s.call.Some?
    ensures s.issued != [] && s.issued[|s.issued| - 1] == s.call.value
  {
    OutstandingIsLast(s);
  }

  lemma ServeNewLastOnly(s: System, q: IncrRequest, s': System)
    requires Stream(s) && ValuesOk(s) && s.leader in s.live && LastOnly(s, q) && AppliesNext(s, s')
    ensures LastOnly(s', q)
  {
    OutstandingIsIssuedLast(s);
    ArrivalKeepsOrder(s, s.leader, NewAck(s), s');
    forall f, p | f in s'.live && f != s'.leader && p in Pending(s', f) ensures p.req == q {
      assert p in Pending(s, f) || p == NewParcel(s);
    }
  }

  lemma DeliverLastFrame(s: System, q: IncrRequest, f: string, p: Parcel, a: Ack, s': System)
    requires LastOnly(s, q) && Arrives(s, f, a, s') && Ordered(s')
    requires s'.pending == s.pending[f := Pending(s, f) - {p}]
    ensures LastOnly(s', q)
  {
    assert forall g, x :: x in Pending(s', g) ==> x in Pending(s, g);
  }

  lemma DeliverLastOnly(s: System, q: IncrRequest, f: string, p: Parcel)
    requires Inv(s) && LastOnly(s, q) && Enabled(s, Deliver(f, p))
    ensures LastOnly(Step(s, Deliver(f, p)), q)
  {
    DeliverOrdered(s, f, p);
    DeliverLastFrame(s, q, f, p, Ack(p.req, p.msg.newValue), Step(s, Deliver(f, p)));
  }

  lemma SameFlowLastOnly(s: System, q: IncrRequest, s': System)
    requires LastOnly(s, q) && s'.issued == s.issued && s'.arrived == s.arrived && s'.pending == s.pending
    requires s'.live <= s.live && s'.leader == s.leader && s'.dedup == s.dedup && s'.cacheAcked <= s.cacheAcked + {q}
    ensures LastOnly(s', q)
  {
    SameArrivals(s, s');
    assert forall f :: Pending(s', f) == Pending(s, f);
  }

  lemma StepLastOnly(s: System, q: IncrRequest, a: Action)
    requires Inv(s) && LastOnly(s, q) && !a.Issue? && !a.LeaderCrash?
    ensures LastOnly(Step(s, a), q) && Step(s, a).issued == s.issued
  {
    if Enabled(s, a) {
      match a
      case Serve =>
        OutstandingIsIssuedLast(s);
        if s.call.value in Held(s, s.leader) {
          ServeHit(s);
          SameFlowLastOnly(s, q, Step(s, a));
        } else {
          ServeNew(s);
          ServeNewLastOnly(s, q, Step(s, a));
        }
      case Deliver(f, p) => DeliverLastOnly(s, q, f, p);
      case Finish(p) => SameFlowLastOnly(s, q, Step(s, a));
      case FollowerCrash(f) => SameFlowLastOnly(s, q, Step(s, a));
    }
  }

  predicate OnlyRetries(actions: seq<Action>) {
    forall i :: 0 <= i < |actions| ==> !actions[i].Issue? && !actions[i].LeaderCrash?
  }

  lemma {:induction false} RunLastOnly(s: System, q: IncrRequest, actions: seq<Action>)
    requires Inv(s) && LastOnly(s, q) && OnlyRetries(actions)
    ensures var s' := Exec(s, actions); Inv(s') && LastOnly(s', q) && s'.issued == s.issued
  {
    if actions != [] {
      var n := |actions| - 1;
      RunLastOnly(s, q, actions[..n]);
      StepInv(Exec(s, actions[..n]), actions[n]);
      StepLastOnly(Exec(s, actions[..n]), q, actions[n]);
    }
  }

  lemma AllOrAllButLast(reqs: seq<IncrRequest>, held: set<IncrRequest>)
    requires Distinct(reqs) && reqs != [] && held <= Among(reqs) && Among(reqs) - {reqs[|reqs| - 1]} <= held
    ensures held == Among(reqs[..if reqs[|reqs| - 1] in held then |reqs| else |reqs| - 1])
  {
    var n := |reqs| - 1;
    OccursOnce(reqs, n);
    assert reqs[..n + 1] == reqs;
    assert Among(reqs) == Among(reqs[..n]) + {reqs[n]};
  }

  lemma LevelAt(s: System, f: string, n: nat)
    requires Stream(s) && StoresOk(s) && ValuesOk(s) && Ordered(s) && f in s.live && f in s.replicas
    requires n <= |s.issued| && Held(s, f) == Among(s.issued[..n])
    ensures s.replicas[f].store == Shown(s.dedup, Reference(s.issued[..n]))
  {
    LevelIff(Arrived(s, f), s.issued, n);
  }

  /** A live server holds everything, or everything but the last request, each in order. */
  lemma HoldsAllButLast(s: System, q: IncrRequest, f: string)
    requires Inv(s) && LastOnly(s, q) && s.call.None? && f in s.live
    ensures f in s.replicas && s.leader in s.replicas
    ensures s.replicas[s.leader].store == Reference(s.issued)
    ensures var st := s.replicas[f].store;
            st == s.replicas[s.leader].store || st == Reference(s.issued[..|s.issued| - 1])
  {
    LeaderIsSettled(s);
    HeldAreIssued(s, f);
    assert Among(Requests(s.done)) - s.cacheAcked <= Held(s, f);
    AllOrAllButLast(s.issued, Held(s, f));
    LevelAt(s, f, if q in Held(s, f) then |s.issued| else |s.issued| - 1);
  }

  /** One leader crash at any point; then the client sends its outstanding request again, as often as it
      likes. When it has its answer, the new leader has performed every request once, and every other
      live server equals it or lacks only the last request, the one that was interrupted. */
  lemma ReplicasAfterRetries(s0: System, before: seq<Action>, next: string, views: map<string, ViewState>,
                             after: seq<Action>, f: string)
    requires Initial(s0) && s0.dedup && NeverAskedAgain(s0, before) && OnlyRetries(after)
    requires Enabled(Exec(s0, before), LeaderCrash(next, views))
    requires var s := Exec(s0, before + [LeaderCrash(next, views)] + after);
             s.call.None? && f in s.live && s.issued != []
    ensures var s := Exec(s0, before + [LeaderCrash(next, views)] + after);
            && f in s.replicas && s.leader in s.replicas
            && s.replicas[s.leader].store == Reference(s.issued)
            && (|| s.replicas[f].store == s.replicas[s.leader].store
                || s.replicas[f].store == Reference(s.issued[..|s.issued| - 1]))
  {
    var front := before + [LeaderCrash(next, views)];
    var s1 := Exec(s0, front);
    AfterCrash(s0, before, next, views);
    ExecSplit(s0, front, after);
    RetriesKeepIssued(s1, after);
    var q := s1.issued[|s1.issued| - 1];
    assert forall g :: Pending(s1, g) == {};
    RunLastOnly(s1, q, after);
    HoldsAllButLast(Exec(s1, after), q, f);
  }

  lemma {:induction false} RetriesKeepIssued(s: System, actions: seq<Action>)
    requires OnlyRetries(actions)
    ensures Exec(s, actions).issued == s.issued
  {
    if actions != [] {
      RetriesKeepIssued(s, actions[..|actions| - 1]);
    }
  }

  // ---- each leader asked once, any further requests ---------------------------------------

  /** The leader is not asked for a request that it has sent out itself. */
  predicate AskedOnce(s: System, a: Action) {
    a.Serve? && Enabled(s, a) ==> forall p :: p in s.handlers ==> p.req != s.call.value
  }

  /** A rule for the client alone: ask each leader at most once for each request. */
  predicate AlwaysAskedOnce(s: System, actions: seq<Action>) {
    if actions == [] then true
    else
      var n := |actions| - 1;
      AlwaysAskedOnce(s, actions[..n]) && AskedOnce(Exec(s, actions[..n]), actions[n])
  }

  function Interrupted(call: Option<IncrRequest>): set<IncrRequest> {
    if call.None? then {} else {call.value}
  }

  ghost predicate SentByLeader(s: System, q: IncrRequest) {
    exists p :: p in s.handlers && p.req == q
  }

  /** Only what the leader has sent for the outstanding request is under way. */
  predicate OnlyOutstanding(s: System) {
    forall f, p :: f in s.live && f != s.leader && p in Pending(s, f) ==> s.call == Some(p.req) && p in s.handlers
  }

  /** The leader has the outstanding request because it was interrupted, or has sent it out itself. */
  ghost predicate HeldForAReason(s: System, interrupted: set<IncrRequest>) {
    s.call.Some? && s.call.value in Held(s, s.leader) ==>
      s.call.value in interrupted || SentByLeader(s, s.call.value)
  }

  /** And only the interrupted request can have been answered from a cache. */
  ghost predicate Tidy(s: System, interrupted: set<IncrRequest>) {
    s.dedup && s.cacheAcked <= interrupted && Ordered(s) && OnlyOutstanding(s) && HeldForAReason(s, interrupted)
  }

  lemma NewIsNotHeld(s: System, q: IncrRequest)
    requires Inv(s) && Enabled(s, Issue(q))
    ensures q !in Held(s, s.leader)
  {
    IssueLeader(s, q);
    OccursOnce(s.issued + [q], |s.issued|);
    assert (s.issued + [q])[..|s.issued|] == s.issued;
    HeldAreIssued(s, s.leader);
  }

  lemma IssueTidy(s: System, interrupted: set<IncrRequest>, q: IncrRequest)
    requires Inv(s) && Tidy(s, interrupted) && Enabled(s, Issue(q))
    ensures Tidy(Step(s, Issue(q)), interrupted)
  {
    NewIsNotHeld(s, q);
    IssueFrame(s, interrupted, q);
  }

  lemma IssueFrame(s: System, interrupted: set<IncrRequest>, q: IncrRequest)
    requires Tidy(s, interrupted) && s.call.None? && Enabled(s, Issue(q)) && q !in Held(s, s.leader)
    ensures Tidy(Step(s, Issue(q)), interrupted)
  {
    var s' := Step(s, Issue(q));
    SameArrivals(s, s');
    assert Held(s', s.leader) == Held(s, s.leader);
    assert forall f :: Pending(s', f) == Pending(s, f);
  }

  lemma ServeNewOutstanding(s: System, s': System)
    requires OnlyOutstanding(s) && AppliesNext(s, s')
    ensures OnlyOutstanding(s') && SentByLeader(s', s.call.value)
  {
    forall f, p | f in s'.live && f != s'.leader && p in Pending(s', f)
      ensures s'.call == Some(p.req) && p in s'.handlers
    {
      assert p in Pending(s, f) || p == NewParcel(s);
    }
    assert NewParcel(s) in s'.handlers;
  }

  lemma ServeNewTidy(s: System, interrupted: set<IncrRequest>, s': System)
    requires Stream(s) && ValuesOk(s) && s.leader in s.live && Tidy(s, interrupted) && AppliesNext(s, s')
    ensures Tidy(s', interrupted)
  {
    OutstandingIsIssuedLast(s);
    ArrivalKeepsOrder(s, s.leader, NewAck(s), s');
    ServeNewOutstanding(s, s');
  }

  predicate NothingOnTheWay(s: System) {
    forall f, p :: f in s.live && f != s.leader ==> p !in Pending(s, f)
  }

  /** After an acknowledgement nothing is under way. */
  lemma AckTidy(s: System, interrupted: set<IncrRequest>, s': System)
    requires Ordered(s) && NothingOnTheWay(s)
    requires s'.arrived == s.arrived && s'.live == s.live && s'.leader == s.leader && s'.pending == s.pending
    requires s'.call.None? && s'.dedup && s'.cacheAcked <= interrupted
    ensures Tidy(s', interrupted)
  {
    SameArrivals(s, s');
    assert forall f :: Pending(s', f) == Pending(s, f);
  }

  /** There is one message for each request. */
  lemma OneMessage(s: System, f: string, x: Parcel, p: Parcel)
    requires MessagesOk(s) && f in s.live && p in s.handlers
    ensures x in Pending(s, f) && x.req == p.req ==> x == p
  {
    assert x in Pending(s, f) ==> IsMessage(s.dedup, s.issued, x);
    assert IsMessage(s.dedup, s.issued, p);
  }

  lemma FinishTidy(s: System, interrupted: set<IncrRequest>, p: Parcel)
    requires MessagesOk(s) && Tidy(s, interrupted) && Enabled(s, Finish(p))
    ensures Tidy(Step(s, Finish(p)), interrupted)
  {
    forall f, x | f in s.live && f != s.leader ensures x !in Pending(s, f) {
      OneMessage(s, f, x, p);
    }
    AckTidy(s, interrupted, Step(s, Finish(p)));
  }

  lemma NothingSent(s: System)
    requires OnlyOutstanding(s) && Enabled(s, Serve) && AskedOnce(s, Serve)
    ensures NothingOnTheWay(s)
  {
    forall f, p | f in s.live && f != s.leader ensures p !in Pending(s, f) {
      assert p in s.handlers ==> p.req != s.call.value;
    }
  }

  lemma ServeHitTidy(s: System, interrupted: set<IncrRequest>)
    requires LeaderInv(s) && Tidy(s, interrupted) && Enabled(s, Serve) && AskedOnce(s, Serve)
    requires s.call.value in Held(s, s.leader)
    ensures Tidy(Step(s, Serve), interrupted)
  {
    ServeHit(s);
    NothingSent(s);
    AckTidy(s, interrupted, Step(s, Serve));
  }

  lemma DeliverFrame(s: System, interrupted: set<IncrRequest>, f: string, p: Parcel, a: Ack, s': System)
    requires Tidy(s, interrupted) && Arrives(s, f, a, s') && f != s.leader && Ordered(s') && s'.handlers == s.handlers
    requires s'.pending == s.pending[f := Pending(s, f) - {p}]
    ensures Tidy(s', interrupted)
  {
    HeldAfter(s, f, a, s');
    assert forall g, x :: x in Pending(s', g) ==> x in Pending(s, g);
    assert forall q :: SentByLeader(s', q) == SentByLeader(s, q);
  }

  /** What is delivered is a message of the last issued request. */
  lemma DeliversLast(s: System, f: string, p: Parcel)
    requires Stream(s) && OnlyOutstanding(s) && Enabled(s, Deliver(f, p))
    ensures s.issued != [] && p.req == s.issued[|s.issued| - 1]
  {
    OutstandingIsIssuedLast(s);
  }

  lemma DeliverTidy(s: System, interrupted: set<IncrRequest>, f: string, p: Parcel)
    requires Inv(s) && Tidy(s, interrupted) && Enabled(s, Deliver(f, p))
    ensures Tidy(Step(s, Deliver(f, p)), interrupted)
  {
    DeliversLast(s, f, p);
    DeliverOrdered(s, f, p);
    DeliverFrame(s, interrupted, f, p, Ack(p.req, p.msg.newValue), Step(s, Deliver(f, p)));
  }

  lemma CrashTidy(s: System, interrupted: set<IncrRequest>, f: string)
    requires Tidy(s, interrupted) && Enabled(s, FollowerCrash(f))
    ensures Tidy(Step(s, FollowerCrash(f)), interrupted)
  {
    var s' := Step(s, FollowerCrash(f));
    SameArrivals(s, s');
    assert Held(s', s.leader) == Held(s, s.leader);
    assert forall g :: Pending(s', g) == Pending(s, g);
    assert forall q :: SentByLeader(s', q) == SentByLeader(s, q);
  }

  lemma StepTidy(s: System, interrupted: set<IncrRequest>, a: Action)
    requires Inv(s) && Tidy(s, interrupted) && !a.LeaderCrash? && AskedOnce(s, a)
    ensures Tidy(Step(s, a), interrupted)
  {
    if Enabled(s, a) {
      match a
      case Issue(q) => IssueTidy(s, interrupted, q);
      case Serve =>
        if s.call.value in Held(s, s.leader) {
          ServeHitTidy(s, interrupted);
        } else {
          ServeNew(s);
          ServeNewTidy(s, interrupted, Step(s, a));
        }
      case Deliver(f, p) => DeliverTidy(s, interrupted, f, p);
      case Finish(p) => FinishTidy(s, interrupted, p);
      case FollowerCrash(f) => CrashTidy(s, interrupted, f);
    }
  }

  lemma {:induction false} RunTidy(s: System, interrupted: set<IncrRequest>, actions: seq<Action>)
    requires Inv(s) && Tidy(s, interrupted) && NoLeaderCrash(actions) && AlwaysAskedOnce(s, actions)
    ensures Inv(Exec(s, actions)) && Tidy(Exec(s, actions), interrupted)
  {
    if actions != [] {
      var n := |actions| - 1;
      RunTidy(s, interrupted, actions[..n]);
      StepInv(Exec(s, actions[..n]), actions[n]);
      StepTidy(Exec(s, actions[..n]), interrupted, actions[n]);
    }
  }

  // ---- lacking one request ----------------------------------------------------------------

  /** The store of the whole stream without q: no reply for q, and its counter one short, unless a later
      request of that counter has made up for it. */
  ghost predicate LacksOnly(st: Store, reqs: seq<IncrRequest>, q: IncrRequest) {
    var full := Reference(reqs);
    && st.cache == full.cache - {RequestKey(q)}
    && (forall c :: Lookup(st.counters, c) ==
          Lookup(full.counters, c) -
          (if c == q.counterId && Rank(reqs, q) == Lookup(full.counters, c) then 1 else 0))
  }

  lemma CacheWithout(acks: seq<Ack>, reqs: seq<IncrRequest>, q: IncrRequest)
    requires Distinct(reqs) && Ranked(acks, reqs) && q in reqs && Among(Requests(acks)) == Among(reqs) - {q}
    ensures Stored(acks).cache == Reference(reqs).cache - {RequestKey(q)}
  {
    var got, want := Stored(acks).cache, Reference(reqs).cache - {RequestKey(q)};
    forall k | k in got ensures k in want && got[k] == want[k] {
      CacheIsPart(acks, reqs, k);
      StoredKeyArrived(acks, k);
      var a :| a in acks && RequestKey(a.req) == k;
      InRequests(acks, a);
      assert a.req in Among(Requests(acks));
      KeysTellApart(reqs, a.req, q);
    }
    forall k | k in want ensures k in got {
      ReferenceKeys(reqs, k);
      var p :| p in reqs && RequestKey(p) == k;
      assert p in Among(Requests(acks));
      StoredCaches(acks, reqs, p);
    }
  }

  /** The counter reaches what has arrived, and what has arrived reaches the counter. */
  lemma TopArrived(acks: seq<Ack>, reqs: seq<IncrRequest>, p: IncrRequest)
    requires Distinct(reqs) && Ranked(acks, reqs) && NewestLast(acks) && p in Requests(acks)
    requires Rank(reqs, p) == Lookup(Reference(reqs).counters, p.counterId)
    ensures Lookup(Stored(acks).counters, p.counterId) == Lookup(Reference(reqs).counters, p.counterId)
  {
    ArrivedIsCounted(acks, reqs, p);
    CountersStayBelow(acks, reqs, p.counterId);
  }

  /** For counters on which q is not the last request. */
  lemma CounterWithout(acks: seq<Ack>, reqs: seq<IncrRequest>, q: IncrRequest, c: string)
    requires Distinct(reqs) && Ranked(acks, reqs) && NewestLast(acks) && q in reqs
    requires Among(Requests(acks)) == Among(reqs) - {q}
    requires c != q.counterId || Rank(reqs, q) != Lookup(Reference(reqs).counters, c)
    ensures Lookup(Stored(acks).counters, c) == Lookup(Reference(reqs).counters, c)
  {
    assert reqs[..|reqs|] == reqs;
    if c in Reference(reqs).counters {
      var i := CounterIsRank(reqs, |reqs|, c);
      assert reqs[i] in Among(Requests(acks));
      TopArrived(acks, reqs, reqs[i]);
    } else {
      NoneArrived(acks, reqs, c);
    }
  }

  lemma NoneArrived(acks: seq<Ack>, reqs: seq<IncrRequest>, c: string)
    requires Distinct(reqs) && Ranked(acks, reqs) && c !in Reference(reqs).counters
    ensures c !in Stored(acks).counters
  {
    CounterIsLastValue(acks, c);
    if c in Stored(acks).counters {
      var a :| a in acks && a.req.counterId == c;
      var i := IndexOf(reqs, a.req);
      assert reqs[..|reqs|] == reqs;
      RankWithinCounter(reqs, |reqs|, i);
    }
  }

  /** Nothing that has arrived reaches the rank of the last request of its counter, which has not. */
  lemma OneShortAtMost(acks: seq<Ack>, reqs: seq<IncrRequest>, i: nat)
    requires Distinct(reqs) && Ranked(acks, reqs) && i < |reqs|
    requires Among(Requests(acks)) == Among(reqs) - {reqs[i]}
    requires Rank(reqs, reqs[i]) == Lookup(Reference(reqs).counters, reqs[i].counterId)
    ensures Lookup(Stored(acks).counters, reqs[i].counterId) <= Rank(reqs, reqs[i]) - 1
  {
    var c := reqs[i].counterId;
    CounterIsLastValue(acks, c);
    if c in Stored(acks).counters {
      var a :| a in acks && a.req.counterId == c && a.value == LastValue(acks, c);
      InRequests(acks, a);
      assert a.req in Among(Requests(acks));
      var j := IndexOf(reqs, a.req);
      assert reqs[..|reqs|] == reqs;
      RankWithinCounter(reqs, |reqs|, j);
      RanksDiffer(reqs, i, j);
    } else {
      RankStays(reqs, i);
      ReferenceIsPositive(reqs[..i], c);
    }
  }

  lemma RanksDiffer(reqs: seq<IncrRequest>, i: nat, j: nat)
    requires Distinct(reqs) && i < |reqs| && j < |reqs| && i != j && reqs[i].counterId == reqs[j].counterId
    ensures Rank(reqs, reqs[i]) != Rank(reqs, reqs[j])
  {
    if i < j {
      RanksGrow(reqs, i, j);
    } else {
      RanksGrow(reqs, j, i);
    }
  }

  /** But the request of that counter before it has arrived, if there is one. */
  lemma OneShortAtLeast(acks: seq<Ack>, reqs: seq<IncrRequest>, i: nat)
    requires Distinct(reqs) && Ranked(acks, reqs) && NewestLast(acks) && i < |reqs|
    requires Among(Requests(acks)) == Among(reqs) - {reqs[i]}
    ensures Lookup(Stored(acks).counters, reqs[i].counterId) >= Rank(reqs, reqs[i]) - 1
  {
    var c := reqs[i].counterId;
    RankStays(reqs, i);
    OccursOnce(reqs, i);
    if c in Reference(reqs[..i]).counters {
      var j := CounterIsRank(reqs, i, c);
      assert reqs[..i][j] == reqs[j];
      assert reqs[j] in Among(Requests(acks));
      ArrivedIsCounted(acks, reqs, reqs[j]);
    } else {
      StoredIsPositive(acks, reqs, c);
    }
  }

  lemma StoredIsPositive(acks: seq<Ack>, reqs: seq<IncrRequest>, c: string)
    requires Distinct(reqs) && Ranked(acks, reqs)
    ensures Lookup(Stored(acks).counters, c) >= 0
  {
    CounterIsLastValue(acks, c);
    if c in Stored(acks).counters {
      var a :| a in acks && a.req.counterId == c && a.value == LastValue(acks, c);
      var j := IndexOf(reqs, a.req);
      RankStays(reqs, j);
      ReferenceIsPositive(reqs[..j], c);
    }
  }

  /** For the counter on which q is the last request. */
  lemma CounterOneShort(acks: seq<Ack>, reqs: seq<IncrRequest>, q: IncrRequest)
    requires Distinct(reqs) && Ranked(acks, reqs) && NewestLast(acks) && q in reqs
    requires Among(Requests(acks)) == Among(reqs) - {q}
    requires Rank(reqs, q) == Lookup(Reference(reqs).counters, q.counterId)
    ensures Lookup(Stored(acks).counters, q.counterId) == Rank(reqs, q) - 1
  {
    var i := IndexOf(reqs, q);
    RankStays(reqs, i);
    OneShortAtMost(acks, reqs, i);
    OneShortAtLeast(acks, reqs, i);
  }

  lemma StoreWithout(acks: seq<Ack>, reqs: seq<IncrRequest>, q: IncrRequest)
    requires Distinct(reqs) && Ranked(acks, reqs) && NewestLast(acks) && q in reqs
    requires Among(Requests(acks)) == Among(reqs) - {q}
    ensures LacksOnly(Stored(acks), reqs, q)
  {
    CacheWithout(acks, reqs, q);
    forall c ensures Lookup(Stored(acks).counters, c) ==
                     Lookup(Reference(reqs).counters, c) -
                     (if c == q.counterId && Rank(reqs, q) == Lookup(Reference(reqs).counters, c) then 1 else 0)
    {
      if c == q.counterId && Rank(reqs, q) == Lookup(Reference(reqs).counters, c) {
        CounterOneShort(acks, reqs, q);
      } else {
        CounterWithout(acks, reqs, q, c);
      }
    }
  }

  /** The leader holds every issued request once, and f equals it or lacks only a request among those
      interrupted, which was acknowledged from a cache. */
  ghost predicate EqualOrLacking(s: System, f: string, interrupted: set<IncrRequest>) {
    && f in s.replicas && s.leader in s.replicas && s.replicas[s.leader].store == Reference(s.issued)
    && (|| s.replicas[f].store == s.replicas[s.leader].store
        || exists q :: q in interrupted && q in s.cacheAcked && LacksOnly(s.replicas[f].store, s.issued, q))
  }

  /** What a live server holds when nothing is outstanding. */
  lemma TidyReplica(s: System, interrupted: set<IncrRequest>, f: string)
    requires Inv(s) && Tidy(s, interrupted) && s.call.None? && f in s.live && |interrupted| <= 1
    ensures EqualOrLacking(s, f, interrupted)
  {
    LeaderIsSettled(s);
    HeldAreIssued(s, f);
    assert Among(Requests(s.done)) - s.cacheAcked <= Held(s, f);
    if Among(s.issued) <= Held(s, f) {
      assert Held(s, f) == Among(s.issued[..|s.issued|]);
      LevelAt(s, f, |s.issued|);
    } else {
      var q :| q in Among(s.issued) && q !in Held(s, f);
      OnlyElement(interrupted, q);
      assert Held(s, f) == Among(s.issued) - {q};
      StoreWithout(Arrived(s, f), s.issued, q);
    }
  }

  lemma OnlyElement(s: set<IncrRequest>, q: IncrRequest)
    requires |s| <= 1 && q in s
    ensures s == {q}
  {
    assert |s - {q}| == |s| - 1;
    assert s == (s - {q}) + {q};
  }

  lemma StartTidy(s: System)
    requires s.dedup && Ordered(s) && s.cacheAcked == {} && s.pending == map[]
    ensures Tidy(s, Interrupted(s.call))
  {
    assert forall f :: Pending(s, f) == {};
  }

  /** One leader crash at any point, and a client that goes on issuing requests but asks the new leader at
      most once for each: whenever nothing is outstanding, the new leader has performed every request
      once, and every other live server equals it or lacks only the request that the crash interrupted. */
  lemma ReplicasAfterOneCrash(s0: System, before: seq<Action>, next: string, views: map<string, ViewState>,
                              after: seq<Action>, f: string)
    requires Initial(s0) && s0.dedup && NeverAskedAgain(s0, before)
    requires Enabled(Exec(s0, before), LeaderCrash(next, views))
    requires NoLeaderCrash(after) && AlwaysAskedOnce(Exec(s0, before + [LeaderCrash(next, views)]), after)
    requires var s := Exec(s0, before + [LeaderCrash(next, views)] + after); s.call.None? && f in s.live
    ensures EqualOrLacking(Exec(s0, before + [LeaderCrash(next, views)] + after), f,
                           Interrupted(Exec(s0, before).call))
  {
    var front := before + [LeaderCrash(next, views)];
    var s1 := Exec(s0, front);
    AfterCrash(s0, before, next, views);
    ExecSplit(s0, front, after);
    StartTidy(s1);
    RunTidy(s1, Interrupted(s1.call), after);
    TidyReplica(Exec(s1, after), Interrupted(s1.call), f);
  }

  ghost predicate HeldWasSent(s: System) {
    forall q :: q in Held(s, s.leader) ==> SentByLeader(s, q)
  }

  lemma HeldIsSent(s: System, a: Action)
    requires HeldWasSent(s) && !a.LeaderCrash?
    ensures HeldWasSent(Step(s, a))
  {
    var s' := Step(s, a);
    assert s'.leader == s.leader && s.handlers <= s'.handlers;
    forall q | q in Held(s', s.leader) ensures SentByLeader(s', q) {
      if q in Held(s, s.leader) {
        var p :| p in s.handlers && p.req == q;
        assert p in s'.handlers;
      } else {
        NewlyHeldIsSent(s, a, q);
      }
    }
  }

  lemma NewlyHeldIsSent(s: System, a: Action, q: IncrRequest)
    requires !a.LeaderCrash? && q in Held(Step(s, a), s.leader) && q !in Held(s, s.leader)
    ensures SentByLeader(Step(s, a), q)
  {
    var s' := Step(s, a);
    assert Arrived(s', s.leader) != Arrived(s, s.leader);
    var msg := HandleIncr(s.replicas[s.leader], s.call.value).emitted.value;
    RequestsUnfold(Arrived(s, s.leader), Ack(s.call.value, msg.newValue));
    assert Parcel(s.call.value, msg) in s'.handlers;
  }

  lemma {:induction false} LeaderSentWhatItHas(s0: System, actions: seq<Action>)
    requires Initial(s0) && NoLeaderCrash(actions)
    ensures HeldWasSent(Exec(s0, actions))
  {
    if actions == [] {
      assert Arrived(s0, s0.leader) == [];
    } else {
      LeaderSentWhatItHas(s0, actions[..|actions| - 1]);
      HeldIsSent(Exec(s0, actions[..|actions| - 1]), actions[|actions| - 1]);
    }
  }

  /** Before the first leader crash the client's rule says that the leader is not asked for what it has. */
  lemma {:induction false} AskedOnceIsNotAgain(s0: System, before: seq<Action>)
    requires Initial(s0) && NoLeaderCrash(before) && AlwaysAskedOnce(s0, before)
    ensures NeverAskedAgain(s0, before)
  {
    if before != [] {
      AskedOnceIsNotAgain(s0, before[..|before| - 1]);
      LeaderSentWhatItHas(s0, before[..|before| - 1]);
    }
  }
}
