/** Runs of Failover.dfy with an unsafe step: what is lost, and how it shows. */
module FailoverRuns {
  import opened Messages
  import opened Replicas
  import opened ExactlyOnce
  import opened Streams
  import opened Failover

  function FirstParcel(dedup: bool, q: IncrRequest): Parcel {
    Parcel(q, ReplicateFor(dedup, q, 1))
  }

  function WithFirst(r: Replica, q: IncrRequest): Replica {
    r.(store := Shown(r.dedup, Once(EMPTY_STORE, q)))
  }

  /** q has been applied by the leader of a fresh cluster, and its messages are all under way. */
  predicate Sending(s0: System, s: System, q: IncrRequest) {
    && s0.leader in s0.replicas && s.replicas == s0.replicas[s0.leader := WithFirst(s0.replicas[s0.leader], q)]
    && s.live == s0.live && s.leader == s0.leader && s.dedup == s0.dedup
    && s.call == Some(q) && s.issued == [q] && s.done == []
    && (forall f :: f in s.live && f != s.leader ==> Pending(s, f) == {FirstParcel(s.dedup, q)})
  }

  lemma ExecUnfold(s: System, actions: seq<Action>, a: Action)
    ensures Exec(s, actions + [a]) == Step(Exec(s, actions), a)
  {
    assert (actions + [a])[..|actions|] == actions;
  }

  lemma IssueFirst(s: System, q: IncrRequest)
    requires s.call == None && s.issued == [] && Tracked(q)
    ensures Step(s, Issue(q)) == s.(call := Some(q), issued := [q])
  {
  }

  lemma ServeFirst(s0: System, q: IncrRequest)
    requires Initial(s0) && Tracked(q)
    ensures Sending(s0, Step(Step(s0, Issue(q)), Serve), q)
  {
    IssueFirst(s0, q);
    FirstIncrement(s0.replicas[s0.leader], q);
  }

  lemma FirstIncrement(r: Replica, q: IncrRequest)
    requires r.Serving() && Tracked(q) && r.store == EMPTY_STORE
    ensures HandleIncr(r, q).next == WithFirst(r, q)
    ensures HandleIncr(r, q).emitted == Some(FirstParcel(r.dedup, q).msg)
  {
    AppliesNew(r, EMPTY_STORE, q);
  }

  lemma DeliverOnly(s: System, f: string, p: Parcel)
    requires f in s.live && f != s.leader && f in s.replicas && p in Pending(s, f)
    ensures Step(s, Deliver(f, p)) ==
            s.(replicas := s.replicas[f := HandleReplicate(s.replicas[f], p.msg)],
               pending := s.pending[f := Pending(s, f) - {p}],
               arrived := s.arrived[f := Arrived(s, f) + [Ack(p.req, p.msg.newValue)]])
  {
  }

  lemma FirstMessage(r: Replica, q: IncrRequest)
    requires r.store == EMPTY_STORE && Tracked(q)
    ensures HandleReplicate(r, FirstParcel(r.dedup, q).msg) == WithFirst(r, q)
  {
    StoresMessage(r, EMPTY_STORE, q, 1);
  }

  /** The leader crashes; next takes over. */
  lemma TakeOver(s: System, next: string, views: map<string, ViewState>)
    requires Enabled(s, LeaderCrash(next, views))
    ensures var s' := Step(s, LeaderCrash(next, views));
            && s'.leader == next && s'.live == s.live - {s.leader} && s'.replicas.Keys == s.replicas.Keys
            && (forall f :: f in s.replicas ==>
                  s'.replicas[f] == Reviewed(s.replicas[f], f, views))
            && s'.replicas[next].Serving()
            && s'.pending == map[] && s'.handlers == {} && s'.call == s.call && s'.issued == s.issued
            && s'.done == s.done && s'.dedup == s.dedup
  {
  }

  lemma AnswerFromCache(s: System, q: IncrRequest)
    requires s.call == Some(q) && Tracked(q) && s.leader in s.replicas && s.replicas[s.leader].Serving()
    requires s.replicas[s.leader].dedup && s.replicas[s.leader].store == Once(EMPTY_STORE, q)
    ensures Step(s, Serve) ==
            s.(call := None, done := s.done + [Ack(q, 1)], cacheAcked := s.cacheAcked + {q})
  {
    assert s.replicas[s.leader := s.replicas[s.leader]] == s.replicas;
  }

  lemma ExecTwo(s: System, a: Action, b: Action)
    ensures Exec(s, [a, b]) == Step(Step(s, a), b)
  {
    ExecUnfold(s, [], a);
    ExecUnfold(s, [a], b);
    assert [] + [a] == [a] && [a] + [b] == [a, b];
  }

  /** The run in which q is acknowledged, and the successor has never heard of it. */
  predicate Lost(s: System, q: IncrRequest, successor: string) {
    && s.done == [Ack(q, 1)] && s.issued == [q] && s.call == None && s.handlers == {}
    && s.leader == successor && successor in s.replicas && s.replicas[successor].Serving()
    && s.replicas[successor].store == EMPTY_STORE && s.replicas[successor].dedup && s.dedup
  }

  lemma OneRequest(q: IncrRequest)
    ensures Reference([q]) == Once(EMPTY_STORE, q) != EMPTY_STORE && [q][..1] == [q]
  {
    assert [q][..0] == [];
    assert RequestKey(q) in Once(EMPTY_STORE, q).cache;
  }

  lemma LostIsNotOnce(s: System, q: IncrRequest, successor: string)
    requires Lost(s, q, successor)
    ensures !CountedOnce(s)
  {
    OneRequest(q);
  }

  /** b answers q from its cache and dies; c, which has not got it, takes over. */
  lemma AnswerAndCrash(s: System, b: string, c: string, q: IncrRequest, views: map<string, ViewState>)
    requires s.call == Some(q) && Tracked(q) && s.issued == [q] && s.done == [] && s.dedup
    requires s.leader == b && b in s.replicas && s.replicas[b].Serving() && s.replicas[b].dedup
    requires s.replicas[b].store == Once(EMPTY_STORE, q)
    requires c in s.live && c != b && c in s.replicas && s.replicas[c].store == EMPTY_STORE && s.replicas[c].dedup
    requires Reviewed(s.replicas[c], c, views).Serving()
    ensures var s' := Exec(s, [Serve, LeaderCrash(c, views)]);
            Lost(s', q, c) && s'.live == s.live - {b}
  {
    ExecTwo(s, Serve, LeaderCrash(c, views));
    AnswerFromCache(s, q);
    TakeOver(Step(s, Serve), c, views);
  }

  /** One leader crash: the request is sent again while its first messages are under way, answered from
      the cache at once and acknowledged as 1; then the leader dies before reaching anybody. */
  lemma EarlyAnswerIsLost(s0: System, b: string, q: IncrRequest, views: map<string, ViewState>)
    requires Initial(s0) && s0.dedup && Tracked(q) && b in s0.live && b != s0.leader
    requires Reviewed(s0.replicas[b], b, views).Serving()
    ensures var s := Exec(s0, [Issue(q), Serve] + [Serve, LeaderCrash(b, views)]);
            Lost(s, q, b) && !CountedOnce(s)
  {
    ExecSplit(s0, [Issue(q), Serve], [Serve, LeaderCrash(b, views)]);
    ExecTwo(s0, Issue(q), Serve);
    ServeFirst(s0, q);
    var s2 := Exec(s0, [Issue(q), Serve]);
    LeaderHasFirst(s0, s2, q, b, views);
    AnswerAndCrash(s2, s0.leader, b, q, views);
    LostIsNotOnce(Exec(s2, [Serve, LeaderCrash(b, views)]), q, b);
  }

  lemma LeaderHasFirst(s0: System, s: System, q: IncrRequest, b: string, views: map<string, ViewState>)
    requires Initial(s0) && Sending(s0, s, q) && s.dedup && b in s.live && b != s.leader
    ensures s.leader in s.replicas && s.replicas[s.leader].Serving() && s.replicas[s.leader].dedup
    ensures s.replicas[s.leader].store == Once(EMPTY_STORE, q)
    ensures b in s.replicas && s.replicas[b].store == EMPTY_STORE && s.replicas[b].dedup
    ensures Reviewed(s.replicas[b], b, views) == Reviewed(s0.replicas[b], b, views)
  {
  }

  lemma ReachOne(s0: System, b: string, q: IncrRequest)
    requires Initial(s0) && Tracked(q) && b in s0.live && b != s0.leader
    ensures var s, l := Step(Exec(s0, [Issue(q), Serve]), Deliver(b, FirstParcel(s0.dedup, q))), s0.leader;
            && s.replicas == s0.replicas[l := WithFirst(s0.replicas[l], q)][b := WithFirst(s0.replicas[b], q)]
            && s.live == s0.live && s.leader == l && s.dedup == s0.dedup
            && s.call == Some(q) && s.issued == [q] && s.done == []
  {
    ExecTwo(s0, Issue(q), Serve);
    ServeFirst(s0, q);
    var s2 := Exec(s0, [Issue(q), Serve]);
    FirstMessage(s0.replicas[b], q);
    DeliverOnly(s2, b, FirstParcel(s0.dedup, q));
  }

  function FirstCrash(q: IncrRequest, b: string, views: map<string, ViewState>): seq<Action> {
    [Issue(q), Serve] + [Deliver(b, FirstParcel(true, q)), LeaderCrash(b, views)]
  }

  /** b has got the request and leads; c has not. */
  lemma ReachOneAndCrash(s0: System, b: string, c: string, q: IncrRequest, views: map<string, ViewState>)
    requires Initial(s0) && s0.dedup && Tracked(q)
    requires b in s0.live && c in s0.live && b != c && b != s0.leader && c != s0.leader
    requires Reviewed(s0.replicas[b], b, views).Serving()
    ensures var s := Exec(s0, FirstCrash(q, b, views));
            && s.call == Some(q) && s.issued == [q] && s.done == [] && s.dedup
            && s.leader == b && s.live == s0.live - {s0.leader} && b in s.replicas && c in s.replicas
            && s.replicas[b] == Reviewed(WithFirst(s0.replicas[b], q), b, views)
            && s.replicas[c] == Reviewed(s0.replicas[c], c, views)
  {
    ExecSplit(s0, [Issue(q), Serve], [Deliver(b, FirstParcel(true, q)), LeaderCrash(b, views)]);
    ExecTwo(Exec(s0, [Issue(q), Serve]), Deliver(b, FirstParcel(true, q)), LeaderCrash(b, views));
    ReachOne(s0, b, q);
    TakeOver(Step(Exec(s0, [Issue(q), Serve]), Deliver(b, FirstParcel(s0.dedup, q))), b, views);
  }

  /** The first leader reaches b only and dies. b answers the request sent again from its cache,
      without replicating it, and dies too. c has never heard of the request. */
  lemma SecondCrashLoses(s0: System, b: string, c: string, q: IncrRequest, views: map<string, ViewState>,
                         views': map<string, ViewState>)
    requires Initial(s0) && s0.dedup && Tracked(q)
    requires b in s0.live && c in s0.live && b != c && b != s0.leader && c != s0.leader
    requires Reviewed(s0.replicas[b], b, views).Serving()
    requires Reviewed(Reviewed(s0.replicas[c], c, views), c, views').Serving()
    ensures var s := Exec(s0, FirstCrash(q, b, views) + [Serve, LeaderCrash(c, views')]);
            Lost(s, q, c) && s.live == s0.live - {s0.leader} - {b} && !CountedOnce(s)
  {
    ExecSplit(s0, FirstCrash(q, b, views), [Serve, LeaderCrash(c, views')]);
    ReachOneAndCrash(s0, b, c, q, views);
    var s4 := Exec(s0, FirstCrash(q, b, views));
    AnswerAndCrash(s4, b, c, q, views');
    LostIsNotOnce(Exec(s4, [Serve, LeaderCrash(c, views')]), q, c);
  }

  /** And then the counter starts again: with c alone alive, the next request for the same counter is
      acknowledged with the value that q was acknowledged with. */
  lemma ValueAcknowledgedTwice(s0: System, b: string, c: string, p: IncrRequest, q: IncrRequest,
                               views: map<string, ViewState>, views': map<string, ViewState>)
    requires Initial(s0) && s0.dedup && Tracked(p) && Tracked(q) && !SameOperation(q, p) && p.counterId == q.counterId
    requires b in s0.live && c in s0.live && b != c && b != s0.leader && c != s0.leader && s0.live == {s0.leader, b, c}
    requires Reviewed(s0.replicas[b], b, views).Serving()
    requires Reviewed(Reviewed(s0.replicas[c], c, views), c, views').Serving()
    ensures var run := FirstCrash(q, b, views) + [Serve, LeaderCrash(c, views')] + NextCall(p);
            Exec(s0, run).done == [Ack(q, 1), Ack(p, 1)]
  {
    var two := FirstCrash(q, b, views) + [Serve, LeaderCrash(c, views')];
    SecondCrashLoses(s0, b, c, q, views, views');
    ExecSplit(s0, two, NextCall(p));
    assert s0.live - {s0.leader} - {b} == {c};
    LoneLeaderServes(Exec(s0, two), p, q, c);
  }

  function NextCall(p: IncrRequest): seq<Action> {
    [Issue(p), Serve] + [Finish(FirstParcel(true, p))]
  }

  lemma LoneLeaderApplies(s: System, p: IncrRequest, q: IncrRequest, c: string)
    requires Lost(s, q, c) && s.live == {c} && Tracked(p) && !SameOperation(q, p)
    ensures var s' := Step(Step(s, Issue(p)), Serve);
            && s'.done == s.done && s'.call == Some(p) && s'.handlers == {FirstParcel(true, p)}
            && s'.live == {c} && s'.leader == c
  {
    FirstIncrement(s.replicas[c], p);
  }

  lemma LoneLeaderServes(s: System, p: IncrRequest, q: IncrRequest, c: string)
    requires Lost(s, q, c) && s.live == {c} && Tracked(p) && !SameOperation(q, p)
    ensures Exec(s, NextCall(p)).done == [Ack(q, 1), Ack(p, 1)]
  {
    ExecUnfold(s, [Issue(p), Serve], Finish(FirstParcel(true, p)));
    ExecTwo(s, Issue(p), Serve);
    LoneLeaderApplies(s, p, q, c);
  }

  // ---- messages that overtake each other --------------------------------------------------

  function SecondParcel(q: IncrRequest): Parcel {
    Parcel(q, ReplicateFor(true, q, 2))
  }

  /** p has been answered from the cache while its message to the only follower f is still under way. */
  predicate EarlyAnswered(s0: System, s: System, f: string, p: IncrRequest) {
    && s.leader == s0.leader != f && s.live == {s.leader, f} && s.live <= s.replicas.Keys && s.dedup
    && f in s0.replicas && s.replicas[f] == s0.replicas[f] && s.replicas[f].store == EMPTY_STORE && s.replicas[f].dedup
    && s.replicas[s.leader].Serving() && s.replicas[s.leader].dedup
    && s.replicas[s.leader].store == Once(EMPTY_STORE, p)
    && Pending(s, f) == {FirstParcel(true, p)}
    && s.call == None && s.issued == [p] && s.done == [Ack(p, 1)] && s.cacheAcked == {p}
  }

  /** And q has been applied; the messages of both are on their way to f. */
  predicate BothSent(s0: System, s: System, f: string, p: IncrRequest, q: IncrRequest) {
    && s.leader == s0.leader != f && s.live == {s.leader, f} && s.live <= s.replicas.Keys && s.dedup
    && f in s0.replicas && s.replicas[f] == s0.replicas[f] && s.replicas[f].store == EMPTY_STORE && s.replicas[f].dedup
    && Pending(s, f) == {FirstParcel(true, p), SecondParcel(q)} && SecondParcel(q) in s.handlers
    && s.call == Some(q) && s.issued == [p, q] && s.done == [Ack(p, 1)] && s.cacheAcked == {p}
  }

  /** And both have been delivered, the older one last. */
  predicate Overtaken(s0: System, s: System, f: string, p: IncrRequest, q: IncrRequest) {
    && s.leader == s0.leader != f && s.live == {s.leader, f} && s.dedup
    && f in s0.replicas && f in s.replicas && s0.replicas[f].dedup
    && s.replicas[f] == s0.replicas[f].(store := Put(Put(EMPTY_STORE, q, 2), p, 1))
    && Pending(s, f) == {} && SecondParcel(q) in s.handlers
    && s.call == Some(q) && s.issued == [p, q] && s.done == [Ack(p, 1)] && s.cacheAcked == {p}
  }

  lemma AppliesSecond(r: Replica, p: IncrRequest, q: IncrRequest)
    requires r.Serving() && r.dedup && r.store == Once(EMPTY_STORE, p)
    requires Tracked(p) && Tracked(q) && p.counterId == q.counterId && !SameOperation(p, q)
    ensures HandleIncr(r, q).emitted == Some(SecondParcel(q).msg)
  {
    SameKeySameOperation(p, q);
    AppliesNew(r, Once(EMPTY_STORE, p), q);
  }

  lemma IssueNext(s: System, q: IncrRequest)
    requires s.call == None && Tracked(q) && forall i :: 0 <= i < |s.issued| ==> !SameOperation(s.issued[i], q)
    ensures Step(s, Issue(q)) == s.(call := Some(q), issued := s.issued + [q])
  {
  }

  lemma SendsSecond(s0: System, s: System, f: string, p: IncrRequest, q: IncrRequest)
    requires EarlyAnswered(s0, s, f, p)
    requires Tracked(p) && Tracked(q) && p.counterId == q.counterId && !SameOperation(p, q)
    ensures BothSent(s0, Exec(s, [Issue(q), Serve]), f, p, q)
  {
    ExecTwo(s, Issue(q), Serve);
    IssueNext(s, q);
    AppliesSecond(s.replicas[s.leader], p, q);
  }

  /** The newer message arrives first, then the older one sets the counter back to 1. */
  lemma OlderArrivesLast(s0: System, s: System, f: string, p: IncrRequest, q: IncrRequest)
    requires BothSent(s0, s, f, p, q) && Tracked(p) && Tracked(q) && FirstParcel(true, p) != SecondParcel(q)
    ensures Overtaken(s0, Exec(s, [Deliver(f, SecondParcel(q)), Deliver(f, FirstParcel(true, p))]), f, p, q)
  {
    var r := s.replicas[f];
    ExecTwo(s, Deliver(f, SecondParcel(q)), Deliver(f, FirstParcel(true, p)));
    DeliverOnly(s, f, SecondParcel(q));
    StoresMessage(r, EMPTY_STORE, q, 2);
    var s1 := Step(s, Deliver(f, SecondParcel(q)));
    assert Pending(s1, f) == {FirstParcel(true, p)};
    DeliverOnly(s1, f, FirstParcel(true, p));
    StoresMessage(s1.replicas[f], Put(EMPTY_STORE, q, 2), p, 1);
  }

  /** f leads alone, with both replies in its cache and its counter at 1. */
  predicate SetBack(s: System, f: string, p: IncrRequest, q: IncrRequest) {
    && s.leader == f && s.live == {f} && f in s.replicas && s.replicas[f].Serving() && s.replicas[f].dedup && s.dedup
    && s.replicas[f].store == Put(Put(EMPTY_STORE, q, 2), p, 1) && s.handlers == {}
    && s.call == None && s.issued == [p, q] && s.done == [Ack(p, 1), Ack(q, 2)]
  }

  lemma FinishAndCrash(s0: System, s: System, f: string, p: IncrRequest, q: IncrRequest, views: map<string, ViewState>)
    requires Overtaken(s0, s, f, p, q) && Reviewed(s0.replicas[f], f, views).Serving()
    ensures SetBack(Exec(s, [Finish(SecondParcel(q)), LeaderCrash(f, views)]), f, p, q)
  {
    ExecTwo(s, Finish(SecondParcel(q)), LeaderCrash(f, views));
    var s1 := Step(s, Finish(SecondParcel(q)));
    assert s1 == s.(call := None, done := [Ack(p, 1), Ack(q, 2)]);
    TakeOver(s1, f, views);
  }

  lemma CountsFromOne(r: Replica, p: IncrRequest, q: IncrRequest, t: IncrRequest)
    requires r.Serving() && r.dedup && r.store == Put(Put(EMPTY_STORE, q, 2), p, 1)
    requires Tracked(t) && t.counterId == p.counterId == q.counterId
    requires RequestKey(t) != RequestKey(p) && RequestKey(t) != RequestKey(q)
    ensures HandleIncr(r, t).emitted == Some(SecondParcel(t).msg)
  {
    AppliesNew(r, Put(Put(EMPTY_STORE, q, 2), p, 1), t);
  }

  lemma SetBackAnswers(s: System, f: string, p: IncrRequest, q: IncrRequest, t: IncrRequest)
    requires SetBack(s, f, p, q) && Tracked(p) && Tracked(q) && Tracked(t) && p.counterId == q.counterId == t.counterId
    requires !SameOperation(p, t) && !SameOperation(q, t)
    ensures Exec(s, [Issue(t), Serve] + [Finish(SecondParcel(t))]).done == [Ack(p, 1), Ack(q, 2), Ack(t, 2)]
  {
    ExecUnfold(s, [Issue(t), Serve], Finish(SecondParcel(t)));
    ExecTwo(s, Issue(t), Serve);
    IssueNext(s, t);
    SameKeySameOperation(t, p);
    SameKeySameOperation(t, q);
    CountsFromOne(s.replicas[f], p, q, t);
  }

  /** Up to the crash: p answered from the cache, q applied, the older message delivered last. */
  function Overtaking(f: string, p: IncrRequest, q: IncrRequest): seq<Action> {
    [Issue(p), Serve] + [Serve] + [Issue(q), Serve] + [Deliver(f, SecondParcel(q)), Deliver(f, FirstParcel(true, p))]
  }

  lemma AfterEarlyAnswer(s0: System, f: string, p: IncrRequest)
    requires Initial(s0) && s0.dedup && Tracked(p) && s0.live == {s0.leader, f} && f != s0.leader
    ensures EarlyAnswered(s0, Exec(s0, [Issue(p), Serve] + [Serve]), f, p)
  {
    ExecUnfold(s0, [Issue(p), Serve], Serve);
    ExecTwo(s0, Issue(p), Serve);
    ServeFirst(s0, p);
    var s1 := Exec(s0, [Issue(p), Serve]);
    LeaderHasFirst(s0, s1, p, f, map[]);
    AnswerFromCache(s1, p);
  }

  lemma AfterBothSent(s0: System, f: string, p: IncrRequest, q: IncrRequest)
    requires Initial(s0) && s0.dedup && s0.live == {s0.leader, f} && f != s0.leader
    requires Tracked(p) && Tracked(q) && p.counterId == q.counterId && !SameOperation(p, q)
    ensures BothSent(s0, Exec(s0, [Issue(p), Serve] + [Serve] + [Issue(q), Serve]), f, p, q)
  {
    AfterEarlyAnswer(s0, f, p);
    SendsSecond(s0, Exec(s0, [Issue(p), Serve] + [Serve]), f, p, q);
    ExecSplit(s0, [Issue(p), Serve] + [Serve], [Issue(q), Serve]);
  }

  lemma AfterOvertaking(s0: System, f: string, p: IncrRequest, q: IncrRequest)
    requires Initial(s0) && s0.dedup && s0.live == {s0.leader, f} && f != s0.leader
    requires Tracked(p) && Tracked(q) && p.counterId == q.counterId && !SameOperation(p, q)
    ensures Overtaken(s0, Exec(s0, Overtaking(f, p, q)), f, p, q)
  {
    var sent := [Issue(p), Serve] + [Serve] + [Issue(q), Serve];
    AfterBothSent(s0, f, p, q);
    OlderArrivesLast(s0, Exec(s0, sent), f, p, q);
    ExecSplit(s0, sent, [Deliver(f, SecondParcel(q)), Deliver(f, FirstParcel(true, p))]);
  }

  lemma OvertakenIsCached(s0: System, s: System, f: string, p: IncrRequest, q: IncrRequest)
    requires Overtaken(s0, s, f, p, q)
    ensures RequestKey(p) in s.replicas[f].store.cache && RequestKey(q) in s.replicas[f].store.cache
  {
  }

  /** Messages that overtake each other: the only follower has both p and q in its cache, and its counter
      is set back to 1 because the message of p, acknowledged before it arrived, came last. When it takes
      over, the next request is acknowledged with the value that q was acknowledged with. */
  lemma OvertakenValueAcknowledgedTwice(s0: System, f: string, p: IncrRequest, q: IncrRequest, t: IncrRequest,
                                        views: map<string, ViewState>)
    requires Initial(s0) && s0.dedup && s0.live == {s0.leader, f} && f != s0.leader
    requires Tracked(p) && Tracked(q) && Tracked(t) && p.counterId == q.counterId == t.counterId
    requires !SameOperation(p, q) && !SameOperation(p, t) && !SameOperation(q, t)
    requires Reviewed(s0.replicas[f], f, views).Serving()
    ensures var s := Exec(s0, Overtaking(f, p, q));
            && f in s.replicas && (forall x :: x in s.cacheAcked ==> RequestKey(x) in s.replicas[f].store.cache)
            && RequestKey(q) in s.replicas[f].store.cache
    ensures var crash := [Finish(SecondParcel(q)), LeaderCrash(f, views)];
            var next := [Issue(t), Serve] + [Finish(SecondParcel(t))];
            Exec(s0, Overtaking(f, p, q) + crash + next).done == [Ack(p, 1), Ack(q, 2), Ack(t, 2)]
  {
    var crash, next := [Finish(SecondParcel(q)), LeaderCrash(f, views)], [Issue(t), Serve] + [Finish(SecondParcel(t))];
    var s := Exec(s0, Overtaking(f, p, q));
    AfterOvertaking(s0, f, p, q);
    OvertakenIsCached(s0, s, f, p, q);
    FinishAndCrash(s0, s, f, p, q, views);
    SetBackAnswers(Exec(s, crash), f, p, q, t);
    ExecSplit(s0, Overtaking(f, p, q), crash);
    ExecSplit(s0, Overtaking(f, p, q) + crash, next);
  }

  // ---- dedup off --------------------------------------------------------------------------

  /** With dedup off a request that is sent again counts again. */
  lemma RetryCountsTwice(s0: System, q: IncrRequest)
    requires Initial(s0) && !s0.dedup && Tracked(q)
    ensures var s := Exec(s0, [Issue(q), Serve] + [Serve]);
            && s.issued == [q] && s0.leader in s.replicas
            && Lookup(s.replicas[s0.leader].store.counters, q.counterId) == 2 && !CountedOnce(s)
  {
    ExecUnfold(s0, [Issue(q), Serve], Serve);
    ExecTwo(s0, Issue(q), Serve);
    ServeFirst(s0, q);
    var s2 := Exec(s0, [Issue(q), Serve]);
    CountsAgain(s2.replicas[s0.leader], q);
    ServeAgain(s2, q);
    OneRequest(q);
  }

  lemma ServeAgain(s: System, q: IncrRequest)
    requires s.call == Some(q) && Tracked(q) && s.leader in s.replicas && s.replicas[s.leader].Serving()
    requires !s.replicas[s.leader].dedup
    ensures var s' := Step(s, Serve);
            && s'.replicas == s.replicas[s.leader := HandleIncr(s.replicas[s.leader], q).next]
            && s'.leader == s.leader && s'.issued == s.issued && s'.done == s.done && s'.dedup == s.dedup
  {
  }
}
