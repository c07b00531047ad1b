/** Runs in which the bounds of Quorums.dfy are met exactly, and runs in which a join breaks them. */
module BoundaryRuns {
  import opened Messages
  import opened Membership
  import opened Replicas
  import opened ViewChanges
  import opened Quorums

  /** Every initiation in the run is by a server that takes another one for its leader, as in a
      heartbeat that nothing interrupts. */
  predicate FollowerInitiates(c: Cluster, a: Action) {
    a.Initiate? ==> a.server in c.replicas && c.replicas[a.server].view.leader != a.server
  }

  /** The callers initiate view 1 one after the other, and b hears each of them. */
  function CallRun(b: string, callers: seq<string>): seq<Action> {
    if callers == [] then []
    else
      var n := |callers| - 1;
      CallRun(b, callers[..n]) + [Initiate(callers[n]), Deliver(b, ViewChangeMsg(1, callers[n]))]
  }

  function HearerView(all: Members, b: string, callers: set<string>): ViewState {
    if callers == {} then FreshView(all)
    else
      var votes := map[1 := {b} + callers];
      if |callers| == |all| / 2 then ViewState(1, b, false, votes) else ViewState(0, all[0], true, votes)
  }

  /** The state once b has heard the callers and nothing else has happened. */
  predicate Heard(c: Cluster, all: Members, dedup: bool, b: string, callers: set<string>) {
    && c.replicas.Keys == AsSet(all) == c.live && b in c.replicas
    && c.initiated == (set x | x in callers :: Initiation(x, 1))
    && c.replicas[b] == FreshReplica(b, all, dedup).(view := HearerView(all, b, callers))
    && (forall s :: s in c.replicas && s != b && s !in callers ==> c.replicas[s] == FreshReplica(s, all, dedup))
    && (forall s :: s in callers ==> s in c.replicas && c.replicas[s].view.number == 1 && c.replicas[s].view.changing)
  }

  lemma FirstInitiation(s: string, all: Members, dedup: bool)
    requires |all| >= 2
    ensures HandleInitiate(FreshReplica(s, all, dedup)).broadcast == Some(ViewChangeMsg(1, s))
    ensures var v := HandleInitiate(FreshReplica(s, all, dedup)).next.view; v.number == 1 && v.changing
  {
    assert {} + {s} == {s};
  }

  lemma AfterInitiate(c: Cluster, s: string, msg: ViewChangeMsg)
    requires Enabled(c, Initiate(s)) && HandleInitiate(c.replicas[s]).broadcast == Some(msg)
    requires HandleInitiate(c.replicas[s]).next.view.number == msg.view
    ensures Step(c, Initiate(s)) ==
              c.(replicas := c.replicas[s := HandleInitiate(c.replicas[s]).next],
                 net := c.net + {msg},
                 initiated := c.initiated + {Initiation(s, msg.view)})
  {
  }

  lemma AfterDelivery(c: Cluster, s: string, msg: ViewChangeMsg)
    requires Enabled(c, Deliver(s, msg))
    ensures Step(c, Deliver(s, msg)) ==
              c.(replicas := c.replicas[s := HandleViewChange(c.replicas[s], msg).next])
  {
  }

  /** What one more vote for view 1 does to a server in view 0. */
  lemma OneMoreVote(r: Replica, msg: ViewChangeMsg)
    requires r.view.number == 0 && msg.view == 1
    ensures var voters := VotersAfter(r, msg);
            var votes := r.view.votes[1 := voters];
            HandleViewChange(r, msg).next ==
              r.(view := if |voters| == Majority(|r.all|) then ViewState(1, LeaderOf(r.all, 1), false, votes)
                         else ViewState(0, r.view.leader, true, votes))
  {
  }

  lemma HearerStep(all: Members, dedup: bool, b: string, callers: set<string>, s: string)
    requires LeaderOf(all, 1) == b && |callers| < |all| / 2 && b !in callers && s !in callers && s != b
    ensures var r := FreshReplica(b, all, dedup).(view := HearerView(all, b, callers));
            HandleViewChange(r, ViewChangeMsg(1, s)).next == r.(view := HearerView(all, b, callers + {s}))
  {
    var r := FreshReplica(b, all, dedup).(view := HearerView(all, b, callers));
    OneMoreVote(r, ViewChangeMsg(1, s));
    var voters := {b} + (callers + {s});
    assert VotersAfter(r, ViewChangeMsg(1, s)) == voters;
    assert |voters| == |callers| + 2;
    assert r.view.votes[1 := voters] == map[1 := voters];
  }

  /** s, still fresh, initiates view 1 and b hears it. */
  lemma CallMoves(c: Cluster, all: Members, dedup: bool, b: string, s: string)
    requires |all| >= 2 && s in c.replicas && s in c.live && b in c.replicas && b in c.live && s != b
    requires c.replicas[s] == FreshReplica(s, all, dedup)
    ensures var c' := Step(Step(c, Initiate(s)), Deliver(b, ViewChangeMsg(1, s)));
            var r := HandleInitiate(c.replicas[s]).next;
            && c'.replicas == c.replicas[s := r][b := HandleViewChange(c.replicas[b], ViewChangeMsg(1, s)).next]
            && c'.live == c.live && c'.initiated == c.initiated + {Initiation(s, 1)}
            && r.view.number == 1 && r.view.changing
  {
    FirstInitiation(s, all, dedup);
    AfterInitiate(c, s, ViewChangeMsg(1, s));
    AfterDelivery(Step(c, Initiate(s)), b, ViewChangeMsg(1, s));
  }

  lemma CallStep(c: Cluster, all: Members, dedup: bool, b: string, callers: set<string>, s: string)
    requires Heard(c, all, dedup, b, callers) && |all| >= 2
    requires LeaderOf(all, 1) == b && |callers| < |all| / 2 && b !in callers && s !in callers && s != b
    requires s in c.replicas
    ensures Heard(Step(Step(c, Initiate(s)), Deliver(b, ViewChangeMsg(1, s))), all, dedup, b, callers + {s})
    ensures c.replicas[s].view.leader == all[0]
  {
    assert c.replicas[s] == FreshReplica(s, all, dedup);
    CallMoves(c, all, dedup, b, s);
    HearerStep(all, dedup, b, callers, s);
    var c' := Step(Step(c, Initiate(s)), Deliver(b, ViewChangeMsg(1, s)));
    assert c'.replicas.Keys == c.replicas.Keys;
  }

  lemma ExecOne(c: Cluster, actions: seq<Action>, a: Action, ok: (Cluster, Action) -> bool)
    ensures Exec(c, actions + [a]) == Step(Exec(c, actions), a)
    ensures EveryStep(c, actions + [a], ok) <==> EveryStep(c, actions, ok) && ok(Exec(c, actions), a)
  {
    assert (actions + [a])[..|actions|] == actions;
  }

  lemma ExecTwo(c: Cluster, actions: seq<Action>, a: Action, b: Action, ok: (Cluster, Action) -> bool)
    ensures Exec(c, actions + [a, b]) == Step(Step(Exec(c, actions), a), b)
    ensures EveryStep(c, actions + [a, b], ok) <==>
              EveryStep(c, actions, ok) && ok(Exec(c, actions), a) && ok(Step(Exec(c, actions), a), b)
  {
    ExecOne(c, actions, a, ok);
    ExecOne(c, actions + [a], b, ok);
    assert actions + [a, b] == actions + [a] + [b];
  }

  /** Servers of the cluster, each once, other than b and the first leader. */
  predicate Callers(all: Members, b: string, callers: seq<string>) {
    && LeaderOf(all, 1) == b && |callers| <= |all| / 2 && |AsSet(callers)| == |callers|
    && AsSet(callers) <= AsSet(all) && b !in callers && all[0] !in callers
  }

  lemma FewerCallers(all: Members, b: string, callers: seq<string>)
    requires Callers(all, b, callers) && callers != []
    ensures var n := |callers| - 1;
            && Callers(all, b, callers[..n]) && callers[n] in AsSet(all) && callers[n] != b && callers[n] != all[0]
            && callers[n] !in AsSet(callers[..n]) && AsSet(callers) == AsSet(callers[..n]) + {callers[n]}
  {
    var n := |callers| - 1;
    assert callers == callers[..n] + [callers[n]];
    assert AsSet(callers) == AsSet(callers[..n]) + {callers[n]};
    GrowsByAtMostOne(AsSet(callers[..n]), callers[n]);
    SetOfSeqSize(callers[..n]);
  }

  lemma {:induction false} SetOfSeqSize(xs: seq<string>)
    ensures |AsSet(xs)| <= |xs|
  {
    if xs != [] {
      var n := |xs| - 1;
      SetOfSeqSize(xs[..n]);
      assert xs == xs[..n] + [xs[n]];
      assert AsSet(xs) == AsSet(xs[..n]) + {xs[n]};
      GrowsByAtMostOne(AsSet(xs[..n]), xs[n]);
    }
  }

  lemma StartHeard(all: Members, dedup: bool, b: string)
    requires b in all
    ensures Heard(Start(all, dedup), all, dedup, b, {})
  {
  }

  lemma {:induction false} CallRunState(c: Cluster, all: Members, dedup: bool, b: string, callers: seq<string>)
    requires Heard(c, all, dedup, b, {}) && Callers(all, b, callers) && |all| >= 2
    ensures Heard(Exec(c, CallRun(b, callers)), all, dedup, b, AsSet(callers))
    ensures EveryStep(c, CallRun(b, callers), FollowerInitiates)
  {
    if callers == [] {
      assert AsSet(callers) == {};
    } else {
      var n := |callers| - 1;
      var before, s := callers[..n], callers[n];
      FewerCallers(all, b, callers);
      CallRunState(c, all, dedup, b, before);
      CallStep(Exec(c, CallRun(b, before)), all, dedup, b, AsSet(before), s);
      ExecTwo(c, CallRun(b, before), Initiate(s), Deliver(b, ViewChangeMsg(1, s)), FollowerInitiates);
    }
  }

  lemma {:induction false} CallRunHasNoJoins(b: string, callers: seq<string>)
    ensures NoJoins(CallRun(b, callers))
  {
    if callers != [] {
      CallRunHasNoJoins(b, callers[..|callers| - 1]);
    }
  }

  lemma CallersAreInitiators(c: Cluster, callers: set<string>)
    requires c.initiated == (set x | x in callers :: Initiation(x, 1))
    ensures Initiators(c, 1) == callers
  {
    forall x | x in callers ensures x in Initiators(c, 1) {
      assert Initiation(x, 1) in c.initiated;
    }
  }

  lemma SecondAndThird(all: Members)
    requires NoDuplicates(all) && |all| >= 3
    ensures LeaderOf(all, 1) == all[1] && all[1] in AsSet(all) && all[2] in AsSet(all)
    ensures all[0] != all[2] && all[1] != all[2]
  {
    assert 1 % |all| == 1;
  }

  /** One fewer than a majority, from all[2] on. */
  function FewCallers(all: Members): (callers: seq<string>)
    requires |all| >= 3
  {
    all[2..2 + |all| / 2]
  }

  lemma FewCallersAreDistinct(all: Members)
    requires NoDuplicates(all) && |all| >= 3
    ensures var xs := FewCallers(all);
            NoDuplicates(xs) && |xs| == |all| / 2 && forall i :: 0 <= i < |xs| ==> xs[i] == all[i + 2]
  {
  }

  lemma FewCallersAreCallers(all: Members)
    requires NoDuplicates(all) && |all| >= 3
    ensures Callers(all, all[1], FewCallers(all)) && |AsSet(FewCallers(all))| == Majority(|all|) - 1
    ensures FewCallers(all)[0] == all[2]
  {
    FewCallersAreDistinct(all);
    DistinctSize(FewCallers(all));
    SecondAndThird(all);
    var xs := FewCallers(all);
    forall x | x in xs ensures x in AsSet(all) && x != all[0] && x != all[1] {
      var i :| 0 <= i < |xs| && xs[i] == x;
      assert all[i + 2] == x;
    }
  }

  /** The bound of CommittedViewHasMajority is tight in every cluster of three or more: servers that
      follow another leader initiate view 1, one fewer than a majority of them, and all[1], which has
      not initiated it, hears them and serves view 1. */
  lemma CommitsOnFewerThanMajority(all: Members, dedup: bool)
    requires NoDuplicates(all) && |all| >= 3
    ensures var run := CallRun(all[1], FewCallers(all));
            var end, b := Exec(Start(all, dedup), run), all[1];
            && NoJoins(run) && EveryStep(Start(all, dedup), run, FollowerInitiates)
            && |Initiators(end, 1)| == Majority(|all|) - 1 && b !in Initiators(end, 1)
            && b in end.replicas && end.replicas[b].view.number == 1 && end.replicas[b].Serving()
  {
    FewCallersAreCallers(all);
    StartHeard(all, dedup, all[1]);
    CallRunState(Start(all, dedup), all, dedup, all[1], FewCallers(all));
    CallRunHasNoJoins(all[1], FewCallers(all));
    CallersAreInitiators(Exec(Start(all, dedup), CallRun(all[1], FewCallers(all))), AsSet(FewCallers(all)));
  }

  /** A join from a donor that has stored nothing. */
  lemma JoinFromEmpty(c: Cluster, all: Members, s: string, donor: string)
    requires WellFormed(c, all) && s in c.replicas && s !in c.live
    requires donor in c.replicas && donor in c.live && c.replicas[donor].store.cache == map[]
    ensures var c', w := Step(c, Join(s, Some(donor), [])), c.replicas[donor].view.number;
            && Enabled(c, Join(s, Some(donor), [])) && JoinView(c, Some(donor)) == w
            && JoinedAt(c, c', s, w) && c'.initiated == c.initiated
            && c'.replicas[s].self == s && c'.replicas[s].view == ViewState(w, LeaderOf(all, w), false, map[])
  {
    assert AsSet([]) == {};
    JoinStep(c, all, s, Some(donor), []);
  }

  /** s initiates view 1 from a state in which nothing has been initiated. */
  lemma UnheardInitiation(c: Cluster, all: Members, dedup: bool, s: string)
    requires WellFormed(c, all) && |all| >= 2 && s in c.live && s in c.replicas && c.initiated == {}
    requires forall t :: t in c.replicas ==> c.replicas[t] == FreshReplica(t, all, dedup)
    ensures var c' := Step(c, Initiate(s));
            && WellFormed(c', all) && c'.replicas.Keys == c.replicas.Keys && c'.live == c.live
            && Initiators(c', 1) == {s} && Ahead(c', 1) == {s} && MajorityBacked(c')
            && c'.replicas[s].view.number == 1
            && (forall t :: t in c'.replicas ==> c'.replicas[t].store == EMPTY_STORE && !Committed(c'.replicas[t].view))
  {
    FirstInitiation(s, all, dedup);
    AfterInitiate(c, s, ViewChangeMsg(1, s));
    StepWellFormed(c, all, Initiate(s));
    CallersAreInitiators(Step(c, Initiate(s)), {s});
  }

  lemma JoinUnheard(c: Cluster, all: Members, b: string, s: string)
    requires WellFormed(c, all) && |all| >= 3 && b in c.replicas && b !in c.live && s in c.replicas && s in c.live
    requires Ahead(c, 1) == {s} && b != s && MajorityBacked(c) && c.replicas[s].view.number == 1
    requires forall t :: t in c.replicas ==> c.replicas[t].store == EMPTY_STORE && !Committed(c.replicas[t].view)
    ensures MajorityBacked(Step(c, Join(b, Some(s), []))) <==> |all| == 3
  {
    JoinFromEmpty(c, all, b, s);
    assert |{s} + {b}| == 2;
    JoinKeepsBackedIff(c, all, b, Some(s), []);
  }

  lemma FetchesUnheardView(c: Cluster, all: Members, dedup: bool, b: string, s: string)
    requires WellFormed(c, all) && |all| >= 3 && b in c.replicas && s in c.live && s in c.replicas && b !in c.live
    requires c.initiated == {} && forall t :: t in c.replicas ==> c.replicas[t] == FreshReplica(t, all, dedup)
    ensures var c2, join := Step(c, Initiate(s)), Join(b, Some(s), []);
            var c3 := Step(c2, join);
            && KeepsView(c2, join) && Initiators(c3, 1) == {s}
            && b in c3.replicas && c3.replicas[b].self == b
            && c3.replicas[b].view == ViewState(1, LeaderOf(all, 1), false, map[])
            && (MajorityBacked(c3) <==> |all| == 3)
  {
    var c2 := Step(c, Initiate(s));
    UnheardInitiation(c, all, dedup, s);
    assert c2.replicas[b].view.number <= 1;
    JoinFromEmpty(c2, all, b, s);
    JoinUnheard(c2, all, b, s);
  }

  /** The three steps of JoinerServesUnvotedView, for any server b and initiator s. */
  function UnvotedRun(b: string, s: string): seq<Action> {
    [Crash(b)] + [Initiate(s), Join(b, Some(s), [])]
  }

  lemma UnvotedRunSteps(c: Cluster, b: string, s: string, ok: (Cluster, Action) -> bool)
    ensures var c1 := Step(c, Crash(b));
            var c2 := Step(c1, Initiate(s));
            && Exec(c, UnvotedRun(b, s)) == Step(c2, Join(b, Some(s), []))
            && (EveryStep(c, UnvotedRun(b, s), ok) <==>
                  ok(c, Crash(b)) && ok(c1, Initiate(s)) && ok(c2, Join(b, Some(s), [])))
  {
    ExecOne(c, [], Crash(b), ok);
    assert [] + [Crash(b)] == [Crash(b)];
    ExecTwo(c, [Crash(b)], Initiate(s), Join(b, Some(s), []), ok);
  }

  lemma StartIsFresh(all: Members, dedup: bool)
    requires NoDuplicates(all)
    ensures var c := Start(all, dedup);
            && WellFormed(c, all) && c.initiated == {} && c.live == c.replicas.Keys == AsSet(all)
            && (forall t :: t in c.replicas ==> c.replicas[t] == FreshReplica(t, all, dedup))
  {
    StartInv(all, dedup);
  }

  /** Joining from a donor in view-change mode: while all[1] is down, all[2] initiates view 1, and
      nobody hears it. Joining from it, all[1] serves view 1 with no vote at all. Two servers are then
      in view 1, so the committed view is backed in a cluster of three and in no larger one. */
  lemma JoinerServesUnvotedView(all: Members, dedup: bool)
    requires NoDuplicates(all) && |all| >= 3
    ensures var c, b, s := Start(all, dedup), all[1], all[2];
            var end := Exec(c, UnvotedRun(b, s));
            && EveryStep(c, UnvotedRun(b, s), FollowerInitiates) && EveryStep(c, UnvotedRun(b, s), KeepsView)
            && Initiators(end, 1) == {s}
            && b in end.replicas && end.replicas[b].view.number == 1 && end.replicas[b].Serving()
            && VotesFor(end.replicas[b].view, 1) == {}
            && (MajorityBacked(end) <==> |all| == 3)
  {
    SecondAndThird(all);
    StartIsFresh(all, dedup);
    ServesUnvotedView(Start(all, dedup), all, dedup, all[1], all[2]);
  }

  lemma ServesUnvotedView(c: Cluster, all: Members, dedup: bool, b: string, s: string)
    requires WellFormed(c, all) && |all| >= 3 && b in c.replicas && s in c.live && s in c.replicas && b in c.live
    requires s != b
    requires c.initiated == {} && s != all[0]
    requires forall t :: t in c.replicas ==> c.replicas[t] == FreshReplica(t, all, dedup)
    ensures var end := Exec(c, UnvotedRun(b, s));
            && EveryStep(c, UnvotedRun(b, s), FollowerInitiates) && EveryStep(c, UnvotedRun(b, s), KeepsView)
            && Initiators(end, 1) == {s}
            && b in end.replicas && end.replicas[b].self == b
            && end.replicas[b].view == ViewState(1, LeaderOf(all, 1), false, map[])
            && (MajorityBacked(end) <==> |all| == 3)
  {
    var c1 := c.(live := c.live - {b});
    assert c1 == Step(c, Crash(b));
    UnvotedRunSteps(c, b, s, FollowerInitiates);
    UnvotedRunSteps(c, b, s, KeepsView);
    assert c1.replicas[s].view.leader == all[0];
    FetchesUnheardView(c1, all, dedup, b, s);
  }

  lemma HeardAhead(c: Cluster, all: Members, dedup: bool, b: string, callers: set<string>)
    requires Heard(c, all, dedup, b, callers) && |callers| == |all| / 2 && |all| >= 2
    ensures Ahead(c, 1) == callers + {b}
  {
  }

  lemma SwapOut(callers: set<string>, b: string, s: string)
    requires s in callers && b !in callers
    ensures |callers + {b} - {s}| == |callers|
  {
    assert callers + {b} - {s} == (callers - {s}) + {b};
    assert callers == (callers - {s}) + {s};
  }

  lemma CallerRejoins(c: Cluster, all: Members, dedup: bool, b: string, callers: set<string>, s: string, donor: string)
    requires WellFormed(c, all) && |all| >= 3 && Heard(c, all, dedup, b, callers) && b !in callers && s in callers
    requires |callers| == |all| / 2 && donor in c.replicas && donor !in callers && donor != b
    ensures var join := Join(s, Some(donor), []);
            var c1 := Step(c, Crash(s));
            var c2 := Step(c1, join);
            && DonorBacked(c1, join)
            && b in c2.replicas && c2.replicas[b] == c.replicas[b] && |Ahead(c2, 1)| == Majority(|all|) - 1
  {
    var c1 := Step(c, Crash(s));
    assert c.replicas[donor] == FreshReplica(donor, all, dedup);
    JoinFromEmpty(c1, all, s, donor);
    HeardAhead(c, all, dedup, b, callers);
    assert Ahead(c1, 1) == Ahead(c, 1);
    AheadAfterJoin(c1, Step(c1, Join(s, Some(donor), [])), s, 0, 1);
    SwapOut(callers, b, s);
  }

  /** Joining at a view below one's own: all[1] has committed view 1 as above, on a bare majority. The
      first of its callers crashes and joins again from the first leader, still in view 0, and the
      majority behind view 1 is gone, although the donor is as good as any. */
  lemma RejoinerForgetsItsView(all: Members, dedup: bool)
    requires NoDuplicates(all) && |all| >= 3
    ensures var run := CallRun(all[1], FewCallers(all)) + [Crash(all[2]), Join(all[2], Some(all[0]), [])];
            var c, end := Start(all, dedup), Exec(Start(all, dedup), run);
            && EveryStep(c, run, FollowerInitiates) && EveryStep(c, run, DonorBacked)
            && all[1] in end.replicas && end.replicas[all[1]].view.number == 1 && end.replicas[all[1]].Serving()
            && |Ahead(end, 1)| == Majority(|all|) - 1
  {
    var b, s, calls := all[1], all[2], CallRun(all[1], FewCallers(all));
    var c0 := Start(all, dedup);
    FewCallersAreCallers(all);
    StartHeard(all, dedup, b);
    CallRunState(c0, all, dedup, b, FewCallers(all));
    CallRunHasNoJoins(b, FewCallers(all));
    NoJoinsMeetBoth(c0, calls);
    RunInv(all, dedup, calls);
    ExecTwo(c0, calls, Crash(s), Join(s, Some(all[0]), []), FollowerInitiates);
    ExecTwo(c0, calls, Crash(s), Join(s, Some(all[0]), []), DonorBacked);
    assert all[0] in AsSet(all);
    CallerRejoins(Exec(c0, calls), all, dedup, b, AsSet(FewCallers(all)), s, all[0]);
  }

  /** The steps of LateVoteCommits after the first callers: the last one, s, initiates, crashes, joins
      again from donor, and only then its vote arrives. */
  function LateVote(b: string, s: string, donor: string): seq<Action> {
    [Initiate(s), Crash(s)] + [Join(s, Some(donor), []), Deliver(b, ViewChangeMsg(1, s))]
  }

  lemma LateVoteSteps(c: Cluster, front: seq<Action>, b: string, s: string, donor: string,
                      ok: (Cluster, Action) -> bool)
    ensures var c0 := Exec(c, front);
            var c1 := Step(c0, Initiate(s));
            var c2 := Step(c1, Crash(s));
            var c3 := Step(c2, Join(s, Some(donor), []));
            && Exec(c, front + LateVote(b, s, donor)) == Step(c3, Deliver(b, ViewChangeMsg(1, s)))
            && (EveryStep(c, front + LateVote(b, s, donor), ok) <==>
                  && EveryStep(c, front, ok) && ok(c0, Initiate(s)) && ok(c1, Crash(s))
                  && ok(c2, Join(s, Some(donor), [])) && ok(c3, Deliver(b, ViewChangeMsg(1, s))))
  {
    ExecTwo(c, front, Initiate(s), Crash(s), ok);
    ExecTwo(c, front + [Initiate(s), Crash(s)], Join(s, Some(donor), []), Deliver(b, ViewChangeMsg(1, s)), ok);
    assert front + LateVote(b, s, donor) ==
           front + [Initiate(s), Crash(s)] + [Join(s, Some(donor), []), Deliver(b, ViewChangeMsg(1, s))];
  }

  /** s has initiated view 1, crashed and joined again at view 0. */
  lemma VoterRejoins(c: Cluster, all: Members, dedup: bool, s: string, donor: string)
    requires WellFormed(c, all) && |all| >= 2 && s in c.replicas && s in c.live
    requires c.replicas[s] == FreshReplica(s, all, dedup)
    requires donor in c.replicas && donor in c.live && donor != s
    requires c.replicas[donor] == FreshReplica(donor, all, dedup)
    ensures var c2 := Step(Step(c, Initiate(s)), Crash(s));
            var c3 := Step(c2, Join(s, Some(donor), []));
            && DonorBacked(c2, Join(s, Some(donor), []))
            && ViewChangeMsg(1, s) in c3.net && s in c3.replicas && c3.replicas[s].view.number == 0
            && c3.replicas == c.replicas[s := c3.replicas[s]] && c3.live == c.live
  {
    FirstInitiation(s, all, dedup);
    AfterInitiate(c, s, ViewChangeMsg(1, s));
    var c1 := Step(c, Initiate(s));
    StepWellFormed(c, all, Initiate(s));
    var c2 := Step(c1, Crash(s));
    assert c2.replicas[donor] == c.replicas[donor];
    JoinFromEmpty(c2, all, s, donor);
    assert c.live - {s} + {s} == c.live;
  }

  lemma AheadWithoutVoter(c: Cluster, end: Cluster, all: Members, dedup: bool, b: string, callers: set<string>,
                          s: string)
    requires Heard(c, all, dedup, b, callers) && b !in callers && s !in callers && s != b && s in c.replicas
    requires s in end.replicas && end.replicas[s].view.number == 0
    requires b in end.replicas && end.replicas[b].view.number == 1
    requires end.replicas == c.replicas[s := end.replicas[s]][b := end.replicas[b]]
    ensures Ahead(end, 1) == callers + {b} && |Ahead(end, 1)| == |callers| + 1
  {
    assert forall t :: t in c.replicas && t != b && t !in callers ==> c.replicas[t] == FreshReplica(t, all, dedup);
    assert forall t :: t in callers ==> t in c.replicas && t in end.replicas && end.replicas[t] == c.replicas[t];
    assert Ahead(end, 1) == callers + {b};
  }

  /** Then b hears the old vote and commits. */
  lemma HearsLateVote(c: Cluster, c': Cluster, all: Members, dedup: bool, b: string, callers: set<string>, s: string)
    requires Heard(c, all, dedup, b, callers) && |all| >= 3 && LeaderOf(all, 1) == b
    requires |callers| + 1 == |all| / 2 && b !in callers && s !in callers && s != b && s in c.replicas
    requires ViewChangeMsg(1, s) in c'.net && s in c'.replicas && c'.replicas[s].view.number == 0
    requires c'.replicas == c.replicas[s := c'.replicas[s]] && c'.live == c.live
    ensures var end := Step(c', Deliver(b, ViewChangeMsg(1, s)));
            && b in end.replicas && end.replicas[b].view.number == 1 && end.replicas[b].Serving()
            && end.replicas == c.replicas[s := c'.replicas[s]][b := end.replicas[b]]
  {
    AfterDelivery(c', b, ViewChangeMsg(1, s));
    HearerStep(all, dedup, b, callers, s);
    assert |callers + {s}| == |all| / 2 && s in callers + {s};
  }

  /** A late vote of a server that has joined again below it: every join has a donor as good as any, and
      nothing is committed yet; but when the old vote arrives all[1] serves view 1 on a majority of
      votes with only a minority of the servers in that view. */
  lemma LateVoteCommits(all: Members, dedup: bool)
    requires NoDuplicates(all) && |all| >= 3
    ensures var n := |FewCallers(all)| - 1;
            var run := CallRun(all[1], FewCallers(all)[..n]) + LateVote(all[1], FewCallers(all)[n], all[0]);
            var c, end := Start(all, dedup), Exec(Start(all, dedup), run);
            && EveryStep(c, run, FollowerInitiates) && EveryStep(c, run, DonorBacked)
            && all[1] in end.replicas && end.replicas[all[1]].view.number == 1 && end.replicas[all[1]].Serving()
            && |Ahead(end, 1)| == Majority(|all|) - 1
  {
    var callers, b, donor := FewCallers(all), all[1], all[0];
    var n := |callers| - 1;
    var first, s := callers[..n], callers[n];
    var c0 := Start(all, dedup);
    FewCallersAreCallers(all);
    FewerCallers(all, b, callers);
    StartHeard(all, dedup, b);
    CallRunState(c0, all, dedup, b, first);
    CallRunHasNoJoins(b, first);
    NoJoinsMeetBoth(c0, CallRun(b, first));
    RunInv(all, dedup, CallRun(b, first));
    LateVoteSteps(c0, CallRun(b, first), b, s, donor, FollowerInitiates);
    LateVoteSteps(c0, CallRun(b, first), b, s, donor, DonorBacked);
    assert donor in AsSet(all);
    LateVoteAfter(Exec(c0, CallRun(b, first)), all, dedup, b, AsSet(first), s, donor);
  }

  lemma LateVoteAfter(c: Cluster, all: Members, dedup: bool, b: string, callers: set<string>, s: string, donor: string)
    requires WellFormed(c, all) && Heard(c, all, dedup, b, callers) && |all| >= 3 && LeaderOf(all, 1) == b
    requires |callers| + 1 == |all| / 2 && b !in callers && s !in callers && s != b && s in c.replicas
    requires donor == all[0] && donor in c.replicas && donor !in callers && donor != b && donor != s
    ensures var c1 := Step(c, Initiate(s));
            var c2 := Step(c1, Crash(s));
            var end := Step(Step(c2, Join(s, Some(donor), [])), Deliver(b, ViewChangeMsg(1, s)));
            && FollowerInitiates(c, Initiate(s)) && DonorBacked(c2, Join(s, Some(donor), []))
            && b in end.replicas && end.replicas[b].view.number == 1 && end.replicas[b].Serving()
            && |Ahead(end, 1)| == Majority(|all|) - 1
  {
    assert c.replicas[s] == FreshReplica(s, all, dedup) && c.replicas[donor] == FreshReplica(donor, all, dedup);
    var c3 := Step(Step(Step(c, Initiate(s)), Crash(s)), Join(s, Some(donor), []));
    VoterRejoins(c, all, dedup, s, donor);
    HearsLateVote(c, c3, all, dedup, b, callers, s);
    AheadWithoutVoter(c, Step(c3, Deliver(b, ViewChangeMsg(1, s))), all, dedup, b, callers, s);
  }
}
