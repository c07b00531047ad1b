/** What commits rest on: majorities of votes in runs without joins, and majorities of servers in runs
    whose joins keep to an exact condition. */
module Quorums {
  import opened Messages
  import opened Membership
  import opened Replicas
  import opened ViewChanges

  /** The servers that have reached a view. */
  function Ahead(c: Cluster, view: int): set<string> {
    set s | s in c.replicas && c.replicas[s].view.number >= view
  }

  /** Servers that initiated a view have not fallen behind it. */
  predicate InitiatorsReached(c: Cluster) {
    forall i :: i in c.initiated ==> i.server in c.replicas && i.view <= c.replicas[i.server].view.number
  }

  predicate Committed(v: ViewState) {
    !v.changing && v.number > 0
  }

  /** Every view committed by some server has been reached by a majority. */
  predicate MajorityBacked(c: Cluster) {
    forall s {:trigger Committed(c.replicas[s].view)} :: s in c.replicas && Committed(c.replicas[s].view) ==>
      |Ahead(c, c.replicas[s].view.number)| >= Majority(|c.replicas.Keys|)
  }

  /** A majority voted for every view committed by some server. */
  predicate VoteBacked(c: Cluster) {
    forall s {:trigger Committed(c.replicas[s].view)} :: s in c.replicas && Committed(c.replicas[s].view) ==>
      |VotesFor(c.replicas[s].view, c.replicas[s].view.number)| >= Majority(|c.replicas.Keys|)
  }

  // ---- conditions on joins ----------------------------------------------------------------

  predicate KeepsView(c: Cluster, a: Action) {
    a.Join? && Enabled(c, a) ==> JoinView(c, a.donor) >= c.replicas[a.server].view.number
  }

  /** Counting the joiner, a majority has reached the donor's view. */
  predicate DonorBacked(c: Cluster, a: Action) {
    a.Join? && Enabled(c, a) && JoinView(c, a.donor) > 0 ==>
      |Ahead(c, JoinView(c, a.donor)) + {a.server}| >= Majority(|c.replicas.Keys|)
  }

  predicate NoJoins(actions: seq<Action>) {
    forall i :: 0 <= i < |actions| ==> !actions[i].Join?
  }

  predicate EveryStep(c: Cluster, actions: seq<Action>, ok: (Cluster, Action) -> bool) {
    if actions == [] then true
    else
      var n := |actions| - 1;
      EveryStep(c, actions[..n], ok) && ok(Exec(c, actions[..n]), actions[n])
  }

  predicate AlwaysBacked(c: Cluster, actions: seq<Action>) {
    MajorityBacked(Exec(c, actions)) && (actions == [] || AlwaysBacked(c, actions[..|actions| - 1]))
  }

  // ---- one step ---------------------------------------------------------------------------

  lemma StepKeepsViews(c: Cluster, all: Members, a: Action, t: string)
    requires WellFormed(c, all) && KeepsView(c, a) && t in c.replicas
    ensures t in Step(c, a).replicas && Step(c, a).replicas[t].view.number >= c.replicas[t].view.number
  {
    if Enabled(c, a) {
      match a
      case Initiate(s) => InitiateMoves(c.replicas[s]);
      case Deliver(to, msg) =>
        if msg.view >= c.replicas[to].view.number {
          DeliverMoves(c.replicas[to], msg);
        }
      case Join(s, donor, order) => JoinStep(c, all, s, donor, order);
      case _ =>
    }
  }

  predicate Raised(c: Cluster, c': Cluster) {
    forall t :: t in c.replicas ==> t in c'.replicas && c'.replicas[t].view.number >= c.replicas[t].view.number
  }

  lemma StepKeepsReached(c: Cluster, all: Members, a: Action)
    requires WellFormed(c, all) && InitiatorsReached(c) && KeepsView(c, a)
    ensures Raised(c, Step(c, a)) && InitiatorsReached(Step(c, a))
  {
    forall t | t in c.replicas
      ensures t in Step(c, a).replicas && Step(c, a).replicas[t].view.number >= c.replicas[t].view.number
    {
      StepKeepsViews(c, all, a, t);
    }
    if Enabled(c, a) && a.Initiate? {
      InitiateMoves(c.replicas[a.server]);
    }
  }

  lemma AheadGrows(c: Cluster, c': Cluster, view: int)
    requires Raised(c, c')
    ensures Ahead(c, view) <= Ahead(c', view) && |Ahead(c, view)| <= |Ahead(c', view)|
  {
    SubsetSize(Ahead(c, view), Ahead(c', view));
  }

  lemma VotersAreAhead(c: Cluster, all: Members, s: string)
    requires Inv(c, all) && InitiatorsReached(c) && s in c.replicas
    ensures var v := c.replicas[s].view;
            && VotesFor(v, v.number) <= Ahead(c, v.number)
            && |VotesFor(v, v.number)| <= |Ahead(c, v.number)|
  {
    var v := c.replicas[s].view;
    forall x | x in VotesFor(v, v.number) ensures x in Ahead(c, v.number) {
      if x != s {
        assert Initiation(x, v.number) in c.initiated;
      }
    }
    SubsetSize(VotesFor(v, v.number), Ahead(c, v.number));
  }

  lemma DeliverCommits(r: Replica, msg: ViewChangeMsg)
    requires msg.view >= r.view.number && Committed(HandleViewChange(r, msg).next.view)
    ensures var v, v' := r.view, HandleViewChange(r, msg).next.view;
            || (Committed(v) && v.number == v'.number && |VotesFor(v, v.number)| <= |VotesFor(v', v'.number)|)
            || |VotesFor(v', v'.number)| >= Majority(|r.all|)
  {
    DeliverMoves(r, msg);
    if msg.view == r.view.number {
      SubsetSize(VotesFor(r.view, r.view.number), VotersAfter(r, msg));
    }
  }

  /** Where a committed view can come from in a step other than a join: it was there before, or the
      server holds a majority of votes for it. */
  lemma CommitsOnVotes(c: Cluster, all: Members, a: Action, s: string)
    requires Inv(c, all) && !a.Join? && s in Step(c, a).replicas && Committed(Step(c, a).replicas[s].view)
    ensures var v' := Step(c, a).replicas[s].view;
            && s in c.replicas
            && var v := c.replicas[s].view;
               || (Committed(v) && v.number == v'.number && |VotesFor(v, v.number)| <= |VotesFor(v', v'.number)|)
               || |VotesFor(v', v'.number)| >= Majority(|all|)
  {
    if Enabled(c, a) {
      match a
      case Initiate(t) => InitiateCommits(c, all, t);
      case Deliver(to, msg) =>
        if to == s && msg.view >= c.replicas[to].view.number {
          DeliverCommits(c.replicas[to], msg);
        }
      case _ =>
    }
  }

  lemma InitiateCommits(c: Cluster, all: Members, s: string)
    requires Inv(c, all) && Enabled(c, Initiate(s))
    ensures var v' := HandleInitiate(c.replicas[s]).next.view;
            Committed(v') ==> |VotesFor(v', v'.number)| >= Majority(|all|)
  {
    InitiateKeepsCounted(c.replicas[s]);
    InitiateMoves(c.replicas[s]);
  }

  lemma StepKeepsVotes(c: Cluster, all: Members, a: Action)
    requires Inv(c, all) && VoteBacked(c) && !a.Join?
    ensures VoteBacked(Step(c, a))
  {
    var c' := Step(c, a);
    StepInv(c, all, a);
    forall s | s in c'.replicas && Committed(c'.replicas[s].view)
      ensures |VotesFor(c'.replicas[s].view, c'.replicas[s].view.number)| >= Majority(|all|)
    {
      CommitsOnVotes(c, all, a, s);
    }
  }

  lemma StepKeepsBacked(c: Cluster, all: Members, a: Action)
    requires Inv(c, all) && InitiatorsReached(c) && MajorityBacked(c) && !a.Join?
    ensures MajorityBacked(Step(c, a))
  {
    var c' := Step(c, a);
    StepInv(c, all, a);
    StepKeepsReached(c, all, a);
    forall s | s in c'.replicas && Committed(c'.replicas[s].view)
      ensures |Ahead(c', c'.replicas[s].view.number)| >= Majority(|all|)
    {
      CommitsOnVotes(c, all, a, s);
      AheadGrows(c, c', c'.replicas[s].view.number);
      VotersAreAhead(c', all, s);
    }
  }

  // ---- one join ---------------------------------------------------------------------------

  /** What a join does to the views: s is in view w and not in view-change mode. */
  predicate JoinedAt(c: Cluster, c': Cluster, s: string, w: nat) {
    && s in c.replicas && s in c'.replicas && c'.replicas == c.replicas[s := c'.replicas[s]]
    && c'.replicas[s].view.number == w && !c'.replicas[s].view.changing
  }

  /** No commit above the view w rests on s. */
  predicate SparesJoiner(c: Cluster, s: string, w: nat) {
    forall t {:trigger Committed(c.replicas[t].view)} ::
      t in c.replicas && t != s && Committed(c.replicas[t].view) && c.replicas[t].view.number > w ==>
        |Ahead(c, c.replicas[t].view.number) - {s}| >= Majority(|c.replicas.Keys|)
  }

  /** The servers at or above a view after a join. */
  lemma AheadAfterJoin(c: Cluster, c': Cluster, s: string, w: nat, view: int)
    requires JoinedAt(c, c', s, w)
    ensures c'.replicas.Keys == c.replicas.Keys
    ensures Ahead(c', view) == if view <= w then Ahead(c, view) + {s} else Ahead(c, view) - {s}
    ensures view <= w ==> |Ahead(c', view)| >= |Ahead(c, view)|
  {
    assert c'.replicas.Keys == c.replicas.Keys;
    GrowsByAtMostOne(Ahead(c, view), s);
  }

  lemma BackedBeforeJoin(c: Cluster, c': Cluster, s: string, w: nat)
    requires JoinedAt(c, c', s, w) && MajorityBacked(c')
    ensures w > 0 ==> |Ahead(c, w) + {s}| >= Majority(|c.replicas.Keys|)
    ensures SparesJoiner(c, s, w)
  {
    AheadAfterJoin(c, c', s, w, w);
    assert Committed(c'.replicas[s].view) <==> w > 0;
    forall t | t in c.replicas && t != s && Committed(c.replicas[t].view) && c.replicas[t].view.number > w
      ensures |Ahead(c, c.replicas[t].view.number) - {s}| >= Majority(|c.replicas.Keys|)
    {
      AheadAfterJoin(c, c', s, w, c.replicas[t].view.number);
      assert Committed(c'.replicas[t].view);
    }
  }

  lemma BackedAfterJoin(c: Cluster, c': Cluster, s: string, w: nat)
    requires JoinedAt(c, c', s, w) && MajorityBacked(c) && SparesJoiner(c, s, w)
    requires w > 0 ==> |Ahead(c, w) + {s}| >= Majority(|c.replicas.Keys|)
    ensures MajorityBacked(c')
  {
    AheadAfterJoin(c, c', s, w, w);
    forall t | t in c'.replicas && Committed(c'.replicas[t].view)
      ensures |Ahead(c', c'.replicas[t].view.number)| >= Majority(|c.replicas.Keys|)
    {
      if t != s {
        AheadAfterJoin(c, c', s, w, c.replicas[t].view.number);
        assert Committed(c.replicas[t].view);
      }
    }
  }

  /** Exactly when a join keeps every committed view backed, whatever came before it: the joiner's new
      view is one that a majority has reached, counting the joiner, and every higher committed view
      keeps its majority without it. */
  lemma JoinKeepsBackedIff(c: Cluster, all: Members, s: string, donor: Option<string>, order: seq<string>)
    requires WellFormed(c, all) && MajorityBacked(c) && Enabled(c, Join(s, donor, order))
    ensures MajorityBacked(Step(c, Join(s, donor, order))) <==>
              DonorBacked(c, Join(s, donor, order)) && SparesJoiner(c, s, JoinView(c, donor))
  {
    var c', w := Step(c, Join(s, donor, order)), JoinView(c, donor);
    JoinStep(c, all, s, donor, order);
    if MajorityBacked(c') {
      BackedBeforeJoin(c, c', s, w);
    } else if SparesJoiner(c, s, w) && (w > 0 ==> |Ahead(c, w) + {s}| >= Majority(|c.replicas.Keys|)) {
      BackedAfterJoin(c, c', s, w);
      assert false;
    }
  }

  /** A joiner that does not fall behind its old view endangers no commit but its own. */
  lemma KeptViewSpares(c: Cluster, s: string, w: nat)
    requires MajorityBacked(c) && s in c.replicas && c.replicas[s].view.number <= w
    ensures SparesJoiner(c, s, w)
  {
    forall t | t in c.replicas && t != s && Committed(c.replicas[t].view) && c.replicas[t].view.number > w
      ensures |Ahead(c, c.replicas[t].view.number) - {s}| >= Majority(|c.replicas.Keys|)
    {
      assert Ahead(c, c.replicas[t].view.number) - {s} == Ahead(c, c.replicas[t].view.number);
    }
  }

  // ---- runs -------------------------------------------------------------------------------

  lemma StepBackedIff(c: Cluster, all: Members, a: Action)
    requires Inv(c, all) && InitiatorsReached(c) && MajorityBacked(c) && KeepsView(c, a)
    ensures MajorityBacked(Step(c, a)) <==> DonorBacked(c, a)
  {
    if a.Join? {
      if Enabled(c, a) {
        JoinKeepsBackedIff(c, all, a.server, a.donor, a.order);
        KeptViewSpares(c, a.server, JoinView(c, a.donor));
      }
    } else {
      StepKeepsBacked(c, all, a);
    }
  }

  lemma {:induction false} RunReached(all: Members, dedup: bool, actions: seq<Action>)
    requires NoDuplicates(all) && EveryStep(Start(all, dedup), actions, KeepsView)
    ensures InitiatorsReached(Exec(Start(all, dedup), actions))
  {
    if actions != [] {
      var n := |actions| - 1;
      RunReached(all, dedup, actions[..n]);
      RunInv(all, dedup, actions[..n]);
      StepKeepsReached(Exec(Start(all, dedup), actions[..n]), all, actions[n]);
    }
  }

  /** In every run in which no joiner falls behind its own old view, commits take care of themselves: all
      committed views of all the states it passes through have been reached by a majority exactly when,
      at every join, a majority counting the joiner had reached the donor's view. */
  lemma {:induction false} RunBackedIff(all: Members, dedup: bool, actions: seq<Action>)
    requires NoDuplicates(all) && EveryStep(Start(all, dedup), actions, KeepsView)
    ensures AlwaysBacked(Start(all, dedup), actions) <==> EveryStep(Start(all, dedup), actions, DonorBacked)
  {
    if actions != [] {
      var n := |actions| - 1;
      RunBackedIff(all, dedup, actions[..n]);
      RunInv(all, dedup, actions[..n]);
      RunReached(all, dedup, actions[..n]);
      if AlwaysBacked(Start(all, dedup), actions[..n]) {
        StepBackedIff(Exec(Start(all, dedup), actions[..n]), all, actions[n]);
      }
    }
  }

  /** A delivery that makes its receiver commit. */
  predicate Commits(c: Cluster, a: Action) {
    a.Deliver? && Enabled(c, a) &&
    var r := c.replicas[a.to];
    a.msg.view >= r.view.number && |VotersAfter(r, a.msg)| == Majority(|r.all|)
  }

  /** A join leaves every commit backed, and a commit counts on a majority of servers, not only of votes.
      A single server cannot check this; what it can check is KeepsView together with QuietDonor, which
      QuietDonorsSuffice shows to be enough. */
  predicate BackedStep(c: Cluster, a: Action) {
    && (a.Join? && Enabled(c, a) ==> DonorBacked(c, a) && SparesJoiner(c, a.server, JoinView(c, a.donor)))
    && (Commits(c, a) ==> |Ahead(c, a.msg.view) + {a.to}| >= Majority(|c.replicas.Keys|))
  }

  lemma CommitBackedIff(c: Cluster, all: Members, to: string, msg: ViewChangeMsg)
    requires Inv(c, all) && MajorityBacked(c) && Commits(c, Deliver(to, msg))
    ensures MajorityBacked(Step(c, Deliver(to, msg))) <==> BackedStep(c, Deliver(to, msg))
  {
    var c' := Step(c, Deliver(to, msg));
    DeliverMoves(c.replicas[to], msg);
    assert JoinedAt(c, c', to, msg.view);
    KeptViewSpares(c, to, msg.view);
    if MajorityBacked(c') {
      BackedBeforeJoin(c, c', to, msg.view);
    } else if BackedStep(c, Deliver(to, msg)) {
      BackedAfterJoin(c, c', to, msg.view);
      assert false;
    }
  }

  /** Nobody commits, and nobody's view gets lower. */
  lemma NoCommitKeepsBacked(c: Cluster, c': Cluster)
    requires MajorityBacked(c) && Raised(c, c') && c'.replicas.Keys == c.replicas.Keys
    requires forall t {:trigger Committed(c'.replicas[t].view)} ::
               t in c'.replicas && Committed(c'.replicas[t].view) ==>
                 Committed(c.replicas[t].view) && c.replicas[t].view.number == c'.replicas[t].view.number
    ensures MajorityBacked(c')
  {
    forall t | t in c'.replicas && Committed(c'.replicas[t].view)
      ensures |Ahead(c', c'.replicas[t].view.number)| >= Majority(|c'.replicas.Keys|)
    {
      AheadGrows(c, c', c.replicas[t].view.number);
    }
  }

  lemma InitiateKeepsBacked(c: Cluster, all: Members, s: string)
    requires Inv(c, all) && MajorityBacked(c) && Enabled(c, Initiate(s))
    ensures MajorityBacked(Step(c, Initiate(s)))
  {
    var c' := Step(c, Initiate(s));
    InitiateMoves(c.replicas[s]);
    InitiateKeepsCounted(c.replicas[s]);
    StepWellFormed(c, all, Initiate(s));
    assert c'.replicas == c.replicas[s := c'.replicas[s]];
    if |all| > 1 {
      NoCommitKeepsBacked(c, c');
    } else {
      LoneServerIsBacked(c');
    }
  }

  lemma LoneServerIsBacked(c: Cluster)
    requires |c.replicas.Keys| == 1
    ensures MajorityBacked(c)
  {
    forall t | t in c.replicas ensures |Ahead(c, c.replicas[t].view.number)| >= 1 {
      SubsetSize({t}, Ahead(c, c.replicas[t].view.number));
    }
  }

  lemma DeliverKeepsBacked(c: Cluster, all: Members, to: string, msg: ViewChangeMsg)
    requires Inv(c, all) && MajorityBacked(c) && Enabled(c, Deliver(to, msg)) && !Commits(c, Deliver(to, msg))
    ensures MajorityBacked(Step(c, Deliver(to, msg)))
  {
    var c' := Step(c, Deliver(to, msg));
    if msg.view >= c.replicas[to].view.number {
      DeliverMoves(c.replicas[to], msg);
    }
    assert c'.replicas == c.replicas[to := c'.replicas[to]];
    NoCommitKeepsBacked(c, c');
  }

  lemma QuietStepKeepsBacked(c: Cluster, a: Action)
    requires MajorityBacked(c) && !a.Initiate? && !a.Deliver? && !a.Join?
    ensures MajorityBacked(Step(c, a))
  {
    var c' := Step(c, a);
    assert c'.replicas.Keys == c.replicas.Keys;
    forall t | t in c.replicas ensures c'.replicas[t].view == c.replicas[t].view {
    }
    NoCommitKeepsBacked(c, c');
  }

  lemma AnyStepBackedIff(c: Cluster, all: Members, a: Action)
    requires Inv(c, all) && MajorityBacked(c)
    ensures MajorityBacked(Step(c, a)) <==> BackedStep(c, a)
  {
    if Enabled(c, a) {
      match a
      case Initiate(s) => InitiateKeepsBacked(c, all, s);
      case Deliver(to, msg) =>
        if Commits(c, a) {
          CommitBackedIff(c, all, to, msg);
        } else {
          DeliverKeepsBacked(c, all, to, msg);
        }
      case Join(s, donor, order) => JoinKeepsBackedIff(c, all, s, donor, order);
      case _ => QuietStepKeepsBacked(c, a);
    }
  }

  /** In every run whatever: all committed views of all the states it passes through have been reached by
      a majority exactly when every join keeps what commits rest on, and every commit finds a majority
      of servers, counting the one that commits, at its view. Votes are not enough: a voter may have
      crashed and joined again below the view it voted for. */
  lemma {:induction false} AnyRunBackedIff(all: Members, dedup: bool, actions: seq<Action>)
    requires NoDuplicates(all)
    ensures AlwaysBacked(Start(all, dedup), actions) <==> EveryStep(Start(all, dedup), actions, BackedStep)
  {
    if actions != [] {
      var n := |actions| - 1;
      AnyRunBackedIff(all, dedup, actions[..n]);
      RunInv(all, dedup, actions[..n]);
      if AlwaysBacked(Start(all, dedup), actions[..n]) {
        AnyStepBackedIff(Exec(Start(all, dedup), actions[..n]), all, actions[n]);
      }
    }
  }

  /** The donor is out of view-change mode, or still in view 0, or there is none. */
  predicate QuietDonor(c: Cluster, a: Action) {
    a.Join? && Enabled(c, a) && JoinView(c, a.donor) > 0 ==>
      a.donor.Some? && !c.replicas[a.donor.value].view.changing
  }

  lemma QuietDonorIsBacked(c: Cluster, a: Action)
    requires MajorityBacked(c) && QuietDonor(c, a)
    ensures DonorBacked(c, a)
  {
    if a.Join? && Enabled(c, a) && JoinView(c, a.donor) > 0 {
      assert Committed(c.replicas[a.donor.value].view);
      GrowsByAtMostOne(Ahead(c, JoinView(c, a.donor)), a.server);
    }
  }

  /** A test the joiner can make: with donors out of view-change mode no majority is ever lost. */
  lemma {:induction false} QuietDonorsSuffice(all: Members, dedup: bool, actions: seq<Action>)
    requires NoDuplicates(all) && EveryStep(Start(all, dedup), actions, KeepsView)
    requires EveryStep(Start(all, dedup), actions, QuietDonor)
    ensures AlwaysBacked(Start(all, dedup), actions)
    ensures EveryStep(Start(all, dedup), actions, DonorBacked)
  {
    if actions != [] {
      var n := |actions| - 1;
      QuietDonorsSuffice(all, dedup, actions[..n]);
      QuietDonorIsBacked(Exec(Start(all, dedup), actions[..n]), actions[n]);
    }
    RunBackedIff(all, dedup, actions);
  }

  lemma {:induction false} NoJoinsMeetBoth(c: Cluster, actions: seq<Action>)
    requires NoJoins(actions)
    ensures EveryStep(c, actions, KeepsView) && EveryStep(c, actions, DonorBacked)
  {
    if actions != [] {
      NoJoinsMeetBoth(c, actions[..|actions| - 1]);
    }
  }

  lemma {:induction false} RunVoteBacked(all: Members, dedup: bool, actions: seq<Action>)
    requires NoDuplicates(all) && NoJoins(actions)
    ensures VoteBacked(Exec(Start(all, dedup), actions))
  {
    if actions != [] {
      var n := |actions| - 1;
      RunVoteBacked(all, dedup, actions[..n]);
      RunInv(all, dedup, actions[..n]);
      StepKeepsVotes(Exec(Start(all, dedup), actions[..n]), all, actions[n]);
    }
  }

  /** A server out of view-change mode in view w > 0, in a run without joins, holds a majority of votes
      for w; every voter has reached w, so fewer than a majority of all servers are still below w; all
      but one of a majority have initiated w; and all its voters have iff it has itself. */
  lemma CommittedViewHasMajority(all: Members, dedup: bool, actions: seq<Action>, s: string)
    requires NoDuplicates(all) && s in all && NoJoins(actions)
    ensures var c := Exec(Start(all, dedup), actions);
            s in c.replicas &&
            var v := c.replicas[s].view;
            Committed(v) ==>
              && |VotesFor(v, v.number)| >= Majority(|all|)
              && VotesFor(v, v.number) <= Ahead(c, v.number)
              && |Ahead(c, v.number)| >= Majority(|all|)
              && |c.replicas.Keys - Ahead(c, v.number)| <= |all| - Majority(|all|)
              && |Initiators(c, v.number)| >= Majority(|all|) - 1
              && (VotesFor(v, v.number) <= Initiators(c, v.number) <==> Initiation(s, v.number) in c.initiated)
  {
    var c := Exec(Start(all, dedup), actions);
    RunInv(all, dedup, actions);
    NoJoinsMeetBoth(Start(all, dedup), actions);
    RunReached(all, dedup, actions);
    RunVoteBacked(all, dedup, actions);
    assert s in AsSet(all);
    var v := c.replicas[s].view;
    if Committed(v) {
      VotersAreAhead(c, all, s);
      FewAreBehind(c, v.number);
      HeardVotes(c, s, v.number);
      SubsetSize(VotesFor(v, v.number) - {s}, Initiators(c, v.number));
    }
  }

  lemma FewAreBehind(c: Cluster, view: int)
    ensures |c.replicas.Keys - Ahead(c, view)| == |c.replicas.Keys| - |Ahead(c, view)|
  {
    assert Ahead(c, view) <= c.replicas.Keys;
  }

  /** Any two committed views of one state were voted for by a common server. */
  lemma CommittedViewsShareAVoter(all: Members, dedup: bool, actions: seq<Action>, s: string, t: string)
    requires NoDuplicates(all) && s in all && t in all && NoJoins(actions)
    ensures var c := Exec(Start(all, dedup), actions);
            s in c.replicas && t in c.replicas &&
            var v, w := c.replicas[s].view, c.replicas[t].view;
            Committed(v) && Committed(w) ==>
              exists x :: x in VotesFor(v, v.number) && x in VotesFor(w, w.number)
  {
    RunInv(all, dedup, actions);
    var c := Exec(Start(all, dedup), actions);
    CommittedViewHasMajority(all, dedup, actions, s);
    CommittedViewHasMajority(all, dedup, actions, t);
    var v, w := c.replicas[s].view, c.replicas[t].view;
    if Committed(v) && Committed(w) {
      MajoritiesIntersect(c.replicas.Keys, VotesFor(v, v.number), VotesFor(w, w.number));
    }
  }

  /** The state at the end of a run whose joins keep to both conditions. */
  lemma EndIsBacked(all: Members, dedup: bool, actions: seq<Action>)
    requires NoDuplicates(all)
    requires EveryStep(Start(all, dedup), actions, KeepsView) && EveryStep(Start(all, dedup), actions, DonorBacked)
    ensures Inv(Exec(Start(all, dedup), actions), all) && MajorityBacked(Exec(Start(all, dedup), actions))
  {
    RunInv(all, dedup, actions);
    RunBackedIff(all, dedup, actions);
  }

  /** No server's view ever gets lower, unless a joiner gives up its own. */
  lemma {:induction false} ViewsNeverDecrease(c: Cluster, all: Members, actions: seq<Action>)
    requires WellFormed(c, all) && EveryStep(c, actions, KeepsView)
    ensures WellFormed(Exec(c, actions), all) && Raised(c, Exec(c, actions))
  {
    if actions != [] {
      var n := |actions| - 1;
      var d := Exec(c, actions[..n]);
      ViewsNeverDecrease(c, all, actions[..n]);
      StepWellFormed(d, all, actions[n]);
      forall t | t in c.replicas
        ensures t in Step(d, actions[n]).replicas
        ensures Step(d, actions[n]).replicas[t].view.number >= c.replicas[t].view.number
      {
        StepKeepsViews(d, all, actions[n], t);
      }
    }
  }

  /** Once any server has committed view w, a majority is at w or above for the rest of the run. */
  lemma CommitIsForever(all: Members, dedup: bool, before: seq<Action>, after: seq<Action>, s: string)
    requires NoDuplicates(all)
    requires EveryStep(Start(all, dedup), before, KeepsView) && EveryStep(Start(all, dedup), before, DonorBacked)
    requires EveryStep(Exec(Start(all, dedup), before), after, KeepsView)
    requires s in Exec(Start(all, dedup), before).replicas
    ensures var c := Exec(Start(all, dedup), before);
            var v := c.replicas[s].view;
            Committed(v) ==> |Ahead(Exec(c, after), v.number)| >= Majority(|all|)
  {
    EndIsBacked(all, dedup, before);
    var c := Exec(Start(all, dedup), before);
    ViewsNeverDecrease(c, all, after);
    AheadGrows(c, Exec(c, after), c.replicas[s].view.number);
  }

  /** An increment is only ever applied by its view's own server, and past view 0 only while a
      majority of all servers has reached that view. */
  lemma IncrementsRestOnMajority(all: Members, dedup: bool, actions: seq<Action>, s: string, q: IncrRequest)
    requires NoDuplicates(all)
    requires EveryStep(Start(all, dedup), actions, KeepsView) && EveryStep(Start(all, dedup), actions, DonorBacked)
    requires var c := Exec(Start(all, dedup), actions);
             s in c.replicas && HandleIncr(c.replicas[s], q).emitted.Some?
    ensures var c := Exec(Start(all, dedup), actions);
            var w := c.replicas[s].view.number;
            s == all[w % |all|] && (w > 0 ==> |Ahead(c, w)| >= Majority(|all|))
  {
    RunKeepsLeaders(all, dedup, actions);
    EndIsBacked(all, dedup, actions);
    var c := Exec(Start(all, dedup), actions);
    assert FollowsView(c.replicas[s], s, all, dedup);
    assert Committed(c.replicas[s].view) <==> c.replicas[s].view.number > 0;
  }
}
