/** Where commits and votes leave a server: in the highest view committed, waiting for votes or serving. */
module ViewSettling {
  import opened Messages
  import opened Membership
  import opened Replicas
  import opened ViewChanges

  // ---- commits in any order ---------------------------------------------------------------

  /** Commits of several views, one after the other. */
  function Commits(v: ViewState, all: Members, views: seq<nat>): ViewState {
    if views == [] then v else Commit(Commits(v, all, views[..|views| - 1]), all, views[|views| - 1])
  }

  function Highest(number: nat, views: seq<nat>): nat {
    if views == [] then number
    else
      var top, last := Highest(number, views[..|views| - 1]), views[|views| - 1];
      if last > top then last else top
  }

  lemma {:induction false} HighestIsMax(number: nat, views: seq<nat>)
    ensures Highest(number, views) == number || Highest(number, views) in views
    ensures Highest(number, views) >= number && forall w :: w in views ==> w <= Highest(number, views)
  {
    if views != [] {
      HighestIsMax(number, views[..|views| - 1]);
      assert views == views[..|views| - 1] + [views[|views| - 1]];
    }
  }

  lemma OneMoreCommit(v: ViewState, all: Members, view: nat)
    ensures Commit(v, all, view) == if view < v.number then v else ViewState(view, all[view % |all|], false, v.votes)
  {
  }

  predicate AllBelow(views: seq<nat>, number: nat) {
    forall i :: 0 <= i < |views| ==> views[i] < number
  }

  /** In whatever order views are committed, the server ends in the highest, serving under the leader
      that is on turn there; if all of them are below its own view, nothing changes at all. */
  lemma {:induction false} CommitsInAnyOrder(v: ViewState, all: Members, views: seq<nat>)
    ensures var end, top := Commits(v, all, views), Highest(v.number, views);
            if AllBelow(views, v.number) then end == v && top == v.number
            else end == ViewState(top, all[top % |all|], false, v.votes)
  {
    if views != [] {
      var earlier, last := views[..|views| - 1], views[|views| - 1];
      CommitsInAnyOrder(v, all, earlier);
      HighestIsMax(v.number, earlier);
      assert AllBelow(views, v.number) <==> AllBelow(earlier, v.number) && last < v.number by {
        assert views == earlier + [last];
      }
      OneMoreCommit(Commits(v, all, earlier), all, last);
    }
  }

  // ---- when a server waits for votes ------------------------------------------------------

  /** In view-change mode a server still waits for votes: for its own view, or for a higher one. */
  ghost predicate AwaitsVotes(r: Replica) {
    r.view.changing ==>
      || |VotesFor(r.view, r.view.number)| < Majority(|r.all|)
      || exists v :: v in r.view.votes && v > r.view.number
  }

  lemma InitiateAwaitsVotes(r: Replica)
    ensures AwaitsVotes(HandleInitiate(r).next)
  {
  }

  lemma TwoVotersAtMost(x: string, y: string, n: nat)
    requires n >= 2
    ensures |{x} + {y}| <= Majority(n)
  {
    GrowsByAtMostOne({x}, y);
  }

  lemma DeliverAwaitsVotes(r: Replica, msg: ViewChangeMsg)
    requires AwaitsVotes(r) && |r.all| >= 2
    ensures AwaitsVotes(HandleViewChange(r, msg).next)
  {
    var r' := HandleViewChange(r, msg).next;
    if msg.view >= r.view.number {
      DeliverMoves(r, msg);
      if |VotersAfter(r, msg)| == Majority(|r.all|) {
        assert !r'.view.changing;
      } else if msg.view > r.view.number {
        assert msg.view in r'.view.votes;
      } else if v :| v in r.view.votes && v > r.view.number {
        assert v in r'.view.votes;
      } else if r'.view.changing {
        VoteKeepsWaiting(r, msg);
      }
    }
  }

  /** A vote for its own view that does not complete the majority leaves it below the majority. */
  lemma VoteKeepsWaiting(r: Replica, msg: ViewChangeMsg)
    requires msg.view == r.view.number && |VotesFor(r.view, msg.view)| < Majority(|r.all|) && |r.all| >= 2
    requires |VotersAfter(r, msg)| != Majority(|r.all|)
    ensures VotersAfter(r, msg) == VotesFor(HandleViewChange(r, msg).next.view, msg.view)
    ensures |VotersAfter(r, msg)| < Majority(|r.all|)
  {
    if msg.view in r.view.votes {
      GrowsByAtMostOne(r.view.votes[msg.view], msg.sender);
    } else {
      TwoVotersAtMost(r.self, msg.sender, |r.all|);
    }
  }

  ghost predicate AllAwaitVotes(c: Cluster) {
    forall s :: s in c.replicas ==> AwaitsVotes(c.replicas[s])
  }

  lemma StepAwaitsVotes(c: Cluster, all: Members, a: Action)
    requires WellFormed(c, all) && AllAwaitVotes(c)
    ensures AllAwaitVotes(Step(c, a))
  {
    if Enabled(c, a) {
      match a
      case Initiate(s) => InitiateAwaitsVotes(c.replicas[s]);
      case Deliver(to, msg) =>
        TwoServers(c.replicas.Keys, to, msg.sender);
        DeliverAwaitsVotes(c.replicas[to], msg);
      case Join(s, donor, order) => JoinStep(c, all, s, donor, order);
      case _ =>
    }
  }

  /** In every run, joins included, a server in view-change mode lacks a majority of votes for its own
      view, or has heard of a higher one. */
  lemma {:induction false} ChangingAwaitsVotes(all: Members, dedup: bool, actions: seq<Action>)
    requires NoDuplicates(all)
    ensures AllAwaitVotes(Exec(Start(all, dedup), actions))
  {
    if actions != [] {
      var n := |actions| - 1;
      ChangingAwaitsVotes(all, dedup, actions[..n]);
      RunInv(all, dedup, actions[..n]);
      StepAwaitsVotes(Exec(Start(all, dedup), actions[..n]), all, actions[n]);
    }
  }

  lemma VoteAtLeader(r: Replica, msg: ViewChangeMsg)
    requires r.Serving() && FollowsView(r, r.self, r.all, r.dedup)
    ensures HandleViewChange(r, msg).next.Serving() <==>
              || msg.view <= r.view.number
              || (r.all[msg.view % |r.all|] == r.self && |VotersAfter(r, msg)| == Majority(|r.all|))
  {
  }

  /** In every run, joins included, a serving leader that hears a vote goes on serving iff the vote is
      not for a view above its own, or completes the majority for one in which it is on turn again. */
  lemma ServesThroughVoteIff(all: Members, dedup: bool, actions: seq<Action>, to: string, msg: ViewChangeMsg)
    requires Enabled(Exec(Start(all, dedup), actions), Deliver(to, msg))
    requires Exec(Start(all, dedup), actions).replicas[to].Serving()
    ensures var r := Exec(Start(all, dedup), actions).replicas[to];
            var c' := Step(Exec(Start(all, dedup), actions), Deliver(to, msg));
            && to in c'.replicas
            && (c'.replicas[to].Serving() <==>
                  || msg.view <= r.view.number
                  || (all[msg.view % |all|] == to && |VotersAfter(r, msg)| == Majority(|all|)))
  {
    RunKeepsLeaders(all, dedup, actions);
    var r := Exec(Start(all, dedup), actions).replicas[to];
    assert FollowsView(r, to, all, dedup);
    VoteAtLeader(r, msg);
  }
}
