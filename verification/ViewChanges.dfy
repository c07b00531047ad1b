/** The view-change protocol over whole runs: any number of servers, each handler one atomic step,
    messages delayed, lost, duplicated and reordered at will, servers crashing, and crashed servers
    starting again with the state of a peer. */
module ViewChanges {
  import opened Messages
  import opened Membership
  import opened Replicas

  /** History: server ran initiateViewChange and moved to view. */
  datatype Initiation = Initiation(server: string, view: int)

  /** net holds the broadcast ViewChange messages; each peer of the sender may receive its copy
      at any later time, several times or never. */
  datatype Cluster = Cluster(
    replicas: map<string, Replica>,
    live: set<string>,
    net: set<ViewChangeMsg>,
    initiated: set<Initiation>)

  datatype Action =
    | Initiate(server: string)
    | Deliver(to: string, msg: ViewChangeMsg)
    | Lose(msg: ViewChangeMsg)
    | Crash(server: string)
    | Join(server: string, donor: Option<string>, order: seq<string>)
    | Incr(server: string, req: IncrRequest)
    | Replicate(server: string, repl: ReplicateMsg)

  function Start(all: Members, dedup: bool): Cluster {
    var ids := AsSet(all);
    Cluster(map s | s in ids :: FreshReplica(s, all, dedup), ids, {}, {})
  }

  /** A server that has not been started yet is one that crashed at the start. Initiate is not
      restricted to followers: the heartbeat reads the leader, pings it and only then initiates, and
      the leader may change in between. */
  predicate Enabled(c: Cluster, a: Action) {
    match a
    case Initiate(s) => s in c.live && s in c.replicas
    case Deliver(to, msg) => msg in c.net && to != msg.sender && to in c.live && to in c.replicas
    case Lose(msg) => msg in c.net
    case Crash(s) => s in c.live
    case Join(s, donor, order) =>
      && s in c.replicas && s !in c.live
      && (donor.Some? ==> donor.value in c.live && donor.value in c.replicas
                          && AsSet(order) == c.replicas[donor.value].store.cache.Keys)
    case Incr(s, _) => s in c.live && s in c.replicas
    case Replicate(s, _) => s in c.live && s in c.replicas
  }

  function Donor(c: Cluster, donor: Option<string>): Option<Replica> {
    if donor.Some? && donor.value in c.replicas then Some(c.replicas[donor.value]) else None
  }

  /** The view a server is in after joining. */
  function JoinView(c: Cluster, donor: Option<string>): nat {
    match Donor(c, donor)
    case None => 0
    case Some(d) => d.view.number
  }

  /** One step; an action that is not enabled changes nothing. */
  function Step(c: Cluster, a: Action): Cluster {
    if !Enabled(c, a) then c
    else
      match a
      case Initiate(s) =>
        var step := HandleInitiate(c.replicas[s]);
        c.(replicas := c.replicas[s := step.next],
           net := if step.broadcast.Some? then c.net + {step.broadcast.value} else c.net,
           initiated := c.initiated + {Initiation(s, step.next.view.number)})
      case Deliver(to, msg) =>
        c.(replicas := c.replicas[to := HandleViewChange(c.replicas[to], msg).next])
      case Lose(msg) => c.(net := c.net - {msg})
      case Crash(s) => c.(live := c.live - {s})
      case Join(s, donor, order) =>
        var r := c.replicas[s];
        c.(live := c.live + {s},
           replicas := c.replicas[s := Joined(s, r.all, r.dedup, Donor(c, donor), order)])
      case Incr(s, req) => c.(replicas := c.replicas[s := HandleIncr(c.replicas[s], req).next])
      case Replicate(s, msg) => c.(replicas := c.replicas[s := HandleReplicate(c.replicas[s], msg)])
  }

  function Exec(c: Cluster, actions: seq<Action>): Cluster {
    if actions == [] then c
    else Step(Exec(c, actions[..|actions| - 1]), actions[|actions| - 1])
  }

  // ---- the invariant, in layers -----------------------------------------------------------

  predicate WellFormed(c: Cluster, all: Members) {
    && |c.replicas.Keys| == |all|
    && (forall s :: s in c.replicas ==> c.replicas[s].self == s && c.replicas[s].all == all)
    && (forall m :: m in c.net ==> m.sender in c.replicas)
  }

  /** A server votes in every vote set it keeps, and has reached every view it holds a majority for. */
  predicate VotesCounted(r: Replica) {
    forall v :: v in r.view.votes ==>
      r.self in r.view.votes[v] && (|r.view.votes[v]| >= Majority(|r.all|) ==> r.view.number >= v)
  }

  predicate AllVotesCounted(c: Cluster) {
    forall s :: s in c.replicas ==> VotesCounted(c.replicas[s])
  }

  predicate HonestNet(c: Cluster) {
    && (forall m :: m in c.net ==> Initiation(m.sender, m.view) in c.initiated)
    && (forall i :: i in c.initiated ==> i.server in c.replicas && i.view >= 1)
  }

  /** Every vote a server holds from somebody else was cast by a server that initiated that view. */
  predicate HonestVotes(c: Cluster) {
    forall s, v, x :: s in c.replicas && v in c.replicas[s].view.votes && x in c.replicas[s].view.votes[v] && x != s ==>
      Initiation(x, v) in c.initiated
  }

  ghost predicate ViewInitiated(c: Cluster, view: int) {
    exists s :: Initiation(s, view) in c.initiated
  }

  /** Every view a server is in, and every view below an initiated one, was itself initiated. */
  ghost predicate NoGaps(c: Cluster) {
    && (forall s {:trigger ViewInitiated(c, c.replicas[s].view.number)} :: s in c.replicas ==>
          c.replicas[s].view.number == 0 || ViewInitiated(c, c.replicas[s].view.number))
    && (forall i, u :: i in c.initiated && 1 <= u <= i.view ==> ViewInitiated(c, u))
  }

  ghost predicate Inv(c: Cluster, all: Members) {
    WellFormed(c, all) && AllVotesCounted(c) && HonestNet(c) && HonestVotes(c) && NoGaps(c)
  }

  // ---- one handler ------------------------------------------------------------------------

  /** Only the view number, and the vote set of one view, matter to the cluster. */
  predicate Moved(r: Replica, r': Replica, view: int, voters: set<string>) {
    && r'.self == r.self && r'.all == r.all
    && r'.view.votes == r.view.votes[view := voters]
    && r.view.number <= r'.view.number
  }

  lemma GrowsByAtMostOne(s: set<string>, x: string)
    ensures |s| <= |s + {x}| <= |s| + 1
    ensures x in s ==> s + {x} == s
  {
    if x in s {
      assert s + {x} == s;
    }
  }

  lemma InitiateMoves(r: Replica)
    ensures var step, newView := HandleInitiate(r), r.view.number + 1;
            && Moved(r, step.next, newView, VotesFor(r.view, newView) + {r.self})
            && step.next.view.number == newView
            && (step.broadcast.Some? ==> step.broadcast.value == ViewChangeMsg(newView, r.self))
  {
  }

  /** The fast path of initiateViewChange is taken exactly in a cluster of one. */
  lemma InitiateKeepsCounted(r: Replica)
    requires VotesCounted(r)
    ensures VotesCounted(HandleInitiate(r).next)
    ensures HandleInitiate(r).broadcast.None? <==> |r.all| == 1
    ensures HandleInitiate(r).next.view.changing <==> |r.all| > 1
  {
    var newView := r.view.number + 1;
    var was := VotesFor(r.view, newView);
    GrowsByAtMostOne(was, r.self);
    if newView in r.view.votes {
      assert was + {r.self} == was && |was| < Majority(|r.all|);
      assert r.self in was;
    } else {
      assert was + {r.self} == {r.self};
    }
  }

  function VotersAfter(r: Replica, msg: ViewChangeMsg): set<string> {
    (if msg.view in r.view.votes then r.view.votes[msg.view] else {r.self}) + {msg.sender}
  }

  /** A delivery that does not commit the view starts view-change mode iff the vote is for a higher view. */
  lemma DeliverMoves(r: Replica, msg: ViewChangeMsg)
    requires msg.view >= r.view.number
    ensures var r' := HandleViewChange(r, msg).next;
            && Moved(r, r', msg.view, VotersAfter(r, msg))
            && (if |VotersAfter(r, msg)| == Majority(|r.all|)
                then r'.view.number == msg.view && !r'.view.changing
                else r'.view.number == r.view.number &&
                     (r'.view.changing <==> r.view.changing || msg.view > r.view.number))
  {
  }

  /** The commit test is an equality: a set beyond the majority was a majority before. */
  lemma DeliverCounts(r: Replica, msg: ViewChangeMsg)
    requires VotesCounted(r) && |r.all| >= 2
    ensures r.self in VotersAfter(r, msg)
    ensures |VotersAfter(r, msg)| > Majority(|r.all|) ==>
              msg.view in r.view.votes && |r.view.votes[msg.view]| >= Majority(|r.all|)
  {
    var was := if msg.view in r.view.votes then r.view.votes[msg.view] else {r.self};
    GrowsByAtMostOne(was, msg.sender);
    if msg.view !in r.view.votes {
      assert |was| == 1;
    }
  }

  lemma DeliverKeepsCounted(r: Replica, msg: ViewChangeMsg)
    requires VotesCounted(r) && |r.all| >= 2
    ensures VotesCounted(HandleViewChange(r, msg).next)
  {
    if msg.view >= r.view.number {
      DeliverCounts(r, msg);
      DeliverMoves(r, msg);
    }
  }

  /** A joining server forgets its view and votes and takes the donor's view number. */
  lemma JoinStep(c: Cluster, all: Members, s: string, donor: Option<string>, order: seq<string>)
    requires WellFormed(c, all) && Enabled(c, Join(s, donor, order))
    ensures var c' := Step(c, Join(s, donor, order));
            && s in c'.replicas && c'.replicas == c.replicas[s := c'.replicas[s]]
            && c'.replicas[s].self == s && c'.replicas[s].all == all && c'.replicas[s].dedup == c.replicas[s].dedup
            && c'.replicas[s].view == ViewState(JoinView(c, donor), LeaderOf(all, JoinView(c, donor)), false, map[])
            && c'.net == c.net && c'.initiated == c.initiated
  {
    var r := c.replicas[s];
    JoinedView(s, all, r.dedup, Donor(c, donor), order);
  }

  // ---- one step ---------------------------------------------------------------------------

  lemma TwoServers(ids: set<string>, x: string, y: string)
    requires x in ids && y in ids && x != y
    ensures |ids| >= 2
  {
    SubsetSize({x, y}, ids);
  }

  lemma StepCounted(c: Cluster, all: Members, a: Action)
    requires WellFormed(c, all) && AllVotesCounted(c)
    ensures AllVotesCounted(Step(c, a))
  {
    if Enabled(c, a) {
      match a
      case Initiate(s) => InitiateKeepsCounted(c.replicas[s]);
      case Deliver(to, msg) =>
        TwoServers(c.replicas.Keys, to, msg.sender);
        DeliverKeepsCounted(c.replicas[to], msg);
      case Join(s, donor, order) => JoinStep(c, all, s, donor, order);
      case _ =>
    }
  }

  lemma StepKeepsConfiguration(c: Cluster, all: Members, a: Action, s: string)
    requires WellFormed(c, all) && s in c.replicas
    ensures s in Step(c, a).replicas && Step(c, a).replicas[s].self == s && Step(c, a).replicas[s].all == all
  {
    if Enabled(c, a) && a.Join? {
      JoinStep(c, all, a.server, a.donor, a.order);
    }
  }

  lemma StepWellFormed(c: Cluster, all: Members, a: Action)
    requires WellFormed(c, all)
    ensures WellFormed(Step(c, a), all)
    ensures Step(c, a).replicas.Keys == c.replicas.Keys
  {
    var c' := Step(c, a);
    assert c'.replicas.Keys == c.replicas.Keys;
    forall s | s in c'.replicas ensures c'.replicas[s].self == s && c'.replicas[s].all == all {
      StepKeepsConfiguration(c, all, a, s);
    }
    if Enabled(c, a) && a.Initiate? {
      InitiateMoves(c.replicas[a.server]);
    }
  }

  lemma StepNet(c: Cluster, all: Members, a: Action)
    requires WellFormed(c, all) && HonestNet(c)
    ensures HonestNet(Step(c, a))
  {
    if Enabled(c, a) && a.Initiate? {
      InitiateMoves(c.replicas[a.server]);
    }
  }

  /** r moved to r' at s, and the history grew. */
  predicate MovedAt(c: Cluster, c': Cluster, s: string, view: int, voters: set<string>) {
    && s in c.replicas && s in c'.replicas && c.initiated <= c'.initiated
    && c'.replicas == c.replicas[s := c'.replicas[s]]
    && Moved(c.replicas[s], c'.replicas[s], view, voters)
  }

  lemma MovedHistory(c: Cluster, c': Cluster, s: string, view: int, voters: set<string>)
    requires MovedAt(c, c', s, view, voters) && HonestVotes(c)
    requires forall x :: x in voters && x != s ==> Initiation(x, view) in c'.initiated
    ensures HonestVotes(c')
  {
  }

  lemma InitiateHistory(c: Cluster, all: Members, s: string)
    requires WellFormed(c, all) && Enabled(c, Initiate(s)) && HonestVotes(c)
    ensures HonestVotes(Step(c, Initiate(s)))
  {
    var r, c' := c.replicas[s], Step(c, Initiate(s));
    InitiateMoves(r);
    var newView := r.view.number + 1;
    MovedHistory(c, c', s, newView, VotesFor(r.view, newView) + {s});
  }

  lemma DeliverHistory(c: Cluster, all: Members, to: string, msg: ViewChangeMsg)
    requires WellFormed(c, all) && Enabled(c, Deliver(to, msg)) && HonestNet(c) && HonestVotes(c)
    ensures HonestVotes(Step(c, Deliver(to, msg)))
  {
    var r, c' := c.replicas[to], Step(c, Deliver(to, msg));
    if msg.view >= r.view.number {
      DeliverMoves(r, msg);
      MovedHistory(c, c', to, msg.view, VotersAfter(r, msg));
    }
  }

  lemma StepHistory(c: Cluster, all: Members, a: Action)
    requires WellFormed(c, all) && HonestNet(c) && HonestVotes(c)
    ensures HonestVotes(Step(c, a))
  {
    if Enabled(c, a) {
      match a
      case Initiate(s) => InitiateHistory(c, all, s);
      case Deliver(to, msg) => DeliverHistory(c, all, to, msg);
      case Join(s, donor, order) => JoinStep(c, all, s, donor, order);
      case _ =>
    }
  }

  lemma InitiateNoGaps(c: Cluster, s: string)
    requires NoGaps(c) && Enabled(c, Initiate(s))
    ensures NoGaps(Step(c, Initiate(s)))
  {
    var c' := Step(c, Initiate(s));
    var number := c.replicas[s].view.number;
    InitiateMoves(c.replicas[s]);
    forall v | ViewInitiated(c, v) ensures ViewInitiated(c', v) {
      var x :| Initiation(x, v) in c.initiated;
      assert Initiation(x, v) in c'.initiated;
    }
    assert Initiation(s, number + 1) in c'.initiated;
    forall t | t in c'.replicas && c'.replicas[t].view.number != 0
      ensures ViewInitiated(c', c'.replicas[t].view.number)
    {
      assert t != s ==> ViewInitiated(c, c.replicas[t].view.number);
    }
    forall i, u | i in c'.initiated && 1 <= u <= i.view ensures ViewInitiated(c', u) {
      if i in c.initiated {
        assert ViewInitiated(c, u);
      } else if u <= number {
        assert ViewInitiated(c, c.replicas[s].view.number);
        var x :| Initiation(x, number) in c.initiated;
        assert ViewInitiated(c, u);
      }
    }
  }

  /** Where a server's view can come from in a step without an initiation. */
  lemma ViewComesFrom(c: Cluster, all: Members, a: Action, t: string)
    requires WellFormed(c, all) && HonestNet(c) && NoGaps(c) && t in c.replicas && !a.Initiate?
    ensures t in Step(c, a).replicas
    ensures var w := Step(c, a).replicas[t].view.number; w == 0 || ViewInitiated(c, w)
  {
    assert c.replicas[t].view.number == 0 || ViewInitiated(c, c.replicas[t].view.number);
    if Enabled(c, a) {
      match a
      case Deliver(to, msg) =>
        assert Initiation(msg.sender, msg.view) in c.initiated;
        assert ViewInitiated(c, msg.view);
        if msg.view >= c.replicas[to].view.number {
          DeliverMoves(c.replicas[to], msg);
        }
      case Join(s, donor, order) =>
        JoinStep(c, all, s, donor, order);
        if donor.Some? {
          var d := donor.value;
          assert c.replicas[d].view.number == 0 || ViewInitiated(c, c.replicas[d].view.number);
        }
      case _ =>
    }
  }

  lemma StepNoGaps(c: Cluster, all: Members, a: Action)
    requires WellFormed(c, all) && NoGaps(c) && HonestNet(c)
    ensures NoGaps(Step(c, a))
  {
    var c' := Step(c, a);
    if Enabled(c, a) && a.Initiate? {
      InitiateNoGaps(c, a.server);
    } else {
      assert c'.initiated == c.initiated;
      forall v ensures ViewInitiated(c', v) == ViewInitiated(c, v) {
      }
      StepWellFormed(c, all, a);
      forall t | t in c'.replicas && c'.replicas[t].view.number != 0
        ensures ViewInitiated(c', c'.replicas[t].view.number)
      {
        if !a.Initiate? {
          ViewComesFrom(c, all, a, t);
        } else {
          assert ViewInitiated(c, c.replicas[t].view.number);
        }
      }
    }
  }

  // ---- whole runs -------------------------------------------------------------------------

  lemma StartInv(all: Members, dedup: bool)
    requires NoDuplicates(all)
    ensures Inv(Start(all, dedup), all)
  {
    DistinctSize(all);
    assert Start(all, dedup).replicas.Keys == AsSet(all);
  }

  lemma StepInv(c: Cluster, all: Members, a: Action)
    requires Inv(c, all)
    ensures Inv(Step(c, a), all)
    ensures Step(c, a).replicas.Keys == c.replicas.Keys
  {
    StepWellFormed(c, all, a);
    StepCounted(c, all, a);
    StepNet(c, all, a);
    StepHistory(c, all, a);
    StepNoGaps(c, all, a);
  }

  lemma {:induction false} RunInv(all: Members, dedup: bool, actions: seq<Action>)
    requires NoDuplicates(all)
    ensures Inv(Exec(Start(all, dedup), actions), all)
    ensures Exec(Start(all, dedup), actions).replicas.Keys == AsSet(all)
  {
    if actions == [] {
      StartInv(all, dedup);
    } else {
      RunInv(all, dedup, actions[..|actions| - 1]);
      StepInv(Exec(Start(all, dedup), actions[..|actions| - 1]), all, actions[|actions| - 1]);
    }
  }

  // ---- what every run guarantees, with joins ----------------------------------------------

  function Initiators(c: Cluster, view: int): set<string> {
    set i | i in c.initiated && i.view == view :: i.server
  }

  /** The commit test "votes == majority" is never skipped over: a server has reached every view for
      which it holds a majority. Hence initiateViewChange commits at once only in a cluster of one. */
  lemma MajorityIsNeverSkipped(all: Members, dedup: bool, actions: seq<Action>, s: string, view: int)
    requires NoDuplicates(all) && s in all
    ensures var c := Exec(Start(all, dedup), actions);
            && s in c.replicas
            && (|VotesFor(c.replicas[s].view, view)| >= Majority(|all|) ==> c.replicas[s].view.number >= view)
            && (HandleInitiate(c.replicas[s]).broadcast.None? <==> |all| == 1)
  {
    RunInv(all, dedup, actions);
    var c := Exec(Start(all, dedup), actions);
    assert s in AsSet(all);
    InitiateKeepsCounted(c.replicas[s]);
  }

  /** Votes are honest, every kept vote set includes its holder, and the views ever initiated are
      exactly 1 up to the highest one. */
  lemma VotesHonestViewsGapless(all: Members, dedup: bool, actions: seq<Action>)
    requires NoDuplicates(all)
    ensures var c := Exec(Start(all, dedup), actions);
            && (forall s, v, x ::
                  s in c.replicas && v in c.replicas[s].view.votes && x in c.replicas[s].view.votes[v] ==>
                  && s in c.replicas[s].view.votes[v]
                  && (x == s || Initiation(x, v) in c.initiated))
            && (forall i, u :: i in c.initiated && 1 <= u <= i.view ==> ViewInitiated(c, u))
            && (forall i :: i in c.initiated ==> i.view >= 1)
  {
    RunInv(all, dedup, actions);
    var c := Exec(Start(all, dedup), actions);
    forall s | s in c.replicas ensures VotesCounted(c.replicas[s]) {
    }
  }

  /** The documentation has a server hear a view from a majority before it commits. A vote set counts
      its holder whether or not the holder initiated the view: so all the votes are initiations iff
      the holder initiated the view, and a set of exactly a majority meets the rule iff it did. */
  lemma MajorityHeardIff(all: Members, dedup: bool, actions: seq<Action>, s: string, view: int)
    requires NoDuplicates(all) && s in all
    ensures var c := Exec(Start(all, dedup), actions);
            s in c.replicas &&
            var votes, initiators := VotesFor(c.replicas[s].view, view), Initiators(c, view);
            votes != {} ==>
              && (votes <= initiators <==> Initiation(s, view) in c.initiated)
              && |votes * initiators| == |votes| - (if Initiation(s, view) in c.initiated then 0 else 1)
              && (|votes| == Majority(|all|) ==>
                    (|votes * initiators| >= Majority(|all|) <==> Initiation(s, view) in c.initiated))
  {
    RunInv(all, dedup, actions);
    var c := Exec(Start(all, dedup), actions);
    assert s in AsSet(all);
    var votes, initiators := VotesFor(c.replicas[s].view, view), Initiators(c, view);
    if votes != {} {
      HeardVotes(c, s, view);
    }
  }

  lemma HeardVotes(c: Cluster, s: string, view: int)
    requires s in c.replicas && VotesCounted(c.replicas[s]) && c.replicas[s].self == s && HonestVotes(c)
    requires VotesFor(c.replicas[s].view, view) != {}
    ensures var votes, initiators := VotesFor(c.replicas[s].view, view), Initiators(c, view);
            && (s in initiators <==> Initiation(s, view) in c.initiated)
            && s in votes && votes - {s} <= initiators
            && votes * initiators == if s in initiators then votes else votes - {s}
  {
    var votes, initiators := VotesFor(c.replicas[s].view, view), Initiators(c, view);
    forall x | x in votes - {s} ensures x in initiators {
      assert Initiation(x, view) in c.initiated;
    }
    if s in initiators {
      var i :| i in c.initiated && i.view == view && i.server == s;
      assert i == Initiation(s, view);
    }
  }

  // ---- leaders ----------------------------------------------------------------------------

  /** Server s as configured, with the leader its view number calls for. */
  predicate FollowsView(r: Replica, s: string, all: Members, dedup: bool) {
    r.self == s && r.all == all && r.dedup == dedup && r.view.leader == all[r.view.number % |all|]
  }

  predicate LeadersFollowViews(c: Cluster, all: Members, dedup: bool) {
    forall s :: s in c.replicas ==> FollowsView(c.replicas[s], s, all, dedup)
  }

  lemma InitiateFollowsView(r: Replica)
    ensures FollowsView(HandleInitiate(r).next, r.self, r.all, r.dedup)
  {
  }

  lemma DeliverFollowsView(r: Replica, msg: ViewChangeMsg)
    requires FollowsView(r, r.self, r.all, r.dedup)
    ensures FollowsView(HandleViewChange(r, msg).next, r.self, r.all, r.dedup)
  {
  }

  lemma JoinFollowsView(self: string, all: Members, dedup: bool, donor: Option<Replica>, order: seq<string>)
    requires donor.Some? ==> AsSet(order) <= donor.value.store.cache.Keys
    ensures FollowsView(Joined(self, all, dedup, donor, order), self, all, dedup)
  {
    JoinedView(self, all, dedup, donor, order);
  }

  lemma StepKeepsLeaders(c: Cluster, all: Members, dedup: bool, a: Action, s: string)
    requires LeadersFollowViews(c, all, dedup) && s in c.replicas
    ensures s in Step(c, a).replicas && FollowsView(Step(c, a).replicas[s], s, all, dedup)
  {
    var r := c.replicas[s];
    assert FollowsView(r, s, all, dedup);
    match a
    case Initiate(_) => InitiateFollowsView(r);
    case Deliver(_, msg) => DeliverFollowsView(r, msg);
    case Join(_, donor, order) =>
      if Enabled(c, a) {
        JoinFollowsView(s, all, dedup, Donor(c, donor), order);
      }
    case _ =>
  }

  lemma {:induction false} RunKeepsLeaders(all: Members, dedup: bool, actions: seq<Action>)
    ensures LeadersFollowViews(Exec(Start(all, dedup), actions), all, dedup)
  {
    if actions == [] {
      assert 0 % |all| == 0;
    } else {
      var c, a := Exec(Start(all, dedup), actions[..|actions| - 1]), actions[|actions| - 1];
      RunKeepsLeaders(all, dedup, actions[..|actions| - 1]);
      forall s | s in Step(c, a).replicas ensures FollowsView(Step(c, a).replicas[s], s, all, dedup) {
        StepKeepsLeaders(c, all, dedup, a, s);
      }
    }
  }

  /** Whoever increments in view w, at any two points of a run, is the same server: all[w mod n]. */
  lemma OneServerPerView(all: Members, dedup: bool, before: seq<Action>, after: seq<Action>,
                         s: string, t: string, p: IncrRequest, q: IncrRequest)
    requires NoDuplicates(all)
    requires var c := Exec(Start(all, dedup), before);
             s in c.replicas && HandleIncr(c.replicas[s], p).emitted.Some?
    requires var c' := Exec(Start(all, dedup), before + after);
             t in c'.replicas && HandleIncr(c'.replicas[t], q).emitted.Some?
    ensures var w := Exec(Start(all, dedup), before).replicas[s].view.number;
            var w' := Exec(Start(all, dedup), before + after).replicas[t].view.number;
            s == all[w % |all|] && t == all[w' % |all|] && (w == w' ==> s == t)
  {
    RunKeepsLeaders(all, dedup, before);
    RunKeepsLeaders(all, dedup, before + after);
  }
}
