/** What the client's calls look like from outside, without its set of dead addresses: each invocation and
    the end of a call follow from the outcomes so far. And a cluster in which an election goes on while
    the client calls. */
module CallHistories {
  import opened Messages
  import opened Membership
  import opened Replicas
  import opened Client
  import opened ClientProgress

  // ---- the rules --------------------------------------------------------------------------

  /** The transport has failed at a among the first n invocations. */
  ghost predicate FailedBefore(world: World, calls: seq<string>, n: nat, a: string)
    requires n <= |calls|
  {
    exists i :: 0 <= i < n && calls[i] == a && Failed(world, calls, i)
  }

  /** Why invocation n is followed by another, and at which address. */
  ghost predicate Proceeds(peers: Members, world: World, dial: Dialer, calls: seq<string>, n: nat)
    requires n + 1 < |calls|
  {
    var next := calls[n + 1];
    match world(n, calls[n])
    case OtherError => next == calls[n]
    case Reply(redirectTo, _) =>
      redirectTo != "" &&
      if FailedBefore(world, calls, n, redirectTo) then next == calls[n]
      else next == redirectTo && (redirectTo == calls[n] || dial(n, redirectTo))
    case TransportFailure =>
      next in peers && next != "" && !FailedBefore(world, calls, n + 1, next) && dial(n, next)
  }

  /** Why there was no invocation after the last one. */
  ghost predicate Ends(peers: Members, world: World, dial: Dialer, calls: seq<string>, result: Result)
    requires calls != []
  {
    var n := |calls| - 1;
    match world(n, calls[n])
    case OtherError => result == TooManyAttempts && |calls| == 15
    case Reply(redirectTo, value) =>
      if redirectTo == "" then result == Success(value)
      else if !FailedBefore(world, calls, n, redirectTo) && redirectTo != calls[n] && !dial(n, redirectTo)
      then result == BindFailed
      else result == TooManyAttempts && |calls| == 15
    case TransportFailure =>
      match result
      case Success(_) => false
      case AllPeersUnreachable =>
        (forall p :: p in peers ==> FailedBefore(world, calls, n + 1, p))
        || ("" in peers && !FailedBefore(world, calls, n + 1, ""))
      case BindFailed => exists p :: p in peers && p != "" && !FailedBefore(world, calls, n + 1, p) && !dial(n, p)
      case TooManyAttempts => |calls| == 15
  }

  ghost predicate AllProceed(peers: Members, world: World, dial: Dialer, calls: seq<string>) {
    forall n :: 0 <= n && n + 1 < |calls| ==> Proceeds(peers, world, dial, calls, n)
  }

  /** The client stays bound to the last address invoked, or to the one it would have invoked next. */
  ghost predicate EndsBound(peers: Members, world: World, dial: Dialer, s: Session) {
    && s.calls != []
    && (if s.result == TooManyAttempts then AllProceed(peers, world, dial, s.calls + [s.end.leader])
        else s.end.leader == s.calls[|s.calls| - 1])
  }

  lemma SameFailures(world: World, calls: seq<string>, more: seq<string>, n: nat)
    requires n <= |calls| && calls <= more
    ensures forall a :: FailedBefore(world, calls, n, a) <==> FailedBefore(world, more, n, a)
  {
    forall i | 0 <= i < |calls| ensures calls[i] == more[i] && Failed(world, calls, i) == Failed(world, more, i) {
    }
  }

  lemma SameReasons(peers: Members, world: World, dial: Dialer, calls: seq<string>, more: seq<string>, n: nat)
    requires n + 1 < |calls| && calls <= more
    ensures Proceeds(peers, world, dial, calls, n) <==> Proceeds(peers, world, dial, more, n)
  {
    SameFailures(world, calls, more, n);
    SameFailures(world, calls, more, n + 1);
  }

  /** One more invocation, for a reason. */
  lemma OneMoreCall(peers: Members, world: World, dial: Dialer, calls: seq<string>, next: string)
    requires calls != [] && AllProceed(peers, world, dial, calls)
    requires Proceeds(peers, world, dial, calls + [next], |calls| - 1)
    ensures AllProceed(peers, world, dial, calls + [next])
  {
    forall n | 0 <= n && n + 1 < |calls + [next]| ensures Proceeds(peers, world, dial, calls + [next], n) {
      if n + 1 < |calls| {
        SameReasons(peers, world, dial, calls, calls + [next], n);
      }
    }
  }

  // ---- every call keeps them --------------------------------------------------------------

  lemma DeadHaveFailed(world: World, dead: set<string>, made: seq<string>, more: seq<string>, a: string)
    requires DeadAreFailed(world, dead, made) && made <= more
    ensures a in dead <==> FailedBefore(world, more, |made|, a)
  {
    SameFailures(world, made, more, |made|);
  }

  lemma ScanResult(peers: Members, i: nat, dead: set<string>)
    requires i < |peers|
    ensures match Scan(peers, i, dead, 1)
            case None => forall p :: p in peers ==> p in dead
            case Some(j) => peers[j] in peers && peers[j] !in dead
  {
    NextAliveIsFirst(peers, i, dead);
    forall p | p in peers ensures p in AsSet(peers) {
    }
  }

  /** The turn after an invocation that failed. */
  lemma FailureTurn(peers: Members, b: Binding, dead: set<string>, made: seq<string>, world: World, dial: Dialer)
    requires b.peerIdx < |peers| && DeadAreFailed(world, dead, made) && world(|made|, b.leader).TransportFailure?
    ensures var calls := made + [b.leader];
            match TakeTurn(peers, b, dead, TransportFailure, |made|, dial)
            case Stop(result, _) => Ends(peers, world, dial, calls, result)
            case Again(b', _) => Proceeds(peers, world, dial, calls + [b'.leader], |made|)
  {
    var calls, dead' := made + [b.leader], dead + {b.leader};
    DeadGrows(world, dead, made, b.leader);
    ScanResult(peers, b.peerIdx, dead');
    var turn := TakeTurn(peers, b, dead, TransportFailure, |made|, dial);
    var more := if turn.Again? then calls + [turn.bound.leader] else calls;
    forall a ensures a in dead' <==> FailedBefore(world, more, |calls|, a) {
      DeadHaveFailed(world, dead', calls, more, a);
    }
  }

  /** The turn after an invocation that did not. */
  lemma OtherTurn(peers: Members, b: Binding, dead: set<string>, made: seq<string>, world: World, dial: Dialer)
    requires b.peerIdx < |peers| && DeadAreFailed(world, dead, made) && !world(|made|, b.leader).TransportFailure?
    ensures var calls := made + [b.leader];
            match TakeTurn(peers, b, dead, world(|made|, b.leader), |made|, dial)
            case Stop(result, _) => Ends(peers, world, dial, calls, result)
            case Again(b', _) => Proceeds(peers, world, dial, calls + [b'.leader], |made|)
  {
    var calls := made + [b.leader];
    var turn := TakeTurn(peers, b, dead, world(|made|, b.leader), |made|, dial);
    var more := if turn.Again? then calls + [turn.bound.leader] else calls;
    forall a ensures a in dead <==> FailedBefore(world, more, |made|, a) {
      DeadHaveFailed(world, dead, made, more, a);
    }
  }

  /** After 15 invocations the call ends, whatever would have come next. */
  lemma OutOfAttempts(peers: Members, world: World, dial: Dialer, calls: seq<string>, next: string)
    requires |calls| == MAX_ATTEMPTS && AllProceed(peers, world, dial, calls + [next])
    ensures AllProceed(peers, world, dial, calls) && Ends(peers, world, dial, calls, TooManyAttempts)
  {
    forall n | 0 <= n && n + 1 < |calls| ensures Proceeds(peers, world, dial, calls, n) {
      SameReasons(peers, world, dial, calls, calls + [next], n);
    }
    var n := |calls| - 1;
    assert Proceeds(peers, world, dial, calls + [next], n);
    SameFailures(world, calls, calls + [next], n);
  }

  lemma {:induction false} AttemptKeepsRules(peers: Members, b: Binding, dead: set<string>, made: seq<string>,
                                             world: World, dial: Dialer)
    requires b.peerIdx < |peers| && |made| <= MAX_ATTEMPTS && DeadAreFailed(world, dead, made)
    requires AllProceed(peers, world, dial, made + [b.leader])
    ensures var s := Attempt(peers, b, dead, made, world, dial);
            && s.calls != [] && s.calls[0] == (made + [b.leader])[0] && |s.calls| <= MAX_ATTEMPTS
            && AllProceed(peers, world, dial, s.calls) && Ends(peers, world, dial, s.calls, s.result)
            && EndsBound(peers, world, dial, s)
    decreases MAX_ATTEMPTS - |made|
  {
    if |made| == MAX_ATTEMPTS {
      OutOfAttempts(peers, world, dial, made, b.leader);
    } else {
      AttemptUnfold(peers, b, dead, made, world, dial);
      var outcome := world(|made|, b.leader);
      var turn := TakeTurn(peers, b, dead, outcome, |made|, dial);
      if outcome.TransportFailure? {
        FailureTurn(peers, b, dead, made, world, dial);
      } else {
        OtherTurn(peers, b, dead, made, world, dial);
      }
      if turn.Again? {
        var calls := made + [b.leader];
        KeepsDead(peers, b, dead, made, world, dial);
        OneMoreCall(peers, world, dial, calls, turn.bound.leader);
        AttemptKeepsRules(peers, turn.bound, turn.dead, calls, world, dial);
      }
    }
  }

  lemma KeepsDead(peers: Members, b: Binding, dead: set<string>, made: seq<string>, world: World, dial: Dialer)
    requires b.peerIdx < |peers| && DeadAreFailed(world, dead, made)
    ensures var turn := TakeTurn(peers, b, dead, world(|made|, b.leader), |made|, dial);
            turn.Again? ==> DeadAreFailed(world, turn.dead, made + [b.leader])
  {
    if world(|made|, b.leader).TransportFailure? {
      DeadGrows(world, dead, made, b.leader);
    } else {
      forall a ensures a in dead <==> FailedBefore(world, made + [b.leader], |made|, a) {
        DeadHaveFailed(world, dead, made, made + [b.leader], a);
      }
    }
  }

  /** Whatever the servers do and whichever addresses can be dialled, a call starts at the bound address,
      makes between 1 and 15 invocations, and each of them but the first, its result, and where it leaves
      the client bound follow from the outcomes before by the rules above. */
  lemma CallKeepsRules(peers: Members, b: Binding, world: World, dial: Dialer)
    requires b.peerIdx < |peers|
    ensures var s := Call(peers, b, world, dial);
            && 1 <= |s.calls| <= 15 && s.calls[0] == b.leader
            && AllProceed(peers, world, dial, s.calls) && Ends(peers, world, dial, s.calls, s.result)
            && EndsBound(peers, world, dial, s)
  {
    AttemptKeepsRules(peers, b, {}, [], world, dial);
  }

  // ---- a cluster that settles during the call ---------------------------------------------

  /** From invocation n on the cluster is stable. Before, anything may come from the addresses, as long
      as the transport fails only at those in down, and redirects lead to other addresses. */
  ghost predicate Settles(world: World, n: nat, addresses: set<string>, down: set<string>, leader: string) {
    && Stable(world, n, addresses, down, leader)
    && (forall m, a {:trigger world(m, a)} :: 0 <= m < n && a in addresses ==>
          match world(m, a)
          case TransportFailure => a in down
          case OtherError => true
          case Reply(redirectTo, _) => redirectTo == "" || redirectTo in addresses)
  }

  /** One turn before the cluster has settled: an answer, or another address to try. */
  lemma UnsettledTurn(peers: Members, b: Binding, dead: set<string>, m: nat, world: World, dial: Dialer, n: nat,
                      addresses: set<string>, down: set<string>, leader: string)
    requires b.peerIdx < |peers| && b.leader in addresses && b.leader !in dead && dead <= down
    requires AsSet(peers) <= addresses && leader in peers && "" !in peers
    requires Settles(world, n, addresses, down, leader) && m < n && forall x, a :: dial(x, a)
    ensures match TakeTurn(peers, b, dead, world(m, b.leader), m, dial)
            case Stop(result, _) => result.Success?
            case Again(b', dead') => b'.leader in addresses && b'.leader !in dead' && dead' <= down
  {
    if world(m, b.leader).TransportFailure? {
      ScanResult(peers, b.peerIdx, dead + {b.leader});
      forall p | p in peers ensures p in AsSet(peers) {
      }
    }
  }

  lemma {:induction false} AttemptSettles(peers: Members, b: Binding, dead: set<string>, made: seq<string>,
                                          world: World, dial: Dialer, n: nat,
                                          addresses: set<string>, down: set<string>, leader: string)
    requires b.peerIdx < |peers| && b.leader in addresses && b.leader !in dead && dead <= down
    requires AsSet(peers) <= addresses && leader in peers && "" !in peers
    requires Settles(world, n, addresses, down, leader) && forall x, a :: dial(x, a)
    requires |made| <= n && n + |down| + 2 <= MAX_ATTEMPTS
    ensures var s := Attempt(peers, b, dead, made, world, dial);
            && s.result.Success? && |s.calls| <= n + |down| + 2
            && (|s.calls| > n ==> s.end.leader == leader)
    decreases n - |made|
  {
    if |made| == n {
      SubsetSize(down - dead, down);
      AttemptAnswers(peers, b, dead, made, world, dial, n, addresses, down, leader);
      LeaderIsReached(peers, b, dead, down, leader);
    } else {
      AttemptUnfold(peers, b, dead, made, world, dial);
      UnsettledTurn(peers, b, dead, |made|, world, dial, n, addresses, down, leader);
      var turn := TakeTurn(peers, b, dead, world(|made|, b.leader), |made|, dial);
      if turn.Again? {
        AttemptSettles(peers, turn.bound, turn.dead, made + [b.leader], world, dial, n, addresses, down, leader);
      }
    }
  }

  lemma LeaderIsReached(peers: Members, b: Binding, dead: set<string>, down: set<string>, leader: string)
    requires b.peerIdx < |peers| && leader in peers && leader !in down && "" !in peers
    ensures ReachesLive(peers, b, dead, down)
  {
    ScanResult(peers, b.peerIdx, SteppedOver(down, dead + {b.leader}));
  }

  /** The client outlasts an election. During the first n invocations servers may be in view-change mode,
      crash, answer, or redirect to one another, to crashed servers as well. If the cluster is stable
      from then on, with D unreachable addresses and n + D + 2 <= 15, the call succeeds within n + D + 2
      invocations, at the leader unless it was answered before. */
  lemma ElectionIsOutlasted(peers: Members, b: Binding, world: World, dial: Dialer, n: nat,
                            addresses: set<string>, down: set<string>, leader: string)
    requires b.peerIdx < |peers| && b.leader in addresses
    requires AsSet(peers) <= addresses && leader in peers && "" !in peers
    requires Settles(world, n, addresses, down, leader) && forall x, a :: dial(x, a)
    requires n + |down| + 2 <= MAX_ATTEMPTS
    ensures var s := Call(peers, b, world, dial);
            && s.result.Success? && |s.calls| <= n + |down| + 2
            && (|s.calls| > n ==> s.end.leader == leader)
  {
    AttemptSettles(peers, b, {}, [], world, dial, n, addresses, down, leader);
  }

  // ---- the servers behind it --------------------------------------------------------------

  /** The addresses the client knows belong to servers that are up, unless gone; their leaders are among
      them, and no cached reply carries a redirect. */
  predicate Configured(replicas: map<string, Replica>, gone: set<string>, known: set<string>) {
    forall a :: a in known && a !in gone ==>
      && a in replicas && replicas[a].view.leader in known
      && (forall k :: k in replicas[a].store.cache ==> replicas[a].store.cache[k].redirectTo == "")
  }

  /** at gives the servers and gone the crashed ones at each invocation; from invocation n on the cluster
      has settled on leader and exactly the servers in down are gone. */
  ghost predicate ElectsBy(at: nat -> map<string, Replica>, gone: nat -> set<string>, n: nat, known: set<string>,
                           down: set<string>, leader: string) {
    && (forall m :: gone(m) <= down && Configured(at(m), gone(m), known))
    && (forall m :: m >= n ==> gone(m) == down && Settled(at(m), down, leader))
  }

  /** What invoking IncrCounter yields while the servers change. */
  function Servers(at: nat -> map<string, Replica>, gone: nat -> set<string>, req: IncrRequest): World {
    (m: nat, a) => Invoke(at(m), gone(m), req, a)
  }

  lemma AnswerIsHandlers(at: nat -> map<string, Replica>, gone: nat -> set<string>, req: IncrRequest, m: nat,
                         a: string, value: int)
    requires Servers(at, gone, req)(m, a) == Reply("", value)
    ensures a in at(m) && HandleIncr(at(m)[a], req).outcome == Answered(IncrResponse(value, ""))
  {
    assert Invoke(at(m), gone(m), req, a) == Reply("", value);
  }

  lemma ElectionSettles(at: nat -> map<string, Replica>, gone: nat -> set<string>, n: nat, known: set<string>,
                        down: set<string>, leader: string, req: IncrRequest)
    requires ElectsBy(at, gone, n, known, down, leader) && leader in known && leader !in down && leader != ""
    requires req.counterId != ""
    ensures Settles(Servers(at, gone, req), n, known, down, leader)
  {
    var world := Servers(at, gone, req);
    forall m: nat, a | a in known
      ensures world(m, a).TransportFailure? ==> a in down
      ensures world(m, a).Reply? ==> world(m, a).redirectTo == "" || world(m, a).redirectTo in known
    {
      assert gone(m) <= down && Configured(at(m), gone(m), known);
    }
    forall m: nat, a | m >= n && a in known
      ensures !world(m, a).OtherError?
      ensures world(m, a).Reply? ==> a !in down && world(m, a).redirectTo == (if a == leader then "" else leader)
    {
      assert gone(m) == down && Settled(at(m), down, leader) && Configured(at(m), gone(m), known);
    }
  }

  /** The call ends with the value that the last server invoked gives. */
  predicate AnsweredBy(at: nat -> map<string, Replica>, req: IncrRequest, s: Session) {
    && s.result.Success? && s.calls != []
    && var replicas := at(|s.calls| - 1);
       && s.end.leader in replicas
       && HandleIncr(replicas[s.end.leader], req).outcome == Answered(IncrResponse(s.result.value, ""))
  }

  lemma ReplyIsAnswer(at: nat -> map<string, Replica>, gone: nat -> set<string>, req: IncrRequest, s: Session)
    requires s.result.Success? && s.calls != []
    requires Servers(at, gone, req)(|s.calls| - 1, s.end.leader) == Reply("", s.result.value)
    ensures AnsweredBy(at, req, s)
  {
    AnswerIsHandlers(at, gone, req, |s.calls| - 1, s.end.leader, s.result.value);
  }

  lemma SuccessIsReply(peers: Members, b: Binding, world: World, dial: Dialer)
    requires b.peerIdx < |peers| && Call(peers, b, world, dial).result.Success?
    ensures var s := Call(peers, b, world, dial);
            s.calls != [] && world(|s.calls| - 1, s.end.leader) == Reply("", s.result.value)
  {
    CallNeverRecalls(peers, b, world, dial);
  }

  /** End to end, with the servers' own handlers: a client that knows the cluster gets its answer, while
      servers crash, are in view-change mode, or redirect by views of their own, if within n invocations
      they agree on a live leader. */
  lemma ElectionEndsWithAnswer(peers: Members, b: Binding, at: nat -> map<string, Replica>, gone: nat -> set<string>,
                               n: nat, down: set<string>, leader: string, req: IncrRequest, dial: Dialer)
    requires b.peerIdx < |peers| && leader in peers && "" !in peers && req.counterId != ""
    requires ElectsBy(at, gone, n, Known(peers, b), down, leader) && leader !in down
    requires n + |down| + 2 <= MAX_ATTEMPTS && forall x, a :: dial(x, a)
    ensures var s := Call(peers, b, Servers(at, gone, req), dial);
            && |s.calls| <= n + |down| + 2 && AnsweredBy(at, req, s)
            && (|s.calls| > n ==> s.end.leader == leader)
  {
    var world := Servers(at, gone, req);
    assert leader in AsSet(peers);
    ElectionSettles(at, gone, n, Known(peers, b), down, leader, req);
    ElectionIsOutlasted(peers, b, world, dial, n, Known(peers, b), down, leader);
    SuccessIsReply(peers, b, world, dial);
    ReplyIsAnswer(at, gone, req, Call(peers, b, world, dial));
  }
}
