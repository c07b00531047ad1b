/** The client's interceptors: following redirects, failing over, and stamping requests. */
module Client {
  import opened Messages
  import opened Membership

  const MAX_ATTEMPTS: nat := 15

  /** What one invocation of an address yields; redirectTo is empty for a real answer. */
  datatype Outcome = TransportFailure | OtherError | Reply(redirectTo: string, value: int)

  datatype Result = Success(value: int) | AllPeersUnreachable | BindFailed | TooManyAttempts

  /** Which outcome the n-th invocation has at an address, and whether dialling it then succeeds. */
  type World = (nat, string) -> Outcome
  type Dialer = (nat, string) -> bool

  datatype Binding = Binding(leader: string, peerIdx: nat)

  /** The index k places after i, cyclically. */
  function After(i: nat, k: nat, n: nat): (j: nat)
    requires i < n && k <= n
    ensures j < n
  {
    if i + k < n then i + k else i + k - n
  }

  /** The first index after i, at least k places on, whose peer is not dead. */
  function Scan(peers: Members, i: nat, dead: set<string>, k: nat): (r: Option<nat>)
    requires i < |peers| && 1 <= k
    ensures r.Some? ==> r.value < |peers| && peers[r.value] !in dead
    decreases |peers| + 1 - k
  {
    if k > |peers| then None
    else if peers[After(i, k, |peers|)] !in dead then Some(After(i, k, |peers|))
    else Scan(peers, i, dead, k + 1)
  }

  /** How a call ended, what the client is bound to then, and the addresses invoked, in order. */
  datatype Session = Session(result: Result, end: Binding, calls: seq<string>)

  /** What one pass through the loop decides. */
  datatype Turn = Stop(result: Result, bound: Binding) | Again(bound: Binding, dead: set<string>)

  function TakeTurn(peers: Members, b: Binding, dead: set<string>, outcome: Outcome, n: nat, dial: Dialer): (t: Turn)
    requires b.peerIdx < |peers|
    ensures t.bound.peerIdx < |peers|
  {
    match outcome
    case OtherError => Again(b, dead)
    case TransportFailure =>
      var dead' := dead + {b.leader};
      (match Scan(peers, b.peerIdx, dead', 1)
       case None => Stop(AllPeersUnreachable, b)
       case Some(j) =>
         if peers[j] == "" then Stop(AllPeersUnreachable, b.(peerIdx := j))
         else if !dial(n, peers[j]) then Stop(BindFailed, b.(peerIdx := j))
         else Again(Binding(peers[j], j), dead'))
    case Reply(redirectTo, value) =>
      if redirectTo == "" then Stop(Success(value), b)
      else if redirectTo in dead || redirectTo == b.leader then Again(b, dead)
      else if !dial(n, redirectTo) then Stop(BindFailed, b)
      else Again(b.(leader := redirectTo), dead)
  }

  /** The loop of Unary, with the addresses found dead and the invocations made so far. */
  function Attempt(peers: Members, b: Binding, dead: set<string>, made: seq<string>, world: World,
                   dial: Dialer): Session
    requires b.peerIdx < |peers| && |made| <= MAX_ATTEMPTS
    decreases MAX_ATTEMPTS - |made|
  {
    if |made| == MAX_ATTEMPTS then Session(TooManyAttempts, b, made)
    else
      match TakeTurn(peers, b, dead, world(|made|, b.leader), |made|, dial)
      case Stop(result, b') => Session(result, b', made + [b.leader])
      case Again(b', dead') => Attempt(peers, b', dead', made + [b.leader], world, dial)
  }

  /** One call of Unary. */
  function Call(peers: Members, b: Binding, world: World, dial: Dialer): Session
    requires b.peerIdx < |peers|
  {
    Attempt(peers, b, {}, [], world, dial)
  }

  class LeaderInterceptor {
    const peers: Members
    var currConn: string    // the address the current connection goes to
    var leaderAddr: string
    var peerIdx: nat

    ghost predicate Valid()
      reads this
    {
      peerIdx < |peers| && currConn == leaderAddr
    }

    constructor (peers: Members)
      ensures Valid() && this.peers == peers && leaderAddr == peers[0] && peerIdx == 0
    {
      this.peers := peers;
      currConn := peers[0];
      leaderAddr := peers[0];
      peerIdx := 0;
    }

    method Rebind(newAddr: string, dialled: bool) returns (ok: bool)
      requires Valid()
      modifies this`currConn, this`leaderAddr
      ensures Valid()
      ensures ok <==> dialled || newAddr == old(leaderAddr)
      ensures leaderAddr == if ok then newAddr else old(leaderAddr)
    {
      if leaderAddr == newAddr {
        return true;
      }
      if !dialled {
        return false;
      }
      currConn := newAddr;
      leaderAddr := newAddr;
      ok := true;
    }

    method NextAlivePeer(dead: set<string>) returns (next: string)
      requires Valid()
      modifies this`peerIdx
      ensures Valid()
      ensures match Scan(peers, old(peerIdx), dead, 1)
              case None => next == "" && peerIdx == old(peerIdx)
              case Some(j) => next == peers[j] && peerIdx == j
    {
      ghost var start := peerIdx;
      for k := 0 to |peers|
        invariant start < |peers| && peerIdx == After(start, k, |peers|)
        invariant Scan(peers, start, dead, 1) == Scan(peers, start, dead, k + 1)
      {
        StepRoundRing(peerIdx, |peers|);
        peerIdx := (peerIdx + 1) % |peers|;
        var candidate := peers[peerIdx];
        if candidate !in dead {
          return candidate;
        }
      }
      next := "";
    }

    /** The body of the loop after the invocation has returned. */
    method HandleOutcome(outcome: Outcome, dead: set<string>, n: nat, dial: Dialer) returns (turn: Turn)
      requires Valid()
      modifies this
      ensures Valid() && turn.bound == Binding(leaderAddr, peerIdx)
      ensures turn == TakeTurn(peers, Binding(old(leaderAddr), old(peerIdx)), dead, outcome, n, dial)
    {
      match outcome {
        case TransportFailure =>
          var dead' := dead + {leaderAddr};
          var next := NextAlivePeer(dead');
          if next == "" {
            return Stop(AllPeersUnreachable, Binding(leaderAddr, peerIdx));
          }
          var ok := Rebind(next, dial(n, next));
          if !ok {
            return Stop(BindFailed, Binding(leaderAddr, peerIdx));
          }
          turn := Again(Binding(leaderAddr, peerIdx), dead');
        case OtherError =>
          turn := Again(Binding(leaderAddr, peerIdx), dead);
        case Reply(redirectTo, value) =>
          if redirectTo == "" {
            return Stop(Success(value), Binding(leaderAddr, peerIdx));
          }
          if redirectTo !in dead {
            var ok := Rebind(redirectTo, dial(n, redirectTo));
            if !ok {
              return Stop(BindFailed, Binding(leaderAddr, peerIdx));
            }
          }
          turn := Again(Binding(leaderAddr, peerIdx), dead);
      }
    }

    method Unary(world: World, dial: Dialer) returns (result: Result, calls: seq<string>)
      requires Valid()
      modifies this
      ensures Valid()
      ensures Session(result, Binding(leaderAddr, peerIdx), calls) ==
              Call(peers, Binding(old(leaderAddr), old(peerIdx)), world, dial)
    {
      var dead: set<string> := {};
      calls := [];
      ghost var whole := Call(peers, Binding(leaderAddr, peerIdx), world, dial);
      for attempt := 0 to MAX_ATTEMPTS
        invariant Valid() && |calls| == attempt
        invariant whole == Attempt(peers, Binding(leaderAddr, peerIdx), dead, calls, world, dial)
      {
        var activeConn, currentAddr := currConn, leaderAddr;
        var turn := HandleOutcome(world(attempt, activeConn), dead, attempt, dial);
        calls := calls + [currentAddr];
        if turn.Stop? {
          return turn.result, calls;
        }
        dead := turn.dead;
      }
      result := TooManyAttempts;
    }
  }

  lemma StepRoundRing(i: nat, n: nat)
    requires i < n
    ensures (i + 1) % n == After(i, 1, n)
  {
  }

  // ---- nextAlivePeer ----------------------------------------------------------------------

  /** Every index is reached exactly once going round the ring. */
  lemma RingCovers(i: nat, n: nat, j: nat) returns (k: nat)
    requires i < n && j < n
    ensures 1 <= k <= n && After(i, k, n) == j
  {
    k := if j > i then j - i else j + n - i;
  }

  lemma {:induction false} ScanFindsFirst(peers: Members, i: nat, dead: set<string>, k: nat)
    requires i < |peers| && 1 <= k
    ensures match Scan(peers, i, dead, k)
            case None => forall m :: k <= m <= |peers| ==> peers[After(i, m, |peers|)] in dead
            case Some(j) =>
              exists m :: k <= m <= |peers| && j == After(i, m, |peers|) &&
                          forall m' :: k <= m' < m ==> peers[After(i, m', |peers|)] in dead
    decreases |peers| + 1 - k
  {
    if k <= |peers| && peers[After(i, k, |peers|)] in dead {
      ScanFindsFirst(peers, i, dead, k + 1);
    }
  }

  /** The scan finds whatever is first in cyclic order. */
  lemma {:induction false} ScanStopsAt(peers: Members, i: nat, dead: set<string>, k: nat, m: nat)
    requires i < |peers| && 1 <= k <= m <= |peers| && peers[After(i, m, |peers|)] !in dead
    requires forall m' :: k <= m' < m ==> peers[After(i, m', |peers|)] in dead
    ensures Scan(peers, i, dead, k) == Some(After(i, m, |peers|))
    decreases m - k
  {
    if k < m {
      ScanStopsAt(peers, i, dead, k + 1, m);
    }
  }

  /** The scan fails exactly when every peer is dead; otherwise it stops at the first peer after i,
      in cyclic order, that is not. */
  lemma NextAliveIsFirst(peers: Members, i: nat, dead: set<string>)
    requires i < |peers|
    ensures Scan(peers, i, dead, 1).None? <==> AsSet(peers) <= dead
    ensures Scan(peers, i, dead, 1).Some? ==>
              var j := Scan(peers, i, dead, 1).value;
              && peers[j] !in dead
              && exists m :: 1 <= m <= |peers| && j == After(i, m, |peers|) &&
                             forall m' :: 1 <= m' < m ==> peers[After(i, m', |peers|)] in dead
  {
    ScanFindsFirst(peers, i, dead, 1);
    if Scan(peers, i, dead, 1).None? {
      forall p | p in AsSet(peers) ensures p in dead {
        var j :| 0 <= j < |peers| && peers[j] == p;
        var k := RingCovers(i, |peers|, j);
      }
    } else {
      assert peers[Scan(peers, i, dead, 1).value] in AsSet(peers);
    }
  }

  /** nextAlivePeer says "no live peer" by returning "", which it also returns on finding an empty
      address. That answer means that every peer is dead iff the empty address is not listed, or dead. */
  lemma EmptyAnswerIff(peers: Members, i: nat, dead: set<string>)
    requires i < |peers|
    requires Scan(peers, i, dead, 1).Some? ==> peers[Scan(peers, i, dead, 1).value] == ""
    ensures AsSet(peers) <= dead <==> "" !in peers || "" in dead
  {
    NextAliveIsFirst(peers, i, dead);
    if Scan(peers, i, dead, 1).Some? {
      assert peers[Scan(peers, i, dead, 1).value] in peers;
    }
    if "" in peers {
      assert "" in AsSet(peers);
    }
  }

  // ---- every call to Unary ----------------------------------------------------------------

  lemma AttemptUnfold(peers: Members, b: Binding, dead: set<string>, made: seq<string>, world: World, dial: Dialer)
    requires b.peerIdx < |peers| && |made| < MAX_ATTEMPTS
    ensures var turn := TakeTurn(peers, b, dead, world(|made|, b.leader), |made|, dial);
            Attempt(peers, b, dead, made, world, dial) ==
              match turn
              case Stop(result, b') => Session(result, b', made + [b.leader])
              case Again(b', dead') => Attempt(peers, b', dead', made + [b.leader], world, dial)
  {
  }

  predicate Failed(world: World, calls: seq<string>, i: nat)
    requires i < |calls|
  {
    world(i, calls[i]).TransportFailure?
  }

  /** No address is invoked again once it has failed. */
  predicate NeverRecalls(world: World, calls: seq<string>) {
    forall i, j :: 0 <= i < j < |calls| && Failed(world, calls, i) ==> calls[j] != calls[i]
  }

  /** dead is exactly the set of addresses that have failed. */
  ghost predicate DeadAreFailed(world: World, dead: set<string>, made: seq<string>) {
    forall a :: a in dead <==> exists i :: 0 <= i < |made| && made[i] == a && Failed(world, made, i)
  }

  lemma TurnTracksDead(peers: Members, b: Binding, dead: set<string>, made: seq<string>, world: World, n: nat,
                       dial: Dialer)
    requires b.peerIdx < |peers| && b.leader !in dead && DeadAreFailed(world, dead, made) && NeverRecalls(world, made)
    ensures var turn := TakeTurn(peers, b, dead, world(|made|, b.leader), n, dial);
            && NeverRecalls(world, made + [b.leader])
            && (turn.Again? ==> turn.bound.leader !in turn.dead && DeadAreFailed(world, turn.dead, made + [b.leader]))
  {
    var made' := made + [b.leader];
    var outcome := world(|made|, b.leader);
    var dead' := if outcome.TransportFailure? then dead + {b.leader} else dead;
    forall i | 0 <= i < |made| ensures Failed(world, made', i) <==> Failed(world, made, i) {
      assert made'[i] == made[i];
    }
    forall a ensures a in dead' <==> exists i :: 0 <= i < |made'| && made'[i] == a && Failed(world, made', i) {
      if a in dead {
        var i :| 0 <= i < |made| && made[i] == a && Failed(world, made, i);
        assert made'[i] == a && Failed(world, made', i);
      }
      if a == b.leader {
        assert made'[|made|] == a;
      }
    }
  }

  lemma {:induction false} AttemptNeverRecalls(peers: Members, b: Binding, dead: set<string>, made: seq<string>,
                                               world: World, dial: Dialer)
    requires b.peerIdx < |peers| && |made| <= MAX_ATTEMPTS && b.leader !in dead
    requires DeadAreFailed(world, dead, made) && NeverRecalls(world, made)
    ensures var s := Attempt(peers, b, dead, made, world, dial);
            && |s.calls| <= MAX_ATTEMPTS && NeverRecalls(world, s.calls)
            && (s.result.Success? ==>
                  && |s.calls| > 0 && s.end.leader == s.calls[|s.calls| - 1]
                  && world(|s.calls| - 1, s.end.leader) == Reply("", s.result.value))
    decreases MAX_ATTEMPTS - |made|
  {
    if |made| < MAX_ATTEMPTS {
      AttemptUnfold(peers, b, dead, made, world, dial);
      TurnTracksDead(peers, b, dead, made, world, |made|, dial);
      var turn := TakeTurn(peers, b, dead, world(|made|, b.leader), |made|, dial);
      if turn.Again? {
        AttemptNeverRecalls(peers, turn.bound, turn.dead, made + [b.leader], world, dial);
      }
    }
  }

  /** Whatever the servers do: no address is invoked again once it has failed, there are at most 15
      invocations, and success means that the last of them, at the address the client stays bound to,
      was answered without a redirect. */
  lemma CallNeverRecalls(peers: Members, b: Binding, world: World, dial: Dialer)
    requires b.peerIdx < |peers|
    ensures var s := Call(peers, b, world, dial);
            && |s.calls| <= MAX_ATTEMPTS && NeverRecalls(world, s.calls)
            && (s.result.Success? ==>
                  && |s.calls| > 0 && s.end.leader == s.calls[|s.calls| - 1]
                  && world(|s.calls| - 1, s.end.leader) == Reply("", s.result.value))
  {
    AttemptNeverRecalls(peers, b, {}, [], world, dial);
  }

  lemma {:induction false} AttemptTriesAll(peers: Members, b: Binding, dead: set<string>, made: seq<string>,
                                           world: World, dial: Dialer)
    requires b.peerIdx < |peers| && |made| <= MAX_ATTEMPTS && b.leader !in dead
    requires DeadAreFailed(world, dead, made) && NeverRecalls(world, made)
    requires Attempt(peers, b, dead, made, world, dial).result.AllPeersUnreachable?
    ensures var calls := Attempt(peers, b, dead, made, world, dial).calls;
            exists failed: set<string> ::
              DeadAreFailed(world, failed, calls) && (AsSet(peers) <= failed <==> "" !in peers || "" in failed)
    decreases MAX_ATTEMPTS - |made|
  {
    if |made| < MAX_ATTEMPTS {
      AttemptUnfold(peers, b, dead, made, world, dial);
      var turn := TakeTurn(peers, b, dead, world(|made|, b.leader), |made|, dial);
      if turn.Stop? {
        var failed := dead + {b.leader};
        EmptyAnswerIff(peers, b.peerIdx, failed);
        DeadGrows(world, dead, made, b.leader);
      } else {
        TurnTracksDead(peers, b, dead, made, world, |made|, dial);
        AttemptTriesAll(peers, turn.bound, turn.dead, made + [b.leader], world, dial);
      }
    }
  }

  lemma DeadGrows(world: World, dead: set<string>, made: seq<string>, a: string)
    requires DeadAreFailed(world, dead, made) && world(|made|, a).TransportFailure?
    ensures DeadAreFailed(world, dead + {a}, made + [a])
  {
    var made' := made + [a];
    forall i | 0 <= i < |made| ensures Failed(world, made', i) <==> Failed(world, made, i) {
      assert made'[i] == made[i];
    }
    forall x ensures x in dead + {a} <==> exists i :: 0 <= i < |made'| && made'[i] == x && Failed(world, made', i) {
      if x in dead {
        var i :| 0 <= i < |made| && made[i] == x && Failed(world, made, i);
        assert made'[i] == x && Failed(world, made', i);
      }
      if x == a {
        assert made'[|made|] == x && Failed(world, made', |made|);
      }
    }
  }

  /** In this call p was invoked and the transport failed. */
  ghost predicate Tried(world: World, calls: seq<string>, p: string) {
    exists i :: 0 <= i < |calls| && calls[i] == p && Failed(world, calls, i)
  }

  /** When "all peers unreachable" is reported, there has been a transport failure at every peer in this
      call iff the list has no empty address, or the empty address was itself invoked and failed. */
  lemma AllTriedIffEmptyTried(peers: Members, b: Binding, world: World, dial: Dialer)
    requires b.peerIdx < |peers|
    requires Call(peers, b, world, dial).result.AllPeersUnreachable?
    ensures var calls := Call(peers, b, world, dial).calls;
            (forall p :: p in peers ==> Tried(world, calls, p)) <==> ("" !in peers || Tried(world, calls, ""))
  {
    AttemptTriesAll(peers, b, {}, [], world, dial);
    var calls := Call(peers, b, world, dial).calls;
    var failed :| DeadAreFailed(world, failed, calls) && (AsSet(peers) <= failed <==> "" !in peers || "" in failed);
    forall p ensures p in failed <==> Tried(world, calls, p) {
    }
    assert AsSet(peers) <= failed <==> forall p :: p in peers ==> Tried(world, calls, p);
  }

  /** A client that starts at another address never gets to the empty one. */
  lemma {:induction false} AttemptAvoidsEmpty(peers: Members, b: Binding, dead: set<string>, made: seq<string>,
                                              world: World, dial: Dialer)
    requires b.peerIdx < |peers| && |made| <= MAX_ATTEMPTS && b.leader != "" && "" !in made
    ensures "" !in Attempt(peers, b, dead, made, world, dial).calls
    decreases MAX_ATTEMPTS - |made|
  {
    if |made| < MAX_ATTEMPTS {
      AttemptUnfold(peers, b, dead, made, world, dial);
      var turn := TakeTurn(peers, b, dead, world(|made|, b.leader), |made|, dial);
      if turn.Again? {
        AttemptAvoidsEmpty(peers, turn.bound, turn.dead, made + [b.leader], world, dial);
      }
    }
  }

  lemma {:induction false} AttemptKeepsCalls(peers: Members, b: Binding, dead: set<string>, made: seq<string>,
                                             world: World, dial: Dialer)
    requires b.peerIdx < |peers| && |made| <= MAX_ATTEMPTS
    ensures made <= Attempt(peers, b, dead, made, world, dial).calls
    ensures |made| < MAX_ATTEMPTS ==> made + [b.leader] <= Attempt(peers, b, dead, made, world, dial).calls
    decreases MAX_ATTEMPTS - |made|
  {
    if |made| < MAX_ATTEMPTS {
      AttemptUnfold(peers, b, dead, made, world, dial);
      var turn := TakeTurn(peers, b, dead, world(|made|, b.leader), |made|, dial);
      if turn.Again? {
        AttemptKeepsCalls(peers, turn.bound, turn.dead, made + [b.leader], world, dial);
      }
    }
  }

  /** When nobody answers at the empty address: "all peers unreachable" means a transport failure at every
      peer in this call iff the list has no empty address, or the client started the call from it. */
  lemma UnreachableMeansAllTried(peers: Members, b: Binding, world: World, dial: Dialer)
    requires b.peerIdx < |peers| && forall n :: world(n, "").TransportFailure?
    requires Call(peers, b, world, dial).result.AllPeersUnreachable?
    ensures var calls := Call(peers, b, world, dial).calls;
            (forall p :: p in peers ==> Tried(world, calls, p)) <==> ("" !in peers || b.leader == "")
  {
    var calls := Call(peers, b, world, dial).calls;
    AllTriedIffEmptyTried(peers, b, world, dial);
    if b.leader == "" {
      AttemptKeepsCalls(peers, b, {}, [], world, dial);
      assert calls[0] == "" && Failed(world, calls, 0);
    } else {
      AttemptAvoidsEmpty(peers, b, {}, [], world, dial);
    }
  }

  /** The failing case: with "-servers a,,b" one failure at a is reported as "all peers unreachable",
      whatever b would have answered. */
  lemma EmptyPeerStopsTheSearch(world: World, dial: Dialer)
    requires world(0, "a").TransportFailure?
    ensures Call(["a", "", "b"], Binding("a", 0), world, dial) == Session(AllPeersUnreachable, Binding("a", 1), ["a"])
  {
    var peers: Members := ["a", "", "b"];
    ScanStopsAt(peers, 0, {"a"}, 1, 1);
    assert {} + {"a"} == {"a"};
    AttemptUnfold(peers, Binding("a", 0), {}, [], world, dial);
  }

  // ---- progress in a stable cluster -------------------------------------------------------

  /** Among the given addresses, from the invocation with the given number on, the ones in down never
      answer, leader answers, and the others redirect to leader. */
  ghost predicate Stable(world: World, from: nat, addresses: set<string>, down: set<string>, leader: string) {
    && leader != "" && leader in addresses && leader !in down
    && (forall n, a {:trigger world(n, a)} :: n >= from && a in addresses ==>
          match world(n, a)
          case TransportFailure => a in down
          case OtherError => false
          case Reply(redirectTo, _) => a !in down && redirectTo == (if a == leader then "" else leader))
  }

  /** A live address answers, or sends the client to the leader, which answers. */
  lemma LiveAddressAnswers(peers: Members, b: Binding, dead: set<string>, made: seq<string>, world: World, dial: Dialer,
                           from: nat, addresses: set<string>, down: set<string>, leader: string)
    requires b.peerIdx < |peers| && b.leader in addresses && b.leader !in down && dead <= down
    requires Stable(world, from, addresses, down, leader) && forall m, a :: dial(m, a)
    requires from <= |made| <= MAX_ATTEMPTS
    ensures var s := Attempt(peers, b, dead, made, world, dial);
            var cost := if b.leader == leader then 1 else 2;
            if |made| + cost <= MAX_ATTEMPTS
            then s.result.Success? && s.end.leader == leader && |s.calls| == |made| + cost
            else s.result == TooManyAttempts && |s.calls| == MAX_ATTEMPTS
  {
    if |made| < MAX_ATTEMPTS {
      AttemptUnfold(peers, b, dead, made, world, dial);
      assert world(|made|, b.leader).Reply?;
      if b.leader != leader && |made| + 1 < MAX_ATTEMPTS {
        AttemptUnfold(peers, b.(leader := leader), dead, made + [b.leader], world, dial);
        assert world(|made| + 1, leader).Reply?;
      }
    }
  }

  /** What the scans of a call step over: the unreachable addresses, but the empty one only if it has
      been found dead. */
  function SteppedOver(down: set<string>, dead: set<string>): set<string> {
    if "" in dead then down else down - {""}
  }

  /** The client is at a live address, or the first peer it cannot step over is not the empty one. */
  predicate ReachesLive(peers: Members, b: Binding, dead: set<string>, down: set<string>)
    requires b.peerIdx < |peers|
  {
    b.leader !in down ||
    match Scan(peers, b.peerIdx, SteppedOver(down, dead + {b.leader}), 1)
    case None => false
    case Some(j) => peers[j] != ""
  }

  lemma ScanGoesOn(peers: Members, i: nat, over: set<string>, m: nat, l: nat)
    requires i < |peers| && 1 <= m < l <= |peers| && peers[After(i, l, |peers|)] !in over
    requires forall x :: 1 <= x < l ==> peers[After(i, x, |peers|)] in over
    ensures Scan(peers, After(i, m, |peers|), over, 1) == Some(After(i, l, |peers|))
  {
    var n, next := |peers|, After(i, m, |peers|);
    forall x | 1 <= x < l - m ensures peers[After(next, x, n)] in over {
      assert After(next, x, n) == After(i, m + x, n);
    }
    assert After(next, l - m, n) == After(i, l, n);
    ScanStopsAt(peers, next, over, 1, l - m);
  }

  /** Where the walk round the ring goes on from does not matter to where it ends. */
  lemma WalkGoesOn(peers: Members, i: nat, dead: set<string>, over: set<string>, leader: string)
    requires i < |peers| && dead <= over && leader in peers && leader !in over
    ensures var next := Scan(peers, i, dead, 1);
            var last := Scan(peers, i, over, 1);
            && next.Some? && last.Some?
            && (peers[next.value] !in over ==> last == next)
            && (peers[next.value] in over ==> Scan(peers, next.value, over, 1) == last)
  {
    assert leader in AsSet(peers);
    NextAliveIsFirst(peers, i, dead);
    NextAliveIsFirst(peers, i, over);
    var n, next, last := |peers|, Scan(peers, i, dead, 1).value, Scan(peers, i, over, 1).value;
    var m :| 1 <= m <= n && next == After(i, m, n) && forall m' :: 1 <= m' < m ==> peers[After(i, m', n)] in dead;
    var l :| 1 <= l <= n && last == After(i, l, n) && forall m' :: 1 <= m' < l ==> peers[After(i, m', n)] in over;
    if peers[next] !in over {
      ScanStopsAt(peers, i, over, 1, m);
    } else {
      assert m < l;
      ScanGoesOn(peers, i, over, m, l);
    }
  }

  /** After a failure the call goes on from the peer the scan finds, or stops if that is empty. */
  lemma FailureMovesOn(peers: Members, b: Binding, dead: set<string>, made: seq<string>, world: World, dial: Dialer,
                       j: nat)
    requires b.peerIdx < |peers| && |made| < MAX_ATTEMPTS && Scan(peers, b.peerIdx, dead + {b.leader}, 1) == Some(j)
    requires world(|made|, b.leader).TransportFailure? && dial(|made|, peers[j])
    ensures Attempt(peers, b, dead, made, world, dial) ==
            if peers[j] == "" then Session(AllPeersUnreachable, b.(peerIdx := j), made + [b.leader])
            else Attempt(peers, Binding(peers[j], j), dead + {b.leader}, made + [b.leader], world, dial)
  {
    AttemptUnfold(peers, b, dead, made, world, dial);
  }

  /** One failure: the search ends at an empty address, or goes on from another address, still
      untried, with the same prospects. */
  lemma DeadAddressMovesOn(peers: Members, b: Binding, dead: set<string>, made: seq<string>, world: World, dial: Dialer,
                           down: set<string>, leader: string) returns (j: nat)
    requires b.peerIdx < |peers| && |made| < MAX_ATTEMPTS && dead <= down && b.leader in down
    requires leader in peers && leader !in down && leader != ""
    requires world(|made|, b.leader).TransportFailure? && forall m, a :: dial(m, a)
    ensures j < |peers| && peers[j] !in dead + {b.leader}
    ensures Attempt(peers, b, dead, made, world, dial) ==
            if peers[j] == "" then Session(AllPeersUnreachable, b.(peerIdx := j), made + [b.leader])
            else Attempt(peers, Binding(peers[j], j), dead + {b.leader}, made + [b.leader], world, dial)
    ensures ReachesLive(peers, b, dead, down) <==>
              peers[j] != "" && ReachesLive(peers, Binding(peers[j], j), dead + {b.leader}, down)
  {
    var dead' := dead + {b.leader};
    var over := SteppedOver(down, dead');
    WalkGoesOn(peers, b.peerIdx, dead', over, leader);
    j := Scan(peers, b.peerIdx, dead', 1).value;
    FailureMovesOn(peers, b, dead, made, world, dial, j);
    if peers[j] != "" {
      assert SteppedOver(down, dead' + {peers[j]}) == over;
    }
  }

  /** In a stable cluster the call succeeds iff it reaches a live address, within |down| + 2 invocations
      counting only the unreachable addresses not yet found, and otherwise stops at an empty address. */
  lemma {:induction false} AttemptAnswers(peers: Members, b: Binding, dead: set<string>, made: seq<string>,
                                          world: World, dial: Dialer, from: nat, addresses: set<string>,
                                          down: set<string>, leader: string)
    requires b.peerIdx < |peers| && b.leader in addresses && b.leader !in dead
    requires AsSet(peers) <= addresses && leader in peers
    requires Stable(world, from, addresses, down, leader) && forall m, a :: dial(m, a)
    requires dead <= down && from <= |made| && |made| + |down - dead| + 2 <= MAX_ATTEMPTS
    ensures var s := Attempt(peers, b, dead, made, world, dial);
            && |s.calls| <= |made| + |down - dead| + 2
            && (if ReachesLive(peers, b, dead, down) then s.result.Success? && s.end.leader == leader
                else s.result.AllPeersUnreachable?)
    decreases |down - dead|
  {
    var outcome := world(|made|, b.leader);
    if outcome.TransportFailure? {
      assert b.leader in down;
      var dead' := dead + {b.leader};
      var j := DeadAddressMovesOn(peers, b, dead, made, world, dial, down, leader);
      assert peers[j] in AsSet(peers);
      assert down - dead' == (down - dead) - {b.leader};
      if peers[j] != "" {
        AttemptAnswers(peers, Binding(peers[j], j), dead', made + [b.leader], world, dial, from, addresses, down,
                       leader);
      }
    } else {
      LiveAddressAnswers(peers, b, dead, made, world, dial, from, addresses, down, leader);
    }
  }

  function Times(a: string, k: nat): (s: seq<string>)
    ensures |s| == k
  {
    if k == 0 then [] else [a] + Times(a, k - 1)
  }

  /** Errors other than transport failures, such as "view change in progress", keep the client where it is. */
  lemma {:induction false} AttemptWaits(peers: Members, b: Binding, dead: set<string>, made: seq<string>, world: World,
                                        dial: Dialer, k: nat)
    requires b.peerIdx < |peers| && |made| + k <= MAX_ATTEMPTS
    requires forall n :: |made| <= n < |made| + k ==> world(n, b.leader).OtherError?
    ensures Attempt(peers, b, dead, made, world, dial) ==
            Attempt(peers, b, dead, made + Times(b.leader, k), world, dial)
    decreases k
  {
    if k == 0 {
      assert made + Times(b.leader, k) == made;
    } else {
      AttemptUnfold(peers, b, dead, made, world, dial);
      AttemptWaits(peers, b, dead, made + [b.leader], world, dial, k - 1);
      assert made + [b.leader] + Times(b.leader, k - 1) == made + Times(b.leader, k);
    }
  }

  /** The client waits for an answer at one address through fewer than 15 such errors. */
  lemma RetriesUntilAnswered(peers: Members, b: Binding, world: World, dial: Dialer, k: nat, value: int)
    requires b.peerIdx < |peers| && k < 15
    requires forall n :: 0 <= n < k ==> world(n, b.leader).OtherError?
    requires world(k, b.leader) == Reply("", value)
    ensures Call(peers, b, world, dial) == Session(Success(value), b, Times(b.leader, k) + [b.leader])
  {
    AttemptWaits(peers, b, {}, [], world, dial, k);
    assert [] + Times(b.leader, k) == Times(b.leader, k);
    AttemptUnfold(peers, b, {}, Times(b.leader, k), world, dial);
  }

  /** In a cluster that answers every invocation with such an error at first and is then stable, with D
      unreachable addresses and a live leader among the peers, a call makes at most D + 2 invocations
      more, provided that all together are at most 15. It succeeds iff the client is at a live
      address or the first peer it cannot step over is not the empty one; otherwise it reports that
      all peers are unreachable. Without an empty peer, or from one, it always succeeds. */
  lemma StableClusterAnswers(peers: Members, b: Binding, world: World, dial: Dialer, from: nat,
                             addresses: set<string>, down: set<string>, leader: string)
    requires b.peerIdx < |peers| && b.leader in addresses
    requires AsSet(peers) <= addresses && leader in peers
    requires forall n :: 0 <= n < from ==> world(n, b.leader).OtherError?
    requires Stable(world, from, addresses, down, leader) && forall m, a :: dial(m, a)
    requires from + |down| + 2 <= MAX_ATTEMPTS
    ensures var s := Call(peers, b, world, dial);
            && |s.calls| <= from + |down| + 2
            && (if ReachesLive(peers, b, {}, down) then s.result.Success? && s.end.leader == leader
                else s.result.AllPeersUnreachable?)
            && ("" !in peers || b.leader == "" ==> ReachesLive(peers, b, {}, down))
  {
    assert down - {} == down;
    AttemptWaits(peers, b, {}, [], world, dial, from);
    assert [] + Times(b.leader, from) == Times(b.leader, from);
    AttemptAnswers(peers, b, {}, Times(b.leader, from), world, dial, from, addresses, down, leader);
    if "" !in peers || b.leader == "" {
      NoEmptyStop(peers, b, down, leader);
    }
  }

  lemma NoEmptyStop(peers: Members, b: Binding, down: set<string>, leader: string)
    requires b.peerIdx < |peers| && leader in peers && leader !in down && ("" !in peers || b.leader == "")
    ensures ReachesLive(peers, b, {}, down)
  {
    if b.leader in down {
      var over := SteppedOver(down, {} + {b.leader});
      NextAliveIsFirst(peers, b.peerIdx, over);
      assert leader in AsSet(peers) && leader !in over;
      assert peers[Scan(peers, b.peerIdx, over, 1).value] in peers;
    }
  }
}
