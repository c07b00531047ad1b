/** The client against a cluster that has settled: exactly how many invocations it needs, and that
    the answer it ends with is the leader's. */
module ClientProgress {
  import opened Messages
  import opened Membership
  import opened Replicas
  import opened Client

  // ---- the exact count --------------------------------------------------------------------

  /** How many different addresses the first k peers are. */
  function Different(peers: Members, k: nat): nat
    requires k <= |peers|
  {
    |AsSet(peers[..k])|
  }

  lemma PrefixGrows(peers: Members, k: nat)
    requires k < |peers|
    ensures AsSet(peers[..k]) + {peers[k]} == AsSet(peers[..k + 1])
    ensures peers[k] !in AsSet(peers[..k]) ==> Different(peers, k + 1) == Different(peers, k) + 1
  {
    assert peers[..k + 1] == peers[..k] + [peers[k]];
  }

  lemma DifferentGrows(peers: Members, i: nat, j: nat)
    requires i <= j <= |peers|
    ensures Different(peers, i) <= Different(peers, j)
  {
    assert peers[..j][..i] == peers[..i];
    SubsetSize(AsSet(peers[..i]), AsSet(peers[..j]));
  }

  lemma InPrefix(peers: Members, k: nat, i: nat)
    requires i < k <= |peers|
    ensures peers[i] in AsSet(peers[..k])
  {
    assert peers[..k][i] == peers[i];
  }

  /** The next peer that is none of the first k + 1. */
  lemma {:induction false} NextFresh(peers: Members, k: nat, from: nat, d: nat) returns (i: nat)
    requires k < from <= d < |peers| && AsSet(peers[..from]) == AsSet(peers[..k + 1])
    requires peers[d] !in AsSet(peers[..k + 1])
    ensures from <= i <= d && AsSet(peers[..i]) == AsSet(peers[..k + 1]) && peers[i] !in AsSet(peers[..k + 1])
    ensures forall x :: from <= x < i ==> peers[x] in AsSet(peers[..k + 1])
    decreases d - from
  {
    if peers[from] !in AsSet(peers[..k + 1]) {
      i := from;
    } else {
      PrefixGrows(peers, from);
      i := NextFresh(peers, k, from + 1, d);
    }
  }

  lemma ScanTo(peers: Members, k: nat, i: nat)
    requires k < i < |peers| && peers[i] !in AsSet(peers[..k + 1])
    requires forall x :: k < x < i ==> peers[x] in AsSet(peers[..k + 1])
    ensures Scan(peers, k, AsSet(peers[..k + 1]), 1) == Some(i)
  {
    var n, dead := |peers|, AsSet(peers[..k + 1]);
    forall m | 1 <= m < i - k ensures peers[After(k, m, n)] in dead {
      assert After(k, m, n) == k + m;
    }
    assert After(k, i - k, n) == i;
    ScanStopsAt(peers, k, dead, 1, i - k);
  }

  lemma DownAddressFails(world: World, addresses: set<string>, down: set<string>, leader: string, n: nat, a: string)
    requires Stable(world, 0, addresses, down, leader) && a in addresses && a in down
    ensures world(n, a).TransportFailure?
  {
    assert !world(n, a).Reply?;
  }

  /** The search ends at an empty address, unless it started at one. */
  predicate Blocked(peers: Members, stop: nat)
    requires stop < |peers|
  {
    stop > 0 && peers[0] != "" && peers[stop] == ""
  }

  /** The first d peers are down and peers[d] is not; stop is the first address up to there at which the
      search ends, or d if there is none. */
  predicate Walk(peers: Members, d: nat, stop: nat, addresses: set<string>, down: set<string>) {
    && AsSet(peers) <= addresses
    && stop <= d < |peers| && peers[d] !in down && (forall i :: 0 <= i < d ==> peers[i] in down)
    && (peers[0] != "" ==> forall i :: 0 < i < stop ==> peers[i] != "")
    && (stop == d || Blocked(peers, stop))
  }

  /** The walk has come to peers[k], which it has not tried before. */
  predicate At(peers: Members, k: nat, stop: nat) {
    k <= stop < |peers| && peers[k] !in AsSet(peers[..k]) && (k > 0 ==> peers[k] != "")
  }

  /** Where the walk goes from peers[k]: to the next different address i, or no further than there. */
  lemma WalkStep(peers: Members, k: nat, i: nat, d: nat, stop: nat, addresses: set<string>, down: set<string>)
    requires Walk(peers, d, stop, addresses, down) && At(peers, k, stop) && k < i <= d
    requires peers[i] !in AsSet(peers[..k + 1]) && forall x :: k < x < i ==> peers[x] in AsSet(peers[..k + 1])
    ensures k < stop && i <= stop
    ensures peers[i] == "" ==> stop == i && Blocked(peers, stop)
  {
    InPrefix(peers, k + 1, 0);
  }

  lemma {:induction false} AttemptsFrom(peers: Members, k: nat, d: nat, stop: nat, made: seq<string>,
                                        world: World, dial: Dialer,
                                        addresses: set<string>, down: set<string>, leader: string)
    requires Walk(peers, d, stop, addresses, down) && At(peers, k, stop)
    requires Stable(world, 0, addresses, down, leader) && forall n, a :: dial(n, a)
    requires |made| == Different(peers, k) <= MAX_ATTEMPTS
    ensures var s := Attempt(peers, Binding(peers[k], k), AsSet(peers[..k]), made, world, dial);
            Costs(peers, d, stop, leader, s)
    decreases d - k
  {
    if k == d {
      WalkArrives(peers, d, stop, made, world, dial, addresses, down, leader);
    } else if |made| == MAX_ATTEMPTS {
      PrefixGrows(peers, k);
      InPrefix(peers, k + 1, 0);
      assert Blocked(peers, stop) ==> k < stop;
      DifferentGrows(peers, k + 1, d);
      if Blocked(peers, stop) {
        DifferentGrows(peers, k + 1, stop);
      }
    } else {
      FreshAhead(peers, k, d, down);
      var i := NextFresh(peers, k, k + 1, d);
      WalkStep(peers, k, i, d, stop, addresses, down);
      WalkMovesOn(peers, k, i, d, stop, made, world, dial, addresses, down, leader);
      PrefixGrows(peers, k);
      if peers[i] != "" {
        AttemptsFrom(peers, i, d, stop, made + [peers[k]], world, dial, addresses, down, leader);
      }
    }
  }

  /** What a walk that ends at stop costs, and how it ends. */
  predicate Costs(peers: Members, d: nat, stop: nat, leader: string, s: Session)
    requires stop <= d < |peers|
  {
    var cost := if Blocked(peers, stop) then Different(peers, stop)
                else Different(peers, d) + (if peers[d] == leader then 1 else 2);
    && (s.result.Success? <==> !Blocked(peers, stop) && cost <= MAX_ATTEMPTS)
    && (s.result.AllPeersUnreachable? <==> Blocked(peers, stop) && cost <= MAX_ATTEMPTS)
    && |s.calls| == if cost <= MAX_ATTEMPTS then cost else MAX_ATTEMPTS
  }

  /** The first live peer is not among the dead ones in front of it. */
  lemma FreshAhead(peers: Members, k: nat, d: nat, down: set<string>)
    requires k < d < |peers| && peers[d] !in down && forall i :: 0 <= i < d ==> peers[i] in down
    ensures peers[d] !in AsSet(peers[..k + 1])
  {
  }

  lemma WalkMovesOn(peers: Members, k: nat, i: nat, d: nat, stop: nat, made: seq<string>, world: World, dial: Dialer,
                    addresses: set<string>, down: set<string>, leader: string)
    requires Walk(peers, d, stop, addresses, down) && k < i <= d && |made| < MAX_ATTEMPTS
    requires Stable(world, 0, addresses, down, leader) && forall n, a :: dial(n, a)
    requires peers[i] !in AsSet(peers[..k + 1]) && forall x :: k < x < i ==> peers[x] in AsSet(peers[..k + 1])
    ensures Attempt(peers, Binding(peers[k], k), AsSet(peers[..k]), made, world, dial) ==
            if peers[i] == "" then Session(AllPeersUnreachable, Binding(peers[k], i), made + [peers[k]])
            else Attempt(peers, Binding(peers[i], i), AsSet(peers[..k + 1]), made + [peers[k]], world, dial)
  {
    assert peers[k] in AsSet(peers);
    DownAddressFails(world, addresses, down, leader, |made|, peers[k]);
    PrefixGrows(peers, k);
    ScanTo(peers, k, i);
    FailureMovesOn(peers, Binding(peers[k], k), AsSet(peers[..k]), made, world, dial, i);
  }

  lemma WalkArrives(peers: Members, d: nat, stop: nat, made: seq<string>, world: World, dial: Dialer,
                    addresses: set<string>, down: set<string>, leader: string)
    requires Walk(peers, d, stop, addresses, down) && At(peers, d, stop)
    requires Stable(world, 0, addresses, down, leader) && forall n, a :: dial(n, a)
    requires |made| == Different(peers, d) <= MAX_ATTEMPTS
    ensures Costs(peers, d, stop, leader, Attempt(peers, Binding(peers[d], d), AsSet(peers[..d]), made, world, dial))
  {
    assert peers[d] in AsSet(peers);
    LiveAddressAnswers(peers, Binding(peers[d], d), AsSet(peers[..d]), made, world, dial, 0, addresses, down, leader);
  }

  /** A client that has just been created, with the first live one of its peers behind D different
      unreachable addresses: it needs D + 1 invocations if that one is the leader and D + 2 otherwise, and
      gives up exactly when that exceeds 15, even though the leader is alive. An empty address on the
      way, unless the client starts at it, ends the search after the addresses in front of it. */
  lemma FreshClientCost(peers: Members, d: nat, stop: nat, world: World, dial: Dialer,
                        addresses: set<string>, down: set<string>, leader: string)
    requires Walk(peers, d, stop, addresses, down)
    requires Stable(world, 0, addresses, down, leader) && forall n, a :: dial(n, a)
    ensures Costs(peers, d, stop, leader, Call(peers, Binding(peers[0], 0), world, dial))
  {
    assert peers[..0] == [] && AsSet(peers[..0]) == {};
    AttemptsFrom(peers, 0, d, stop, [], world, dial, addresses, down, leader);
  }

  // ---- the servers behind the world -------------------------------------------------------

  /** What invoking IncrCounter at an address yields: a crashed server refuses the connection, and so
      does an address without one, a redirect carries the address in the reply, and status errors are
      not transport failures. */
  function Invoke(replicas: map<string, Replica>, down: set<string>, req: IncrRequest, address: string): Outcome {
    if address in down || address !in replicas then TransportFailure
    else
      match HandleIncr(replicas[address], req).outcome
      case Answered(resp) => Reply(resp.redirectTo, resp.newValue)
      case InvalidArgument => OtherError
      case Unavailable => OtherError
  }

  /** All live servers agree on a live leader that is serving. */
  predicate Settled(replicas: map<string, Replica>, down: set<string>, leader: string) {
    && leader != "" && leader in replicas && leader !in down && replicas[leader].Serving()
    && (forall a :: a in replicas ==> replicas[a].self == a && (a !in down ==> replicas[a].view.leader == leader))
    && (forall k :: k in replicas[leader].store.cache ==> replicas[leader].store.cache[k].redirectTo == "")
  }

  /** The addresses a client knows, and those of them that nobody answers at. */
  function Known(peers: Members, b: Binding): set<string> {
    AsSet(peers) + {b.leader}
  }

  function Unreachable(peers: Members, b: Binding, replicas: map<string, Replica>, down: set<string>): set<string> {
    set a | a in Known(peers, b) && (a in down || a !in replicas)
  }

  lemma SettledClusterIsStable(peers: Members, b: Binding, replicas: map<string, Replica>, down: set<string>,
                               leader: string, req: IncrRequest)
    requires Settled(replicas, down, leader) && req.counterId != "" && leader in peers
    ensures Stable((n: nat, a) => Invoke(replicas, down, req, a), 0, Known(peers, b),
                   Unreachable(peers, b, replicas, down), leader)
  {
    assert leader in AsSet(peers);
  }

  /** End to end: with the servers' own handlers behind the connections, the client's call makes at most
      two invocations more than it knows unreachable addresses. It returns the value the leader's
      handler gives iff it reaches a live address, and else reports that all peers are unreachable. */
  lemma SettledClusterAnswers(peers: Members, b: Binding, replicas: map<string, Replica>, down: set<string>,
                              leader: string, req: IncrRequest, dial: Dialer)
    requires Settled(replicas, down, leader) && req.counterId != ""
    requires b.peerIdx < |peers| && leader in peers && (forall m, a :: dial(m, a))
    requires |Unreachable(peers, b, replicas, down)| + 2 <= MAX_ATTEMPTS
    ensures var s := Call(peers, b, (n: nat, a) => Invoke(replicas, down, req, a), dial);
            && |s.calls| <= |Unreachable(peers, b, replicas, down)| + 2
            && (if ReachesLive(peers, b, {}, Unreachable(peers, b, replicas, down))
                then && s.result.Success? && s.end.leader == leader
                     && HandleIncr(replicas[leader], req).outcome == Answered(IncrResponse(s.result.value, ""))
                else s.result.AllPeersUnreachable?)
            && ("" !in peers || b.leader == "" ==> s.result.Success?)
  {
    SettledClusterIsStable(peers, b, replicas, down, leader, req);
    var world := (n: nat, a) => Invoke(replicas, down, req, a);
    StableClusterAnswers(peers, b, world, dial, 0, Known(peers, b), Unreachable(peers, b, replicas, down), leader);
    var s := Call(peers, b, world, dial);
    if s.result.Success? {
      CallNeverRecalls(peers, b, world, dial);
      assert Invoke(replicas, down, req, leader) == Reply("", s.result.value);
    }
  }

  /** A request without a counter is refused at once by any live server, but not as a transport failure:
      the client asks the same server 15 times and then reports that it has run out of attempts. */
  lemma EmptyCounterIsRetried(peers: Members, b: Binding, replicas: map<string, Replica>, down: set<string>,
                              req: IncrRequest, dial: Dialer)
    requires b.peerIdx < |peers| && req.counterId == "" && b.leader in replicas && b.leader !in down
    ensures Call(peers, b, (n: nat, a) => Invoke(replicas, down, req, a), dial) ==
            Session(TooManyAttempts, b, Times(b.leader, 15))
  {
    var world: World := (n: nat, a) => Invoke(replicas, down, req, a);
    forall n: nat ensures world(n, b.leader).OtherError? {
    }
    var k := MAX_ATTEMPTS;
    AttemptWaits(peers, b, {}, [], world, dial, k);
    assert [] + Times(b.leader, k) == Times(b.leader, k);
  }
}
