/** The server object of internal/server, its fields updated in place. Each handler is proved to
    take the atomic step that Replicas.dfy gives it, and to leave every other field alone. */
module Server {
  import opened Messages
  import opened CacheKeys
  import opened Membership
  import opened Replicas

  datatype Envelope<+T> = Envelope(to: string, body: T)

  /** The peers that have a connection, in the order the send loops visit them. */
  function Addressed<T>(peers: seq<string>, conns: set<string>, body: T): seq<Envelope<T>> {
    if peers == [] then []
    else
      var n := |peers| - 1;
      Addressed(peers[..n], conns, body) +
      (if peers[n] in conns then [Envelope(peers[n], body)] else [])
  }

  lemma {:induction false} AddressedComesFrom<T>(peers: seq<string>, conns: set<string>, body: T, i: nat)
    returns (k: nat)
    requires i < |Addressed(peers, conns, body)|
    ensures k < |peers| && peers[k] in conns && Addressed(peers, conns, body)[i] == Envelope(peers[k], body)
  {
    var n := |peers| - 1;
    if i < |Addressed(peers[..n], conns, body)| {
      k := AddressedComesFrom(peers[..n], conns, body, i);
    } else {
      k := n;
    }
  }

  /** The envelopes come in the order of the peers. */
  lemma {:induction false} AddressedInOrder<T>(peers: seq<string>, conns: set<string>, body: T, i: nat, j: nat)
    returns (k: nat, l: nat)
    requires i < j < |Addressed(peers, conns, body)|
    ensures k < l < |peers|
    ensures Addressed(peers, conns, body)[i] == Envelope(peers[k], body)
    ensures Addressed(peers, conns, body)[j] == Envelope(peers[l], body)
  {
    var n := |peers| - 1;
    if j < |Addressed(peers[..n], conns, body)| {
      k, l := AddressedInOrder(peers[..n], conns, body, i, j);
    } else {
      k := AddressedComesFrom(peers[..n], conns, body, i);
      l := n;
    }
  }

  /** Every connected peer gets the message as often as it is listed, and nobody else gets anything. */
  lemma {:induction false} AddressedCounts<T>(peers: seq<string>, conns: set<string>, body: T, e: Envelope<T>)
    ensures multiset(Addressed(peers, conns, body))[e] ==
            if e.body == body && e.to in conns then multiset(peers)[e.to] else 0
  {
    if peers != [] {
      var n := |peers| - 1;
      AddressedCounts(peers[..n], conns, body, e);
      assert peers == peers[..n] + [peers[n]];
    }
  }

  /** One more key at the end of the listing. */
  lemma ListNext(cache: map<string, IncrResponse>, order: seq<string>, key: string)
    requires key in cache && forall k :: k in order ==> k in cache
    ensures EntriesOf(order + [key], cache) ==
            EntriesOf(order, cache) +
            (match ParseKey(key)
             case None => []
             case Some(k) => [CacheEntry(k.clientId, k.requestId, Some(cache[key]))])
  {
    assert (order + [key])[..|order|] == order;
  }

  class ReplyCache {
    var cache: map<string, IncrResponse>

    constructor ()
      ensures cache == map[]
    {
      cache := map[];
    }

    method Get(clientId: string, requestId: int64) returns (resp: Option<IncrResponse>)
      ensures resp.Some? <==> CacheKey(clientId, requestId) in cache
      ensures resp.Some? ==> resp.value == cache[CacheKey(clientId, requestId)]
    {
      var key := CacheKey(clientId, requestId);
      if key in cache {
        resp := Some(cache[key]);
      } else {
        resp := None;
      }
    }

    method Set(clientId: string, requestId: int64, resp: IncrResponse)
      modifies this
      ensures cache == old(cache)[CacheKey(clientId, requestId) := resp]
    {
      cache := cache[CacheKey(clientId, requestId) := resp];
    }
  }

  class Server {
    const self: string
    const peers: seq<string>
    const allServers: Members
    const conns: set<string>
    const dedupEnabled: bool
    const cache: ReplyCache

    var counters: map<string, int>
    var leaderAddr: string
    var viewNumber: nat
    var viewVotes: map<int, set<string>>
    var inViewChange: bool

    function State(): Replica
      reads this, cache
    {
      Replica(self, allServers, dedupEnabled,
              Store(counters, cache.cache),
              ViewState(viewNumber, leaderAddr, inViewChange, viewVotes))
    }

    /** New. dialable is the set of peers to which a connection could be made. */
    constructor (self: string, peers: seq<string>, dedupEnabled: bool, dialable: set<string>)
      ensures State() == FreshReplica(self, ServerList(self, peers), dedupEnabled)
      ensures this.peers == peers && conns == AsSet(peers) * dialable
      ensures fresh(cache)
    {
      var all := ServerList(self, peers);
      var made: set<string> := {};
      for i := 0 to |peers|
        invariant made == AsSet(peers[..i]) * dialable
      {
        assert peers[..i + 1] == peers[..i] + [peers[i]];
        if peers[i] in dialable {
          made := made + {peers[i]};
        }
      }
      assert peers[..|peers|] == peers;
      this.self := self;
      this.peers := peers;
      this.allServers := all;
      this.conns := made;
      this.dedupEnabled := dedupEnabled;
      this.cache := new ReplyCache();
      counters := map[];
      leaderAddr := all[0];
      viewNumber := 0;
      viewVotes := map[];
      inViewChange := false;
    }

    // ---- view change ----------------------------------------------------------------------

    /** What other goroutines may do between two atomic accesses: anything to the view fields,
        except lowering viewNumber. With alone set there are no other goroutines. */
    method OtherGoroutines(alone: bool)
      modifies this`viewNumber, this`leaderAddr, this`viewVotes, this`inViewChange
      ensures viewNumber >= old(viewNumber)
      ensures alone ==> State() == old(State())
    {
      if !alone {
        var raise: nat :| true;
        viewNumber := viewNumber + raise;
        leaderAddr := *;
        viewVotes := *;
        inViewChange := *;
      }
    }

    /** commitView, with its compare-and-swap loop. The loop ends because every failed swap means
        that another goroutine raised viewNumber, which shrinks newView - viewNumber; so at most
        newView - viewNumber swaps fail. The view is never lowered and ends at newView or above. */
    method CommitView(newView: nat, alone: bool) returns (ghost failedSwaps: nat)
      modifies this`viewNumber, this`leaderAddr, this`viewVotes, this`inViewChange
      ensures viewNumber >= old(viewNumber)
      ensures viewNumber >= newView
      ensures failedSwaps <= if newView > old(viewNumber) then newView - old(viewNumber) else 0
      ensures alone ==> State() == old(State()).(view := Commit(old(State()).view, allServers, newView))
      ensures alone && newView < old(viewNumber) ==> State() == old(State())
      ensures alone && newView >= old(viewNumber) ==>
                && viewNumber == newView && leaderAddr == allServers[newView % |allServers|] && !inViewChange
                && viewVotes == old(viewVotes)
    {
      failedSwaps := 0;
      while true
        invariant viewNumber >= old(viewNumber)
        invariant alone ==> failedSwaps == 0 && State() == old(State())
        invariant failedSwaps > 0 ==> failedSwaps <= newView - old(viewNumber)
        invariant failedSwaps <= viewNumber - old(viewNumber)
        decreases newView - viewNumber
      {
        var current := viewNumber;
        if newView < current {
          return;
        }
        OtherGoroutines(alone);
        if newView == current {
          break;
        }
        if viewNumber == current {
          viewNumber := newView;
          break;
        }
        failedSwaps := failedSwaps + 1;
      }
      OtherGoroutines(alone);
      leaderAddr := LeaderOf(allServers, newView);
      OtherGoroutines(alone);
      inViewChange := false;
    }

    /** One message for each peer that has a connection, in the order of the peers. */
    method SendToAll<T>(body: T) returns (sent: seq<Envelope<T>>)
      ensures sent == Addressed(peers, conns, body)
    {
      sent := [];
      for i := 0 to |peers|
        invariant sent == Addressed(peers[..i], conns, body)
      {
        assert peers[..i + 1][..i] == peers[..i];
        if peers[i] in conns {
          sent := sent + [Envelope(peers[i], body)];
        }
      }
      assert peers[..|peers|] == peers;
    }

    /** Seeds the server's own vote, so that it counts when the peers' votes arrive. */
    method CastOwnVote(view: int) returns (votes: nat)
      modifies this`viewVotes
      ensures viewVotes == old(viewVotes)[view := VotesFor(old(State()).view, view) + {self}]
      ensures votes == |viewVotes[view]|
    {
      if view !in viewVotes {
        viewVotes := viewVotes[view := {}];
      }
      viewVotes := viewVotes[view := viewVotes[view] + {self}];
      votes := |viewVotes[view]|;
    }

    method InitiateViewChange() returns (sent: seq<Envelope<ViewChangeMsg>>)
      modifies this`viewNumber, this`leaderAddr, this`viewVotes, this`inViewChange
      ensures State() == HandleInitiate(old(State())).next
      ensures sent == match HandleInitiate(old(State())).broadcast
                      case None => []
                      case Some(msg) => Addressed(peers, conns, msg)
      ensures viewNumber == old(viewNumber) + 1 && leaderAddr == allServers[viewNumber % |allServers|]
      ensures inViewChange <==> |viewVotes[viewNumber]| < Majority(|allServers|)
      ensures sent == if inViewChange then Addressed(peers, conns, ViewChangeMsg(viewNumber, self)) else []
    {
      var newView := viewNumber + 1;
      viewNumber := newView;
      inViewChange := true;
      leaderAddr := LeaderOf(allServers, newView);
      var votes := CastOwnVote(newView);
      if votes >= Majority(|allServers|) {
        ghost var _ := CommitView(newView, true);
        sent := [];
      } else {
        sent := SendToAll(ViewChangeMsg(newView, self));
      }
    }

    method ViewChange(msg: ViewChangeMsg) returns (ack: ViewChangeAck)
      modifies this`viewNumber, this`leaderAddr, this`viewVotes, this`inViewChange
      ensures State() == HandleViewChange(old(State()), msg).next
      ensures ack == HandleViewChange(old(State()), msg).ack
      ensures ack == if msg.view >= old(viewNumber) then ViewChangeAck(true, msg.view)
                     else ViewChangeAck(false, old(viewNumber))
      ensures msg.view < old(viewNumber) ==> State() == old(State())
      ensures inViewChange ==> old(inViewChange) || msg.view > old(viewNumber)
      ensures viewNumber != old(viewNumber) ==>
                && viewNumber == msg.view && leaderAddr == allServers[viewNumber % |allServers|] && !inViewChange
                && |viewVotes[viewNumber]| == Majority(|allServers|)
    {
      var currentView := viewNumber;
      if msg.view < currentView {
        return ViewChangeAck(false, currentView);
      }
      if msg.view > currentView {
        inViewChange := true;
      }
      if msg.view !in viewVotes {
        viewVotes := viewVotes[msg.view := {self}];
      }
      viewVotes := viewVotes[msg.view := viewVotes[msg.view] + {msg.sender}];
      var votes := |viewVotes[msg.view]|;
      if votes == Majority(|allServers|) {
        ghost var _ := CommitView(msg.view, true);
      }
      ack := ViewChangeAck(true, msg.view);
    }

    // ---- client requests and replication --------------------------------------------------

    method IncrCounter(req: IncrRequest) returns (outcome: IncrOutcome, sent: seq<Envelope<ReplicateMsg>>)
      modifies this`counters, cache
      ensures State() == HandleIncr(old(State()), req).next
      ensures outcome == HandleIncr(old(State()), req).outcome
      ensures outcome == InvalidArgument <==> req.counterId == ""
      ensures outcome == Unavailable <==> req.counterId != "" && leaderAddr == self && inViewChange
      ensures req.counterId != "" && leaderAddr != self ==> outcome == Answered(IncrResponse(0, leaderAddr))
      ensures sent == match HandleIncr(old(State()), req).emitted
                      case None => []
                      case Some(msg) => Addressed(peers, conns, msg)
      ensures CacheHit(old(State()), req) && old(State()).Serving() && req.counterId != "" ==>
                outcome == Answered(old(cache.cache)[RequestKey(req)])
      ensures if old(State()).Serving() && req.counterId != "" && !CacheHit(old(State()), req)
              then && counters == old(counters)[req.counterId := Lookup(old(counters), req.counterId) + 1]
                   && outcome == Answered(IncrResponse(counters[req.counterId], ""))
                   && (if dedupEnabled && req.clientId != ""
                       then && cache.cache == old(cache.cache)[RequestKey(req) := outcome.resp]
                            && sent == Addressed(peers, conns, ReplicateMsg(req.counterId, counters[req.counterId],
                                                                            req.clientId, req.requestId,
                                                                            Some(outcome.resp)))
                       else && cache.cache == old(cache.cache)
                            && sent == Addressed(peers, conns, ReplicateMsg(req.counterId, counters[req.counterId],
                                                                            "", 0, None)))
              else State() == old(State()) && sent == []
    {
      sent := [];
      if req.counterId == "" {
        return InvalidArgument, [];
      }
      if leaderAddr != self {
        return Answered(IncrResponse(0, leaderAddr)), [];
      }
      if inViewChange {
        return Unavailable, [];
      }
      var useDedup := dedupEnabled && req.clientId != "";
      if useDedup {
        var cached := cache.Get(req.clientId, req.requestId);
        if cached.Some? {
          return Answered(cached.value), [];
        }
      }
      counters := counters[req.counterId := Lookup(counters, req.counterId) + 1];
      var val := counters[req.counterId];
      var resp := IncrResponse(val, "");
      var msg := ReplicateMsg(req.counterId, val, "", 0, None);
      if useDedup {
        cache.Set(req.clientId, req.requestId, resp);
        msg := msg.(clientId := req.clientId, requestId := req.requestId, cachedResponse := Some(resp));
      }
      sent := SendToAll(msg);
      outcome := Answered(resp);
    }

    /** GetCounter: the same gates as IncrCounter, then the current value, 0 for a new counter. */
    method GetCounter(counterId: string) returns (outcome: IncrOutcome)
      ensures outcome.InvalidArgument? <==> counterId == ""
      ensures outcome.Unavailable? <==> counterId != "" && State().view.leader == self && State().view.changing
      ensures counterId != "" && leaderAddr != self ==> outcome == Answered(IncrResponse(0, leaderAddr))
      ensures counterId != "" && State().Serving() ==>
                outcome == Answered(IncrResponse(Lookup(State().store.counters, counterId), ""))
    {
      if counterId == "" {
        return InvalidArgument;
      }
      if leaderAddr != self {
        return Answered(IncrResponse(0, leaderAddr));
      }
      if inViewChange {
        return Unavailable;
      }
      outcome := Answered(IncrResponse(Lookup(counters, counterId), ""));
    }

    method Replicate(msg: ReplicateMsg)
      modifies this`counters, cache
      ensures State() == HandleReplicate(old(State()), msg)
      ensures counters == old(counters)[msg.counterId := msg.newValue]
      ensures cache.cache == if dedupEnabled && msg.clientId != "" && msg.cachedResponse.Some?
                             then old(cache.cache)[MessageKey(msg) := msg.cachedResponse.value] else old(cache.cache)
    {
      counters := counters[msg.counterId := msg.newValue];
      if dedupEnabled && msg.clientId != "" && msg.cachedResponse.Some? {
        cache.Set(msg.clientId, msg.requestId, msg.cachedResponse.value);
      }
    }

    // ---- state transfer -------------------------------------------------------------------

    method CopyCounters() returns (copied: map<string, int>)
      ensures copied == counters
    {
      copied := map[];
      var names := counters.Keys;
      while names != {}
        invariant names <= counters.Keys
        invariant copied.Keys == counters.Keys - names
        invariant forall k :: k in copied ==> copied[k] == counters[k]
      {
        var k :| k in names;
        copied := copied[k := counters[k]];
        names := names - {k};
      }
    }

    /** The entry for one key, unless it does not parse. */
    method EntryFor(key: string) returns (entries: seq<CacheEntry>)
      requires key in cache.cache
      ensures entries == match ParseKey(key)
                         case None => []
                         case Some(k) => [CacheEntry(k.clientId, k.requestId, Some(cache.cache[key]))]
    {
      var idx := LastIndex(key, ':');
      if idx < 0 {
        return [];
      }
      var requestId := ParseInt(key[idx + 1..]);
      if requestId.None? {
        return [];
      }
      entries := [CacheEntry(key[..idx], requestId.value, Some(cache.cache[key]))];
    }

    /** The cache map is iterated in some order, each key once; keys that do not parse are skipped. */
    method ListEntries() returns (entries: seq<CacheEntry>, ghost order: seq<string>)
      ensures NoDuplicates(order) && AsSet(order) == cache.cache.Keys
      ensures entries == EntriesOf(order, cache.cache)
    {
      entries := [];
      order := [];
      var keys := cache.cache.Keys;
      while keys != {}
        invariant keys <= cache.cache.Keys
        invariant NoDuplicates(order)
        invariant forall k :: k in order <==> k in cache.cache && k !in keys
        invariant entries == EntriesOf(order, cache.cache)
      {
        var key :| key in keys;
        var entry := EntryFor(key);
        ListNext(cache.cache, order, key);
        order := order + [key];
        entries := entries + entry;
        keys := keys - {key};
      }
      assert AsSet(order) == cache.cache.Keys;
    }

    method TransferState() returns (resp: TransferResp, ghost order: seq<string>)
      ensures NoDuplicates(order) && AsSet(order) == State().store.cache.Keys
      ensures resp == Snapshot(State(), order)
      ensures resp.counters == counters && resp.view == viewNumber
    {
      var copied := CopyCounters();
      var entries;
      entries, order := ListEntries();
      resp := TransferResp(copied, entries, viewNumber);
    }

    method OverlayCounters(incoming: map<string, int>)
      modifies this`counters
      ensures counters == old(counters) + incoming
    {
      ghost var before := counters;
      var names := incoming.Keys;
      while names != {}
        invariant names <= incoming.Keys
        invariant counters.Keys == before.Keys + (incoming.Keys - names)
        invariant forall k :: k in counters ==>
                    counters[k] == if k in incoming && k !in names then incoming[k] else before[k]
      {
        var k :| k in names;
        counters := counters[k := incoming[k]];
        names := names - {k};
      }
      assert counters == before + incoming;
    }

    method OverlayCache(entries: seq<CacheEntry>)
      modifies cache
      ensures cache.cache == ApplyEntries(old(cache.cache), entries)
    {
      for i := 0 to |entries|
        invariant cache.cache == ApplyEntries(old(cache.cache), entries[..i])
      {
        var entry := entries[i];
        assert entries[..i + 1][..i] == entries[..i];
        if entry.clientId != "" && entry.response.Some? {
          cache.Set(entry.clientId, entry.requestId, entry.response.value);
        }
      }
      assert entries[..|entries|] == entries;
    }

    method ApplyTransferResp(resp: TransferResp)
      modifies this`counters, this`viewNumber, this`leaderAddr, cache
      ensures State() == HandleTransfer(old(State()), resp)
      ensures counters == old(counters) + resp.counters
      ensures !dedupEnabled ==> cache.cache == old(cache.cache)
      ensures if resp.view > 0 then viewNumber == resp.view && leaderAddr == allServers[resp.view % |allServers|]
              else viewNumber == old(viewNumber) && leaderAddr == old(leaderAddr)
    {
      OverlayCounters(resp.counters);
      if dedupEnabled {
        OverlayCache(resp.cache);
      }
      if resp.view > 0 {
        viewNumber := resp.view;
        leaderAddr := LeaderOf(allServers, resp.view);
      }
    }

    /** PullState: the first peer, in order, whose TransferState succeeds is the donor. answers holds the
        reply of each peer that can be reached. */
    method PullState(answers: map<string, TransferResp>) returns (ghost donor: Option<nat>)
      modifies this`counters, this`viewNumber, this`leaderAddr, cache
      ensures match donor
              case None => (forall p :: p in peers ==> p !in answers) && State() == old(State())
              case Some(i) =>
                && i < |peers| && peers[i] in answers && (forall j :: 0 <= j < i ==> peers[j] !in answers)
                && State() == HandleTransfer(old(State()), answers[peers[i]])
    {
      for i := 0 to |peers|
        invariant forall j :: 0 <= j < i ==> peers[j] !in answers
        invariant State() == old(State())
      {
        if peers[i] in answers {
          ApplyTransferResp(answers[peers[i]]);
          return Some(i);
        }
      }
      donor := None;
    }
  }
}
