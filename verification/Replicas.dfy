/** One server's state as a value, and each RPC handler as one atomic step on it.
    The class in Server.dfy is proved to take exactly these steps; the transition systems in
    ViewChanges.dfy, Failover.dfy and EndToEnd.dfy are built from them. */
module Replicas {
  import opened Messages
  import opened CacheKeys
  import opened Membership

  /** counters and reply cache; the cache is keyed by the printed "client:request" string. */
  datatype Store = Store(counters: map<string, int>, cache: map<string, IncrResponse>)

  /** A vote set per view number, as the source's map[int64]map[string]bool. */
  datatype ViewState = ViewState(
    number: nat,
    leader: string,
    changing: bool,
    votes: map<int, set<string>>)

  datatype Replica = Replica(self: string, all: Members, dedup: bool, store: Store, view: ViewState)
  {
    /** Passes both gates of IncrCounter. */
    predicate Serving() {
      view.leader == self && !view.changing
    }
  }

  const EMPTY_STORE := Store(map[], map[])

  function FreshView(all: Members): ViewState {
    ViewState(0, all[0], false, map[])
  }

  function FreshReplica(self: string, all: Members, dedup: bool): Replica {
    Replica(self, all, dedup, EMPTY_STORE, FreshView(all))
  }

  /** A Go map read: the zero value for a missing counter. */
  function Lookup(counters: map<string, int>, c: string): int {
    if c in counters then counters[c] else 0
  }

  // ---- client requests --------------------------------------------------------------------

  function RequestKey(req: IncrRequest): string {
    CacheKey(req.clientId, req.requestId)
  }

  function MessageKey(msg: ReplicateMsg): string {
    CacheKey(msg.clientId, msg.requestId)
  }

  datatype IncrStep = IncrStep(next: Replica, outcome: IncrOutcome, emitted: Option<ReplicateMsg>)

  predicate CacheHit(r: Replica, req: IncrRequest) {
    r.dedup && req.clientId != "" && RequestKey(req) in r.store.cache
  }

  /** The message the leader sends its followers for a request it has just applied. */
  function ReplicateFor(dedup: bool, req: IncrRequest, val: int): ReplicateMsg {
    if dedup && req.clientId != "" then
      ReplicateMsg(req.counterId, val, req.clientId, req.requestId, Some(IncrResponse(val, "")))
    else
      ReplicateMsg(req.counterId, val, "", 0, None)
  }

  /** IncrCounter: the empty-counter check, the two gates, the cache, then increment and replicate. */
  function HandleIncr(r: Replica, req: IncrRequest): IncrStep {
    if req.counterId == "" then IncrStep(r, InvalidArgument, None)
    else if r.view.leader != r.self then IncrStep(r, Answered(IncrResponse(0, r.view.leader)), None)
    else if r.view.changing then IncrStep(r, Unavailable, None)
    else if CacheHit(r, req) then IncrStep(r, Answered(r.store.cache[RequestKey(req)]), None)
    else
      var val := Lookup(r.store.counters, req.counterId) + 1;
      var counters := r.store.counters[req.counterId := val];
      var resp := IncrResponse(val, "");
      var cache := if r.dedup && req.clientId != ""
                   then r.store.cache[RequestKey(req) := resp] else r.store.cache;
      IncrStep(r.(store := Store(counters, cache)), Answered(resp), Some(ReplicateFor(r.dedup, req, val)))
  }

  /** Replicate: overwrite the counter, and record the reply when the message carries one. */
  function HandleReplicate(r: Replica, msg: ReplicateMsg): Replica {
    var counters := r.store.counters[msg.counterId := msg.newValue];
    var cache := if r.dedup && msg.clientId != "" && msg.cachedResponse.Some?
                 then r.store.cache[MessageKey(msg) := msg.cachedResponse.value] else r.store.cache;
    r.(store := Store(counters, cache))
  }

  // ---- view change ------------------------------------------------------------------------

  /** commitView run without interference: ignore an older view, otherwise adopt it and serve. */
  function Commit(v: ViewState, all: Members, newView: nat): ViewState {
    if newView < v.number then v
    else v.(number := newView, leader := LeaderOf(all, newView), changing := false)
  }

  datatype InitiateStep = InitiateStep(next: Replica, broadcast: Option<ViewChangeMsg>)

  function VotesFor(v: ViewState, view: int): set<string> {
    if view in v.votes then v.votes[view] else {}
  }

  /** initiateViewChange; broadcast is None only on the fast path that commits at once. */
  function HandleInitiate(r: Replica): InitiateStep {
    var newView := r.view.number + 1;
    var voters := VotesFor(r.view, newView) + {r.self};
    var v := ViewState(newView, LeaderOf(r.all, newView), true, r.view.votes[newView := voters]);
    if |voters| >= Majority(|r.all|)
    then InitiateStep(r.(view := Commit(v, r.all, newView)), None)
    else InitiateStep(r.(view := v), Some(ViewChangeMsg(newView, r.self)))
  }

  datatype VoteStep = VoteStep(next: Replica, ack: ViewChangeAck)

  /** The ViewChange RPC: reject older views, otherwise count the vote and commit at the majority. */
  function HandleViewChange(r: Replica, msg: ViewChangeMsg): VoteStep {
    if msg.view < r.view.number then VoteStep(r, ViewChangeAck(false, r.view.number))
    else
      var voters := (if msg.view in r.view.votes then r.view.votes[msg.view] else {r.self}) + {msg.sender};
      var v := r.view.(changing := r.view.changing || msg.view > r.view.number,
                       votes := r.view.votes[msg.view := voters]);
      var v' := if |voters| == Majority(|r.all|) then Commit(v, r.all, msg.view) else v;
      VoteStep(r.(view := v'), ViewChangeAck(true, msg.view))
  }

  // ---- state transfer ---------------------------------------------------------------------

  /** The entries TransferState lists when the cache map is iterated in the given order. */
  function EntriesOf(order: seq<string>, cache: map<string, IncrResponse>): seq<CacheEntry>
    requires forall k :: k in order ==> k in cache
  {
    if order == [] then []
    else
      var n := |order| - 1;
      var k := order[n];
      EntriesOf(order[..n], cache) +
      (match ParseKey(k)
       case None => []
       case Some(key) => [CacheEntry(key.clientId, key.requestId, Some(cache[k]))])
  }

  function ApplyEntries(cache: map<string, IncrResponse>, entries: seq<CacheEntry>): map<string, IncrResponse> {
    if entries == [] then cache
    else
      var n := |entries| - 1;
      var e := entries[n];
      var before := ApplyEntries(cache, entries[..n]);
      if e.clientId != "" && e.response.Some?
      then before[CacheKey(e.clientId, e.requestId) := e.response.value] else before
  }

  /** applyTransferResp: overlay the counters, the cache (dedup only) and a positive view number. */
  function HandleTransfer(r: Replica, resp: TransferResp): Replica {
    var cache := if r.dedup then ApplyEntries(r.store.cache, resp.cache) else r.store.cache;
    var view := if resp.view > 0
                then r.view.(number := resp.view, leader := LeaderOf(r.all, resp.view)) else r.view;
    r.(store := Store(r.store.counters + resp.counters, cache), view := view)
  }

  /** The reply TransferState builds when the cache map is iterated in the given order; Server.TransferState
      is proved to return it for some order. */
  function Snapshot(donor: Replica, order: seq<string>): TransferResp
    requires AsSet(order) <= donor.store.cache.Keys
  {
    assert forall k :: k in order ==> k in AsSet(order);
    TransferResp(donor.store.counters, EntriesOf(order, donor.store.cache), donor.view.number)
  }

  /** A server that starts and pulls its state from a donor; with no peer reachable it stays empty. */
  function Joined(self: string, all: Members, dedup: bool, donor: Option<Replica>, order: seq<string>): Replica
    requires donor.Some? ==> AsSet(order) <= donor.value.store.cache.Keys
  {
    match donor
    case None => FreshReplica(self, all, dedup)
    case Some(d) => HandleTransfer(FreshReplica(self, all, dedup), Snapshot(d, order))
  }

  /** Whatever the donor holds, the joiner takes its view number and none of its votes, and is never
      in view-change mode. */
  lemma JoinedView(self: string, all: Members, dedup: bool, donor: Option<Replica>, order: seq<string>)
    requires donor.Some? ==> AsSet(order) <= donor.value.store.cache.Keys
    ensures var r := Joined(self, all, dedup, donor, order);
            var w := if donor.Some? then donor.value.view.number else 0;
            r.self == self && r.all == all && r.dedup == dedup && r.view == ViewState(w, LeaderOf(all, w), false, map[])
  {
    assert 0 % |all| == 0;
  }
}
