/** Any number of concurrent clients and one server: requests are sent again, requests and replies are
    delayed, lost, duplicated and reordered, and the server gains and loses its leadership at will. */
module EndToEnd {
  import opened Messages
  import opened Membership
  import opened Replicas
  import opened ExactlyOnce
  import opened RequestIds

  datatype Delivery = Delivery(req: IncrRequest, resp: IncrResponse)

  /** issued requests may reach the server at any time and any number of times; replies may reach the
      client likewise; acked holds the requests whose client has taken a reply as final. */
  datatype System = System(
    server: Replica,
    lastId: map<string, int64>,
    issued: set<IncrRequest>,
    replies: set<Delivery>,
    acked: set<IncrRequest>)

  datatype Action =
    | Issue(client: string, counterId: string)
    | Resend(req: IncrRequest)
    | Process(req: IncrRequest)
    | Receive(delivery: Delivery)
    | Review(view: ViewState)

  predicate Initial(s: System) {
    && s.server.dedup && s.server.store == EMPTY_STORE && s.server.view.leader != ""
    && (forall k :: k in s.lastId ==> k != "" && s.lastId[k] == 0)
    && s.issued == {} && s.replies == {} && s.acked == {}
  }

  function StampFor(s: System, client: string, counterId: string): IncrRequest
    requires client in s.lastId
  {
    Stamped(IncrRequest(counterId, "", 0), client, Next(s.lastId[client]))
  }

  predicate Enabled(s: System, a: Action) {
    match a
    case Issue(client, _) => client in s.lastId && s.lastId[client] < MAX_INT64
    case Resend(req) => req in s.issued && req.clientId in s.lastId
    case Process(req) => req in s.issued
    case Receive(d) => d in s.replies
    case Review(view) => view.leader != ""
  }

  /** A client accepts a reply that carries no redirect; any other it retries. A request that is sent
      again passes the stamping interceptor again. */
  function Step(s: System, a: Action): System {
    if !Enabled(s, a) then s
    else
      match a
      case Issue(client, counterId) =>
        s.(lastId := s.lastId[client := Next(s.lastId[client])],
           issued := s.issued + {StampFor(s, client, counterId)})
      case Resend(req) =>
        s.(issued := s.issued + {Stamped(req, req.clientId, Next(s.lastId[req.clientId]))})
      case Process(req) =>
        var step := HandleIncr(s.server, req);
        s.(server := step.next,
           replies := if step.outcome.Answered? then s.replies + {Delivery(req, step.outcome.resp)} else s.replies)
      case Receive(d) => if d.resp.redirectTo == "" then s.(acked := s.acked + {d.req}) else s
      case Review(view) => s.(server := s.server.(view := view))
  }

  function Exec(s: System, actions: seq<Action>): System {
    if actions == [] then s
    else Step(Exec(s, actions[..|actions| - 1]), actions[|actions| - 1])
  }

  predicate IsApplied(st: Store, q: IncrRequest) {
    Tracked(q) && RequestKey(q) in st.cache
  }

  /** The requests of a set that name counter c. */
  function For(reqs: set<IncrRequest>, c: string): set<IncrRequest> {
    set q | q in reqs && q.counterId == c
  }

  function Applied(s: System): set<IncrRequest> {
    set q | q in s.issued && IsApplied(s.server.store, q)
  }

  // ---- the invariant, in layers -----------------------------------------------------------

  predicate Stamps(s: System) {
    && (forall q :: q in s.issued ==> q.clientId != "" && q.clientId in s.lastId && q.requestId <= s.lastId[q.clientId])
    && (forall p, q :: p in s.issued && q in s.issued && p.clientId == q.clientId && p.requestId == q.requestId ==>
         p == q)
    && (forall k :: k in s.lastId ==> k != "")
  }

  /** Every cached key was stamped on an issued request. */
  ghost predicate CacheIsIssued(s: System) {
    forall k :: k in s.server.store.cache ==> exists q :: q in s.issued && RequestKey(q) == k
  }

  predicate IsFinal(st: Store, q: IncrRequest, resp: IncrResponse) {
    IsApplied(st, q) && resp == st.cache[RequestKey(q)]
  }

  predicate Replies(s: System) {
    && (forall d :: d in s.replies && d.resp.redirectTo == "" ==>
         d.req in s.issued && IsFinal(s.server.store, d.req, d.resp))
    && (forall q :: q in s.acked ==> q in s.issued && IsApplied(s.server.store, q))
    && s.server.view.leader != "" && s.server.dedup
  }

  /** No cached reply carries a redirect, a counter counts the operations applied to it, and each of
      them has its own value within the counter. */
  ghost predicate Counts(s: System) {
    && (forall k :: k in s.server.store.cache ==> s.server.store.cache[k].redirectTo == "")
    && (forall c :: c != "" ==> Lookup(s.server.store.counters, c) == |For(Applied(s), c)|)
  }

  predicate Values(s: System) {
    && (forall q :: q in Applied(s) ==>
          1 <= s.server.store.cache[RequestKey(q)].newValue <= Lookup(s.server.store.counters, q.counterId))
    && (forall p, q :: p in Applied(s) && q in Applied(s) && p != q && p.counterId == q.counterId ==>
          s.server.store.cache[RequestKey(p)].newValue != s.server.store.cache[RequestKey(q)].newValue)
  }

  ghost predicate Inv(s: System) {
    Stamps(s) && CacheIsIssued(s) && Replies(s) && Counts(s) && Values(s)
  }

  // ---- one step ---------------------------------------------------------------------------

  lemma FreshKeyNotCached(s: System, q: IncrRequest)
    requires CacheIsIssued(s)
    requires forall p :: p in s.issued ==> p.clientId != q.clientId || p.requestId != q.requestId
    ensures RequestKey(q) !in s.server.store.cache
  {
    if RequestKey(q) in s.server.store.cache {
      var p :| p in s.issued && RequestKey(p) == RequestKey(q);
      SameKeySameOperation(p, q);
    }
  }

  /** The new stamp is larger than any the client has used, so nothing is applied under it. */
  lemma IssueInv(s: System, client: string, counterId: string)
    requires Inv(s) && Enabled(s, Issue(client, counterId))
    ensures Inv(Step(s, Issue(client, counterId)))
  {
    var s' := Step(s, Issue(client, counterId));
    FreshKeyNotCached(s, StampFor(s, client, counterId));
    assert Applied(s') == Applied(s);
    forall k | k in s'.server.store.cache ensures exists q :: q in s'.issued && RequestKey(q) == k {
      var q :| q in s.issued && RequestKey(q) == k;
      assert q in s'.issued;
    }
  }

  /** Sending a request again issues nothing new: it keeps its stamp. */
  lemma ResendIssuesNothing(s: System, q: IncrRequest)
    requires Stamps(s) && Enabled(s, Resend(q))
    ensures Step(s, Resend(q)) == s
  {
    RetryKeepsStamp(q, q.clientId, q.requestId, Next(s.lastId[q.clientId]));
    assert Stamped(q, q.clientId, q.requestId) == q;
    assert s.issued + {q} == s.issued;
  }

  predicate Applies(s: System, q: IncrRequest) {
    && q in s.issued && q.counterId != "" && q.clientId != "" && s.server.dedup
    && s.server.Serving() && RequestKey(q) !in s.server.store.cache
  }

  lemma ApplyStep(s: System, q: IncrRequest)
    requires Applies(s, q)
    ensures var val := Lookup(s.server.store.counters, q.counterId) + 1;
            var st := Store(s.server.store.counters[q.counterId := val],
                            s.server.store.cache[RequestKey(q) := IncrResponse(val, "")]);
            Step(s, Process(q)) ==
              s.(server := s.server.(store := st), replies := s.replies + {Delivery(q, IncrResponse(val, ""))})
  {
  }

  /** A request that is applied now joins the applied set alone, under a key of its own. */
  lemma ApplyAddsOne(s: System, q: IncrRequest)
    requires Stamps(s) && Applies(s, q)
    ensures Applied(Step(s, Process(q))) == Applied(s) + {q} && q !in Applied(s)
    ensures forall p :: p in s.issued && RequestKey(p) == RequestKey(q) ==> p == q
  {
    ApplyStep(s, q);
    forall p | p in s.issued && RequestKey(p) == RequestKey(q) ensures p == q {
      SameKeySameOperation(p, q);
    }
  }

  lemma JoinsItsCounter(before: set<IncrRequest>, q: IncrRequest, c: string)
    requires q !in before
    ensures |For(before + {q}, c)| == |For(before, c)| + if c == q.counterId then 1 else 0
  {
    if c == q.counterId {
      assert For(before + {q}, c) == For(before, c) + {q};
    } else {
      assert For(before + {q}, c) == For(before, c);
    }
  }

  lemma ApplyCounts(s: System, q: IncrRequest)
    requires Stamps(s) && Counts(s) && Applies(s, q)
    ensures Counts(Step(s, Process(q)))
  {
    var before := Applied(s);
    ApplyAddsOne(s, q);
    ApplyStep(s, q);
    forall c ensures |For(before + {q}, c)| == |For(before, c)| + if c == q.counterId then 1 else 0 {
      JoinsItsCounter(before, q, c);
    }
  }

  lemma ApplyValues(s: System, q: IncrRequest)
    requires Stamps(s) && Values(s) && Counts(s) && Applies(s, q)
    ensures Values(Step(s, Process(q)))
  {
    ApplyAddsOne(s, q);
    ApplyStep(s, q);
    assert Lookup(s.server.store.counters, q.counterId) >= 0;
  }

  lemma ApplyReplies(s: System, q: IncrRequest)
    requires Stamps(s) && Replies(s) && Applies(s, q)
    ensures Stamps(Step(s, Process(q))) && Replies(Step(s, Process(q)))
  {
    ApplyStep(s, q);
  }

  lemma ApplyCacheIssued(s: System, q: IncrRequest)
    requires CacheIsIssued(s) && Applies(s, q)
    ensures CacheIsIssued(Step(s, Process(q)))
  {
    ApplyStep(s, q);
    var s' := Step(s, Process(q));
    forall k | k in s'.server.store.cache ensures exists p :: p in s'.issued && RequestKey(p) == k {
      assert k in s.server.store.cache || RequestKey(q) == k;
    }
  }

  /** Every other way of processing a request leaves the store alone. */
  lemma NoApplyInv(s: System, q: IncrRequest)
    requires Inv(s) && q in s.issued
    requires q.counterId == "" || !s.server.Serving() || CacheHit(s.server, q)
    ensures Inv(Step(s, Process(q)))
  {
    var s' := Step(s, Process(q));
    assert s'.server == s.server;
    assert Applied(s') == Applied(s);
  }

  lemma ApplyInv(s: System, q: IncrRequest)
    requires Inv(s) && Applies(s, q)
    ensures Inv(Step(s, Process(q)))
  {
    ApplyReplies(s, q);
    ApplyCacheIssued(s, q);
    ApplyCounts(s, q);
    ApplyValues(s, q);
  }

  lemma SameStore(s: System, s': System)
    requires CacheIsIssued(s) && Counts(s) && Values(s)
    requires s'.server.store == s.server.store && s'.issued == s.issued
    ensures CacheIsIssued(s') && Counts(s') && Values(s')
  {
    assert Applied(s') == Applied(s);
  }

  lemma ReceiveKeepsReplies(s: System, a: Action)
    requires Stamps(s) && Replies(s) && Enabled(s, a) && (a.Receive? || a.Review?)
    ensures Stamps(Step(s, a)) && Replies(Step(s, a))
  {
  }

  lemma StepInv(s: System, a: Action)
    requires Inv(s)
    ensures Inv(Step(s, a))
  {
    if Enabled(s, a) {
      match a
      case Issue(client, counterId) => IssueInv(s, client, counterId);
      case Resend(q) => ResendIssuesNothing(s, q);
      case Process(q) =>
        if q.counterId == "" || !s.server.Serving() || CacheHit(s.server, q) {
          NoApplyInv(s, q);
        } else {
          ApplyInv(s, q);
        }
      case _ =>
        ReceiveKeepsReplies(s, a);
        SameStore(s, Step(s, a));
    }
  }

  lemma {:induction false} RunInv(s: System, actions: seq<Action>)
    requires Initial(s)
    ensures Inv(Exec(s, actions))
  {
    if actions == [] {
      assert forall c :: For(Applied(s), c) == {};
    } else {
      RunInv(s, actions[..|actions| - 1]);
      StepInv(Exec(s, actions[..|actions| - 1]), actions[|actions| - 1]);
    }
  }

  // ---- what every run guarantees ----------------------------------------------------------

  /** Acknowledged operations are applied ones and applied ones are issued ones; so for every counter
      acknowledged <= value <= issued, and the value counts exactly the applied operations. */
  lemma AckedWithinAppliedWithinIssued(s0: System, actions: seq<Action>, c: string)
    requires Initial(s0) && c != ""
    ensures var s := Exec(s0, actions);
            && s.acked <= Applied(s) <= s.issued
            && Lookup(s.server.store.counters, c) == |For(Applied(s), c)|
            && |For(s.acked, c)| <= Lookup(s.server.store.counters, c) <= |For(s.issued, c)|
  {
    RunInv(s0, actions);
    var s := Exec(s0, actions);
    SubsetSize(For(s.acked, c), For(Applied(s), c));
    SubsetSize(For(Applied(s), c), For(s.issued, c));
  }

  /** All final replies to one request agree, and two requests on one counter never share a value. */
  lemma FinalRepliesIdentifyOperations(s0: System, actions: seq<Action>, d: Delivery, e: Delivery)
    requires Initial(s0)
    requires d in Exec(s0, actions).replies && d.resp.redirectTo == ""
    requires e in Exec(s0, actions).replies && e.resp.redirectTo == ""
    requires d.req.counterId == e.req.counterId
    ensures d.resp.newValue == e.resp.newValue <==> d.req == e.req
    ensures 1 <= d.resp.newValue <= Lookup(Exec(s0, actions).server.store.counters, d.req.counterId)
  {
    RunInv(s0, actions);
    var s := Exec(s0, actions);
    assert d.req in Applied(s) && e.req in Applied(s);
  }
}
