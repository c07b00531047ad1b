# Verified model of the replicated counter service

A Dafny model of a small replicated counter: servers that elect leaders by a round-robin view
change, a leader that replicates every increment together with the reply it gave, replicas that join
by state transfer, and a client that follows redirects, fails over and retries under stable request
IDs. Handlers are pure functions on a server's state (`Replicas.dfy`); a `Server` class with the
source's mutable fields is proved to take exactly those steps (`Server.dfy`); and transition systems
built from the same functions carry the statements about whole runs.

| file | subject |
|---|---|
| `Messages.dfy`, `Membership.dfy`, `CacheKeys.dfy` | messages, sorted server lists and majorities, printed cache keys |
| `Replicas.dfy`, `Server.dfy` | handlers as functions; the mutable server object, with the compare-and-swap loop under interference |
| `ViewChanges.dfy` | any number of servers; messages lost, delayed, duplicated, reordered; crashes, and joins with the state of a peer |
| `ViewSettling.dfy` | commits in any order, and what votes do to a server that waits or serves |
| `Quorums.dfy`, `BoundaryRuns.dfy` | what commits rest on, with and without joins; runs that meet the bounds, and runs in which a join breaks them |
| `ExactlyOnce.dfy`, `Replication.dfy` | a leader's request stream with repeats; its messages and its followers |
| `Streams.dfy` | the store that a stream of requests should give, and the stores of servers in which results arrived in some order |
| `Failover.dfy`, `FailoverRuns.dfy` | one outstanding request sent any number of times, single deliveries in any order, any number of crashes; and runs that lose an acknowledged increment |
| `FailoverReplicas.dfy`, `FailoverJoins.dfy` | how the other replicas compare with the new leader; what a server that starts during such a run knows |
| `EndToEnd.dfy` | concurrent clients, retransmission, one server that gains and loses leadership |
| `StateTransfer.dfy` | the snapshot round trip of a joining replica, in every run |
| `Client.dfy`, `ClientProgress.dfy`, `CallHistories.dfy` | the failover loop, its cost, its calls as seen from outside, and a call during an election |
| `RequestIds.dfy` | request stamps, and what a leader counts for them |
| `Heartbeat.dfy`, `Percentile.dfy` | missed-ping accounting; the interpolated quantile |

`dafny verify dfyconfig.toml` checks everything. An action that is not enabled leaves a transition
system unchanged, so "every run" means every finite sequence of actions. Each RPC handler is one atomic step,
except in `Server.CommitView`, where other goroutines may act between any two atomic accesses.

Where the source and its documentation differ, the model follows the source:

- The repository's README (line 100) has a server commit when it hears a view from a majority. The handler counts itself
  as agreeing (internal/server/election.go:125-128). `MajorityHeardIff` says when the documented rule is met: all of a
  server's votes are initiations iff it initiated the view itself. A commit rests on at least one
  initiation fewer than a majority (`CommittedViewHasMajority`), and `CommitsOnFewerThanMajority` has
  a run with exactly that many for every cluster of three or more.
- Its line 119 has a joining replica pull its state and carry on. It takes the donor's view number
  without votes and without the donor's view-change mode (internal/server/replication.go:120-125). `AnyRunBackedIff`
  says when the majority behind every committed view survives joins, `RunBackedIff` what is left of
  that when no joiner falls behind its old view; `JoinerServesUnvotedView`, `RejoinerForgetsItsView`
  and `LateVoteCommits` are runs in which it does not. It is not sent a message that went out before it
  served, and its donor may not have that message either: what was on its way to the donor, it misses
  for as long as that leader leads (`JoinerKnowsIff`), even when the request is acknowledged.
- Its line 141 promises exactly-once execution across failover. `OneLeaderCrash` proves it for one leader
  crash at any point and any retries at the new leader, if the first leader is not asked again for a
  request that it has. Every other live replica then equals the new leader or lacks only the interrupted
  request (`ReplicasAfterRetries`, `ReplicasAfterOneCrash`). Otherwise the promise can fail: the reply is
  cached before it is replicated (internal/server/state.go:107-113) and an answer from the cache is not
  replicated again, so a request can be acknowledged that the next leader has never heard of, after one
  crash (`EarlyAnswerIsLost`) or two (`ValueAcknowledgedTwice`), or whose late message sets the next
  leader's counter back (`OvertakenValueAcknowledgedTwice`). `CountedOnceIff` gives the exact condition,
  for a leader's messages in any order and any number of crashes: every successor's cache knows the
  requests acknowledged from a cache before, and for every counter the newest message that reached it
  came last. All of this takes it that a crashed leader's messages do not arrive after its successor has
  taken over.
- The client's "all peers unreachable" (internal/client/interceptor.go:122-128) need not mean that. An empty address
  in its list, as a trailing comma leaves behind, ends the search early, unless the client starts at
  it: `UnreachableMeansAllTried` and `StableClusterAnswers` say exactly when.

## Model

| member | source | states |
|---|---|---|
| CacheKeys.KeyRoundTrip | internal/server/cache.go:23-25 | splitting a printed key at its last colon and parsing the decimal gives back the pair, for every client string and every int64 |
| CacheKeys.KeysNeverCollide | internal/server/cache.go:23-25 | two pairs print to the same key iff they are the same pair |
| CacheKeys.StoredKeysAreCanonical | internal/server/replication.go:42-56 | a key stored for a non-empty client is one that TransferState lists and prints back unchanged |
| CacheKeys.CanonicalIff | internal/server/replication.go:42-55 | a key survives splitting and printing iff what follows its last colon is an int64 without plus sign, leading zero or negative zero, and what precedes it is not empty |
| CacheKeys.ParseIntIff | internal/server/replication.go:46-49 | exactly these strings are read as an int64: a sign that fits or none, any number of zeros, and its digits |
| Membership.SameMembersSameList | internal/server/state.go:42-43 | servers given the same distinct addresses, in any order and with any one as self, build the same sorted list of exactly those addresses |
| Membership.FirstLeaderIsLeast | internal/server/state.go:42-59 | the first leader is a configured address, and is a prefix of every other or has the smaller character where they first differ |
| Membership.EachLeadsOnce | internal/server/election.go:158-161 | among any n consecutive views every one of n distinct servers leads exactly one |
| Membership.MajorityIsLeast | internal/server/election.go:122-122 | any two groups of k servers have a member in common iff k is at least the majority |
| ViewSettling.CommitsInAnyOrder | internal/server/election.go:144-166 | commits of any views in any order end in the highest, with its leader and out of view-change mode; commits of older views change nothing |
| Server.ReplyCache.Get | internal/server/cache.go:28-33 | a hit iff the key is stored, with the stored reply |
| Server.ReplyCache.Set | internal/server/cache.go:36-40 | stores under the printed key and changes no other entry |
| Server.Server.constructor | internal/server/state.go:41-66 | a new server is fresh: empty store, view 0, first address as leader, connections to the peers that could be dialled |
| Server.Server.CommitView | internal/server/election.go:144-166 | under any interference that only raises the view: terminates, never lowers the view, ends at newView or above, at most newView minus the starting view failed swaps; without interference, the atomic commit: nothing for an older view, else view, leader and flag of the new one |
| Server.Server.InitiateViewChange | internal/server/election.go:77-105 | one view up, under that view's entry of the server list; in view-change mode iff its votes are fewer than a majority, and then the vote goes to every connected peer |
| Server.Server.ViewChange | internal/server/election.go:109-140 | takes the vote step: an older view is refused and changes nothing, the view moves only with exactly a majority of votes, and view-change mode starts only for a higher view |
| Server.Server.SendToAll | internal/server/election.go:168-183 | sends to the addressed peers, for both send loops |
| Server.AddressedCounts | internal/server/election.go:168-183 | every connected peer gets the message as often as it is listed, and nobody else gets anything |
| Server.AddressedInOrder | internal/server/replication.go:130-149 | the messages go out in the order of the peers |
| Server.Server.IncrCounter | internal/server/state.go:71-118 | takes the request step: argument check, both gates, a cached reply unchanged, or else the counter raised by one, the new value as reply and (dedup on) cached, one Replicate per connected peer; only counters and cache change |
| Server.Server.GetCounter | internal/server/state.go:123-141 | the same gates, then the current value, 0 for a new counter |
| Server.Server.Replicate | internal/server/replication.go:19-29 | overwrites the counter and records the carried reply when dedup is on |
| Server.Server.TransferState | internal/server/replication.go:32-65 | the counters, the view and every parseable cache entry, each key once in some order |
| Server.Server.ApplyTransferResp | internal/server/replication.go:105-126 | overlays counters and, with dedup on, non-empty entries; adopts a positive view and its leader |
| Server.Server.PullState | internal/server/replication.go:69-79 | applies the reply of the first peer that answers, and only that; nothing changes when none does |
| Quorums.CommittedViewHasMajority | internal/server/election.go:109-166 | in every run without joins, a server out of view-change mode in view w > 0 holds a majority vote set for w, all its voters have reached w, less than a majority is below w, all but one of a majority initiated w, and all its voters did iff it did |
| ViewChanges.MajorityHeardIff | internal/server/election.go:122-137 | in every run, a server's votes for a view are all initiations iff it initiated the view itself, one short of that otherwise; so a set of exactly a majority meets the documented rule iff its holder initiated |
| BoundaryRuns.CommitsOnFewerThanMajority | internal/server/election.go:122-137 | in every cluster of three or more, a run in which followers of another leader, one fewer than a majority, initiate view 1 and a server that did not serves it |
| ViewChanges.MajorityIsNeverSkipped | internal/server/election.go:87-102 | in every run, a majority-sized vote set implies that its holder has reached the view; so initiateViewChange commits at once iff the cluster has one member |
| ViewSettling.ChangingAwaitsVotes | internal/server/election.go:117-137 | in every run, joins included, a server in view-change mode has fewer than a majority of votes for its own view, or has heard of a higher one |
| ViewSettling.ServesThroughVoteIff | internal/server/election.go:111-120 | in every run, a serving leader that hears a vote goes on serving iff the vote is for no higher view, or completes the majority for one that it leads too |
| ViewChanges.VotesHonestViewsGapless | internal/server/election.go:77-90 | in every run, foreign votes come from servers that initiated the view, each vote set has its holder, and every view below an initiated one was initiated |
| Quorums.CommittedViewsShareAVoter | internal/server/election.go:122-137 | in runs without joins, any two committed views of one state have a common voter |
| Quorums.ViewsNeverDecrease | internal/server/election.go:144-156 | from any state, no sequence of steps lowers a server's view unless it joins from a donor behind it |
| Quorums.CommitIsForever | internal/server/election.go:135-166 | once some server has committed w, a majority stays at w or above for the rest of the run, as long as no joiner gives up its view |
| Quorums.AnyRunBackedIff | internal/server/replication.go:120-125 | in every run: every committed view of every state is reached by a majority iff each join leaves it so and each commit finds a majority of servers, counting the one that commits, at its view |
| Quorums.RunBackedIff | internal/server/replication.go:120-125 | in every run whose joiners do not fall behind their old views, that is so iff at each join a majority, counting the joiner, had reached the donor's view |
| Quorums.QuietDonorsSuffice | internal/server/replication.go:120-125 | that holds whenever no donor past view 0 is in view-change mode |
| Quorums.JoinKeepsBackedIff | internal/server/replication.go:120-125 | for one join from any state with all committed views backed: they stay so iff the donor's view is backed and no higher commit needs the joiner |
| BoundaryRuns.JoinerServesUnvotedView | internal/server/replication.go:120-125 | a run in which a joiner serves a view that only its donor, a follower, has initiated and nobody voted for with it; the view is backed iff there are three servers |
| BoundaryRuns.RejoinerForgetsItsView | cmd/server/main.go:42-43 | a run in which a voter restarts, joins at view 0, and a committed view is left with one server fewer than a majority |
| BoundaryRuns.LateVoteCommits | internal/server/election.go:124-137 | a run in which the vote of a server that has since joined at view 0 makes another one commit with one server fewer than a majority |
| ViewChanges.RunKeepsLeaders | internal/server/election.go:158-161 | in every run, joins included, the leader address is the server list's entry at the view number modulo n |
| ViewChanges.OneServerPerView | internal/server/state.go:76-82 | two servers that increment in the same view, at any two points of a run with joins, are the same server |
| Quorums.IncrementsRestOnMajority | internal/server/state.go:76-95 | a server that increments in view w > 0 is that view's turn and a majority has reached w, in every run whose joins meet the two conditions |
| ExactlyOnce.RepliesStayCached | internal/server/state.go:86-92 | every stamped request is answered with the reply that stays cached under its key |
| ExactlyOnce.HitIffRepeat | internal/server/state.go:86-90 | from an empty cache, the cache answers exactly the repeats |
| ExactlyOnce.DedupPreservesMeaning | internal/server/state.go:84-113 | a serving leader ends any stream with the state and the messages of the stream of first occurrences |
| ExactlyOnce.DedupPreservesReplies | internal/server/state.go:86-90 | and every request gets the reply its representative gets there |
| ExactlyOnce.DedupHasNoRepeats | internal/server/state.go:86-90 | no operation has two representatives |
| ExactlyOnce.CountersCountOperations | internal/server/state.go:84-95 | with dedup on, a counter advances by the number of distinct operations on it |
| ExactlyOnce.CountersCountRequests | internal/server/state.go:84-95 | with dedup off, it advances by every accepted request |
| ExactlyOnce.RepliesCountRequests | internal/server/state.go:92-117 | with dedup off, each reply carries the number of requests on its counter up to then, repeats included |
| ExactlyOnce.RepliesCountOperations | internal/server/state.go:84-117 | with dedup on, the number of distinct operations up to then, unstamped requests counting every time; a repeat gets the earlier reply |
| ExactlyOnce.RepeatsHarmlessIff | internal/server/state.go:84-111 | repeats leave the counters as the deduplicated stream does iff dedup is on or there are no repeats |
| Replication.ValuesAreConsecutive | internal/server/state.go:92-102 | the values sent for a counter are consecutive and end at the counter |
| Replication.CountersSumToCacheSize | internal/server/state.go:92-111 | from empty with every request stamped, the counters add up to the number of cache entries and of messages |
| Replication.CachedValuesAreExactlyOneToN | internal/server/cache.go:36-40 | the cached values of the operations on c are 1 to counters[c], each once |
| Replication.InOrderFollowerAgrees | internal/server/replication.go:19-29 | a follower that gets all messages in creation order has the leader's counters and cache |
| Replication.PrefixFollowerIsBehind | internal/server/replication.go:19-29 | with a prefix it has counters no larger and a part of the cache |
| Replication.AnyOrderSameCache | internal/server/replication.go:24-26 | in any order and with duplicates, the cache is the leader's |
| Replication.AnyOrderCounters | internal/server/replication.go:20-22 | a counter never exceeds the leader's, and equals it iff the newest message about it was delivered last |
| Replication.ReorderedCountersRegress | internal/server/replication.go:21 | two increments of one counter delivered newest first leave it at 1 instead of 2 |
| Failover.CountedOnceIff | internal/server/state.go:84-117 | for every run with retransmissions, messages that overtake each other and any number of crashes, dedup on or off: each leader holds every acknowledged request once and the outstanding one at most once iff each successor's cache knows the requests acknowledged from a cache, the newest message about each counter reached it last, and with dedup off no request reaches a leader that has it |
| Failover.SafeIfNotAskedAgain | internal/server/state.go:84-117 | all of that holds in every run, whatever crashes and with dedup on or off, in which no leader is asked again for a request it has |
| Failover.AskedOnceUntilLastCrash | internal/server/state.go:84-117 | with dedup on, that rule is needed only up to the last leader crash: then each request is counted once, acknowledged at most once, and the live replicas are settled |
| Failover.OneLeaderCrash | internal/server/state.go:84-117 | in particular for one outstanding request, one leader crash at any point, and any retries and further requests at the new leader |
| Failover.AcknowledgedOnce | internal/server/state.go:84-117 | in every safe run each issued request is acknowledged once or outstanding, with the one value that any leader has computed for it, and the values acknowledged for a counter rise |
| Failover.AcknowledgedValueIsRank | internal/server/state.go:92-97 | and that value is the request's rank among the issued increments of its counter |
| Failover.ReplicasAfterFailover | internal/server/replication.go:19-29 | and with nothing outstanding the leader holds each issued request once, while another live replica has no higher counter and no other reply, its cache (dedup on) lacks at most requests acknowledged from a cache, and its counters are bounded from below by all other requests only if the newest message about each counter reached it last |
| Failover.SuccessorIsLevelIff | internal/server/replication.go:19-29 | and a live replica is level with the leader iff it knows all of those and the newest message about each counter reached it last |
| FailoverReplicas.ReplicasAfterRetries | internal/server/state.go:84-117 | dedup on, one leader crash at any point, then any retries of the outstanding request: once it is answered, the new leader's store is that of every issued request performed once, and every other live server's store is the same or that of all requests but the last, the interrupted one |
| FailoverReplicas.ReplicasAfterOneCrash | internal/server/replication.go:130-149 | and with further requests, each sent at most once to the new leader: whenever nothing is outstanding, every other live server equals the new leader or lacks exactly the interrupted request's reply and, unless a later request of its counter made up for it, one on that counter |
| FailoverReplicas.AskedOnceIsNotAgain | internal/client/interceptor.go:105-173 | a client that asks each leader at most once for each request keeps, up to the first leader crash, the rule on what the leader has |
| FailoverJoins.JoinerIsLevelIff | internal/server/replication.go:69-102 | dedup on, in every safe run: a server that joins has the leader's store iff its donor has received exactly what the leader has applied, the newest message about each counter last |
| FailoverJoins.JoinerKnowsIff | cmd/server/main.go:42-48 | and for a request that the leader has applied before the join, whatever happens while it leads, the joiner knows it iff its donor had received it at the join |
| FailoverRuns.EarlyAnswerIsLost | internal/server/state.go:107-113 | one leader crash: a repeat answered from the cache before replication, acknowledged as 1, and lost |
| FailoverRuns.SecondCrashLoses | internal/server/state.go:86-90 | two crashes, replication having reached one follower: the acknowledged increment is lost with it |
| FailoverRuns.ValueAcknowledgedTwice | internal/server/state.go:86-90 | and the next increment of the counter is acknowledged with the same value 1 |
| FailoverRuns.OvertakenValueAcknowledgedTwice | internal/server/replication.go:21 | a newer message overtakes one whose request was answered from the cache: the successor knows both requests, its counter is set back, and a third request is acknowledged with the second one's value |
| FailoverRuns.RetryCountsTwice | internal/server/state.go:104-111 | with dedup off a repeated request leaves the counter at 2 |
| EndToEnd.AckedWithinAppliedWithinIssued | internal/client/interceptor.go:142-170 | in every run acknowledged operations are applied and applied ones issued, so successes <= counter <= issued |
| EndToEnd.FinalRepliesIdentifyOperations | internal/server/state.go:76-111 | final replies for one counter carry the same value iff they answer the same request, and lie in 1 to the counter |
| StateTransfer.RunKeepsCanonical | internal/server/cache.go:36-40 | in every run, joins included, all cache keys are canonical, and with dedup off there are none |
| StateTransfer.EntriesRoundTrip | internal/server/replication.go:40-57 | listing some keys of a cache and applying the list rebuilds exactly those entries |
| StateTransfer.JoinerCopiesDonor | internal/server/replication.go:105-126 | in every run, a server that joins has the donor's store, view and leader, for any listing order, also when the donor has joined itself |
| StateTransfer.CacheCopiedIff | internal/server/replication.go:112-118 | for a donor with canonical keys and any setting of the joiner: the cache is copied iff dedup is on or there is none; the counters always are |
| StateTransfer.TransferOverlays | internal/server/replication.go:105-126 | whatever the receiver holds: the donor's counters and (dedup on) cache win over its own, the rest is kept, a donor in view 0 leaves its view alone |
| Client.LeaderInterceptor.NextAlivePeer | internal/client/interceptor.go:178-189 | the scan's peer and its index, or "" with the index back where it was |
| Client.NextAliveIsFirst | internal/client/interceptor.go:178-189 | the scan fails iff every peer is dead, and otherwise stops at the first live one in cyclic order, empty or not |
| Client.EmptyAnswerIff | internal/client/interceptor.go:178-189 | the answer "" means that every peer is dead iff the empty address is not listed, or dead |
| Client.LeaderInterceptor.Rebind | internal/client/interceptor.go:65-87 | binds unless dialling a different address fails; connection and leader address stay in step |
| Client.LeaderInterceptor.Unary | internal/client/interceptor.go:108-175 | result, final binding and list of invoked addresses are those of Client.Call, whose properties the next rows state |
| Client.CallNeverRecalls | internal/client/interceptor.go:108-175 | for any server behaviour: no failed address is invoked again, at most 15 invocations, success only on a reply without redirect from the address the client stays bound to |
| Client.UnreachableMeansAllTried | internal/client/interceptor.go:122-128 | when nobody answers at the empty address and "all peers unreachable" is reported: every peer has failed in this call iff the empty address is not listed or the client started the call from it |
| Client.EmptyPeerStopsTheSearch | cmd/client/main.go:33 | with the list "a,,b" one failure at a is reported as "all peers unreachable" |
| Client.StableClusterAnswers | internal/client/interceptor.go:113-171 | after k errors that are not transport failures, in a cluster that is stable from then on with D unreachable addresses, k + D + 2 <= 15: at most k + D + 2 invocations, and success iff the client is at a live address or the first peer it cannot step over is not the empty one; else "all peers unreachable" |
| Client.RetriesUntilAnswered | internal/client/interceptor.go:133-139 | after k < 15 such errors at the bound address, its answer ends the call: k + 1 invocations, all there |
| CallHistories.CallKeepsRules | internal/client/interceptor.go:108-175 | for any outcomes and dials: 1 to 15 invocations from the bound address on; each next address, the result and the final binding follow from the outcomes so far, with "exceeded max attempts" only after 15 |
| CallHistories.ElectionIsOutlasted | internal/client/interceptor.go:133-169 | if servers change view, crash and redirect at will during n invocations, and the cluster is then stable with D unreachable addresses, n + D + 2 <= 15: success within n + D + 2 invocations |
| CallHistories.ElectionEndsWithAnswer | internal/server/state.go:76-82 | the same with the servers' own handlers behind the connections: the value is the one the answering server's handler gives |
| ClientProgress.FreshClientCost | internal/client/interceptor.go:110-173 | with the first live peer behind D different dead addresses, a new client needs exactly D + 1 or D + 2 invocations and fails iff that exceeds 15; an empty address on the way, unless it starts there, ends the search after the addresses in front of it |
| ClientProgress.SettledClusterAnswers | internal/client/interceptor.go:142-170 | with the servers' handlers behind the connections, at most D + 2 invocations for D unreachable known addresses, and the leader's value iff the call reaches a live one |
| ClientProgress.EmptyCounterIsRetried | internal/client/interceptor.go:133-139 | a request without a counter, refused by a live server as invalid, is sent to it 15 times and reported as out of attempts |
| RequestIds.RequestIDInterceptor.Unary | internal/client/requestid.go:24-35 | stamps an unstamped request with the next ID and passes a stamped one unchanged |
| RequestIds.StampsCoincideIff | internal/client/requestid.go:27-32 | two stamps of a client coincide iff they are a multiple of 2^64 calls apart |
| RequestIds.StampedOnceCountedOnce | internal/client/requestid.go:24-35 | up to 2^64 new requests of one client, their messages sent again any number of times, raise each counter of a leader with dedup on by the number of requests made for it |
| RequestIds.StampsRunOutIff | internal/client/requestid.go:27-30 | new requests stay distinct operations iff there are at most 2^64 |
| Heartbeat.RunHeartbeat | internal/server/election.go:30-56 | for any rounds: the miss count is the trailing run of misses modulo three, and initiations are at the rounds where that run reaches a multiple of three |
| Heartbeat.InitiationsOwnThreeMisses | internal/server/election.go:43-54 | each initiation the loop makes ends three consecutive misses and shares none of them with another |
| Heartbeat.ThreeMissesInitiate | internal/server/election.go:43-54 | of any three missed rounds in a row, one initiates |
| Heartbeat.MissesPayForInitiations | internal/server/election.go:43-54 | three times the initiations plus the miss count is at most the number of misses, and short of it by at most two for each round that was not a miss; without such rounds every third miss initiates |
| Percentile.QuantileWithinList | scripts/analyze.go:175-192 | within the list and between two neighbouring elements |
| Percentile.QuantileAtEnds | scripts/analyze.go:175-192 | the first element at 0 and the last at 1; 0 for an empty list |
| Percentile.QuantileMonotone | scripts/analyze.go:175-192 | monotone in p |
| Percentile.QuantileInterpolates | scripts/analyze.go:183-191 | at position i + w the weights of elements i and i + 1 are 1 - w and w |
| Percentile.QuantileOfProgression | scripts/analyze.go:183-191 | exact on equally spaced values |

## Left out

- Interleaving inside the handlers other than `commitView`: ViewChange reads the view and sets the flag outside the lock, IncrCounter and TransferState use several critical sections, and Replicate sets counter and cache under two locks.
- Server.Server.TransferState: counters and cache are read at one moment, while the source locks them one after the other.
- Liveness of elections: one initiator can leave the others in view-change mode, so eventual commit is not a theorem.
- A single leader across different views: Replicate carries and checks no view, so a slow old leader may overlap with a new one.
- Failover.CountedOnceIff: assumes that Replicate reaches every live follower before its handler answers; the source logs a failed delivery and answers anyway.
- Failover.OneLeaderCrash: takes it, like all of Failover.dfy, that no message of a crashed leader arrives after its successor has taken over.
- Failover: answers that are still under way when the leader crashes, and joins before a leader crash (FailoverJoins.dfy has one join at any point of a run and no leader crash after it). The election is one step that leaves arbitrary view states and a live serving leader; ViewChanges.dfy models the election itself.
- ViewChanges: a join takes and applies its donor's reply in one step, and a restarted server keeps its dedup setting.
- ViewChanges: Initiate is allowed at a server that leads its own view, since the leader can change between the heartbeat's ping and the initiation; the runs in BoundaryRuns.dfy do not use it.
- Server.Server.CommitView: views are unbounded, and so are counter values; only request IDs have the source's 64 bits.
- EndToEnd.AckedWithinAppliedWithinIssued: a client stops issuing at the largest int64 ID, before its IDs wrap around.
- gRPC dialling, deadlines, sleeps, the library's retry layer and the error-text test of isTransportFailure: outcomes of calls and dials are parameters.
- Ping, heartbeat timing and reply delay.
- Percentile: exact reals instead of float64.
- The load generator, the command-line programs, and the chart and CSV code in scripts/analyze.go.
