# eBeacon: a verified model of its routing, consensus tracking and caching core

eBeacon is a proxy in front of Ethereum Beacon API nodes ("upstreams"). This
project models the state machines it stands on and proves, for every run of
them, what they are for:

* **Circuit breaker and dispatch.** `Breaker.dfy` is the breaker as code,
  method by method, against a function of its state. `BreakerHistory.dfy` reads
  phase, failure count, recoveries and outstanding probe off the event history
  alone and shows that the breaker is that reading; `BreakerTheorems.dfy` draws
  the consequences. `Ledger.dfy` is the book a request keeps of its attempts:
  who holds a token, whose body is open. The dispatch loops (`Dispatch.dfy`,
  `Sequential.dfy`, `ArchivePass.dfy`, `Hedge.dfy`) are methods with
  nondeterministic replies that write such a book and attempt the candidates
  selected in order, all of them before the client gets an error;
  `RequestLifecycle.dfy` adds the consumer of the response and the drain of a
  hedged race;
  `Interleaving.dfy` runs any number of requests against the breakers in any
  order and shows that nothing is stranded; `BreakerViews.dfy` shows that each
  breaker in such a run is one of the histories of `BreakerHistory.dfy`.
* **Fork tracker and head exchange.** `ForkTracker.dfy` has the rules,
  `BlockCache.dfy` the two-index cache with its memoised head,
  `ForkTheorems.dfy` whole histories of reports, `HeadExchange.dfy` any number
  of instances over lossy publish/subscribe.
* **Finality and the response cache.** `FinalizedEpoch.dfy` interleaves
  compare-and-swap loops, memos and the shared Redis key. `LruSpec.dfy`,
  `MemoryStore.dfy` and `LruTheorems.dfy` are the memory store, as values, as
  code and over runs. `Text.dfy`, `Paths.dfy`, `CacheKey.dfy` and
  `Selectors.dfy` are the string side; `Permanence.dfy` puts finality, keys and
  store together.
* **Selection and scoring.** `Selection.dfy`, `PoolOrder.dfy` and `Scoring.dfy`.

`Options.dfy`, `Sorting.dfy` and `Arithmetic.dfy` are support.

Time, random draws, replies of upstreams, scheduling, Redis failures, message
delivery and the moments at which a client leaves are inputs or arbitrary
choices. Slots and epochs are 64-bit with wrap-around written out where the
source computes with them. The sequential retry loop, whose candidate list is
replaced on promotion, is written as two loops, one before and one after it. Locks are taken as
making a method one step; what the source does outside its locks is split into
separate steps (`HeadExchange.Step`, `FinalizedEpoch.Phase`, `Ledger.Op`).

Where the code and its comments part, the model follows the code:

* The canonical head is documented as the majority at the highest known slot. The
  walk's lower bound wraps while the highest slot is not above the head distance,
  and then there is no head (`ForkTheorems.HeadExactlyAfterDistance`).
* The local head is meant to ignore what other instances published. It does once
  local reports have outgrown the head distance; before that a remote report can
  open the window (`ForkTheorems.LocalHeadIgnoresRemoteVotes` has the exact
  condition, `ForkTheorems.EarlyLocalHeadDependsOnRemoteVotes` an instance).
* A block re-reported at another slot raises the highest slot without moving the
  block, so reports are insensitive to order exactly if every root always comes
  with one slot (`ForkTheorems.OrderInsensitive`).
* Only probe tokens settle idempotently (`BreakerTheorems.SettlingTwice`).
* The sequential loop is meant to return a pruned answer when all archive
  upstreams have been tried already (network/network.go:1247-1250). That case is
  not reached, since selection falls open, and promotion gives the answer up for
  good (network/network.go:1196, 1234-1245). Promotion happens exactly if a pruned
  answer comes in, the pool has archive upstreams and routing was not proactive,
  and the dispatch then fails exactly if no later attempt answers below 500
  (`Sequential.SequentialResult`). With a single upstream that is an archive one,
  every pruned answer turns into an error (`Sequential.SolePrunedAnswerIsLost`;
  `Sequential.SolePrunedAnswerHappens` has the trace); without archive upstreams
  the pruned answer is returned (`Sequential.PrunedAnswerKeptWithoutArchive`).
* Cancellations are meant not to be charged to upstreams. A dispatch cancelled
  before its answer is not, but a body read that is cancelled is
  (network/head_cache.go:148-152, network/network.go:655-658), for exactly the
  consumers and statuses of `RequestLifecycle.ChargesCancelledRead`; a warm-up
  cut short by the next head event can open a circuit
  (`RequestLifecycle.CancelledWarmUpOpensCircuit`). A pruned answer that a hedged
  dispatch kept back is charged for any failed read too.
* Cached head data is meant never to cross a slot boundary (cache/cache.go:44-47,
  network/network.go:1031-1034). The time left in the slot is counted in whole
  seconds (network/network.go:1044-1053) and added to a clock with nanoseconds
  (cache/cache.go:250-253), so an entry can outlive its slot by less than a second (`Paths.NamedExpiry` and
  `Permanence.NamedFillExpires` have the exact condition,
  `Paths.NamedOutlivesSlot` an instance).
* A finalized epoch accepted while genesis is unknown can be so large that its
  first slot wraps; finality of a path is then not monotone
  (`Paths.WrapLosesFinality`; `Paths.FinalityKeptExactly` has the exact
  condition).
* A fill decides by the decoded path and its key keeps the escaped one, so with
  escaped slashes a response can be kept forever under a key whose path names the
  head (`Permanence.EscapedNameKeptForever`; `Permanence.KeptUnderName` has the
  exact condition, the decoding of the path being final). A path without percent
  signs is its own decoding (`Text.UnescapePlain`), and then it cannot
  (`Permanence.NamedNeverPermanent`).
* A plausible epoch is one whose first slot has begun by the wall clock with ten
  minutes of tolerance (upstream/blockcache.go:69, 81), so a finalized epoch can be
  ahead of the clock by that much.
* Key parsing undoes key building exactly on `CacheKey.Separated` parts.

## Model

| member | source | states |
|---|---|---|
| CircuitBreaker.Breaker.SettleToken | upstream/upstream.go:668-710 | settling a token takes the breaker to the specified state: stale epochs and superseded probes change nothing |
| CircuitBreaker.Breaker.CBFailure | upstream/upstream.go:714-728 | failure evidence without a token counts when closed, reopens when half-open without a probe, and is ignored otherwise |
| CircuitBreaker.Breaker.TryAcquire | upstream/upstream.go:771-791 | admission, the token minted and the new state are those of `Acquire` |
| CircuitBreaker.Breaker.CanRouteNow | upstream/upstream.go:802-813 | the router's test is `CanRoute` of the current state |
| BreakerHistory.Refinement | upstream/upstream.go:636-813 | after every legal run the breaker's phase, counters, opening time, probe flag and all tokens are those read off the event history alone |
| BreakerHistory.SettledTokenEffect | upstream/upstream.go:668-703 | a token is current, or the live probe, exactly if the history says so |
| BreakerTheorems.PhaseChangesExactly | upstream/upstream.go:683-761 | the phase changes on exactly these events: the failureThreshold-th counted failure, the first acquisition after halfOpenAfter, the successThreshold-th probe success, any current failure while half-open |
| BreakerTheorems.EpochMarksPhase | upstream/upstream.go:746-752 | two moments share an epoch exactly if the phase never changed between them |
| BreakerTheorems.OnlyCurrentTokensAct | upstream/upstream.go:668-710 | a token that changes the breaker was minted in the current phase, not in an open circuit, and a probe is the newest and unsettled |
| BreakerTheorems.SettlingTwice | upstream/upstream.go:668-710 | settling twice equals settling once, except exactly for a closed-circuit failure below the threshold |
| BreakerTheorems.ProbeActsAtMostOnce | upstream/upstream.go:668-700 | of any two settlements of one probe token in a run at most one changes the breaker |
| BreakerTheorems.RefusedExactlyWhileProbing | upstream/upstream.go:771-797 | admission is refused exactly while a probe is outstanding, which implies half-open |
| BreakerTheorems.RoutableMeansAccountable | upstream/upstream.go:799-813 | routing accepts a circuit exactly if a request sent there would be admitted with a token that can charge it |
| BreakerTheorems.OpenCircuitStandsStill | upstream/upstream.go:696-703 | while open nothing moves the state, in particular not the last-error time |
| BreakerTheorems.LateSettlementsAreInert | upstream/upstream.go:668-703 | tokens minted before the circuit opened change nothing during recovery |
| BreakerTheorems.RecoveryAlwaysSucceeds | upstream/upstream.go:771-797 | from every reachable open state, after halfOpenAfter, exactly successThreshold acquire/success rounds close it whatever older tokens do meanwhile |
| Ledger.Log | upstream/upstream.go:582-611 | an operation the book allows extends the trace and the book by exactly that operation |
| Dispatch.Forward | network/network.go:1598-1643 | forwarding opens an attempt whose token and body are exactly what its result says |
| Dispatch.WriteOff | network/network.go:1665-1671 | an attempt that is not kept ends closed and settled as its reply deserves |
| Dispatch.DoneMeans | network/network.go:1665-1671 | a dispatched attempt that is done was charged exactly if it was at fault, an uncancelled error or a status of 500 and up, and is otherwise released |
| Dispatch.EnsurePreferredFirst | network/network.go:1283-1310 | the preferred upstream is swapped to the front, or put there if it is ready and missing, unless it is forked; nothing else moves, nothing is duplicated or foreign, the length bound holds |
| Sequential.TryPromote | network/network.go:1225-1251 | exactly if there are archive upstreams, a pruned answer is closed and released and archive candidates are selected within the remaining budget |
| Sequential.Turn | network/network.go:1193-1279 | one attempt: an answer below 500 is handed over or, pruned and not archive-biased, given up for archive candidates; a cancelled attempt ends the dispatch; any other failure is closed and settled and the loop goes on |
| Sequential.PursueFirst | network/network.go:1193-1276 | the first candidates are attempted in order until one answers, the client is gone or a pruned answer promotes; an error otherwise means that all were attempted |
| Sequential.PursueArchive | network/network.go:1193-1276 | after promotion the archive candidates not tried before are attempted in order, all of them before an error unless the client is gone |
| Sequential.ExecuteSequential | network/network.go:1101-1280 | the candidates selected are attempted in order, no upstream twice, at most maxAttempts+1 of them, and all of them before the client gets an error unless it is gone, that is a cancelled attempt or a wait it left during; nothing is sent after that; promotion exactly if a pruned answer comes in, there are archive upstreams and routing was not proactive; every attempt but the returned one closed and settled as deserved; the answer promotion gave up is never returned |
| Sequential.SolePrunedAnswerIsLost | network/network.go:1196-1245 | with one upstream, an archive one, and no proactive routing a pruned answer never reaches the client |
| Sequential.SolePrunedAnswerHappens | network/network.go:1234-1245 | and there is a trace of such a dispatch: one 404 that looks pruned, closed and released |
| Sequential.PrunedAnswerKeptWithoutArchive | network/network.go:1226-1232 | without archive upstreams a pruned answer is the one returned |
| Sequential.FirstCandidates | network/network.go:1101-1128 | the first candidates are the selection for the request, archive under proactive routing, with the preferred upstream in front |
| ArchivePass.PromoteToArchive | network/network.go:1548-1593 | the archive candidates selected and not tried before are attempted in order, all of them before the pass gives up unless one is cancelled; the first unpruned answer below 500 is handed back with its token and body, everything else is closed and settled |
| ArchivePass.TryArchive | network/network.go:1561-1590 | an archive attempt wins exactly if it is answered below 500 and not pruned; anything else leaves nothing open |
| ArchivePass.ExecutePinned | network/network.go:887-905 | a pinned request makes exactly one attempt if the upstream exists; its answer is returned whatever the status, and an error means that there was none |
| ArchivePass.ExecuteSelectedCandidates | network/network.go:914-1006 | each candidate once, in order; an unpruned answer below 500 is returned; unless the client is gone, that is a cancelled attempt or a wait it left during, the last response that came in is returned, and an error means that all candidates were tried and none responded; all but the returned attempt are closed and settled |
| Hedge.GoroutineStep | network/network.go:1330-1341 | a racing attempt is admitted or answered, nothing else changes |
| Hedge.Receive | network/network.go:1400-1474 | a received result wins, is kept back as pruned, or is closed and settled |
| Hedge.RaceTurn | network/network.go:1397-1494 | each turn of the select loop, whichever case it takes, keeps the race's invariant and makes progress, or ends the dispatch with everything received accounted for: with the answer received or, only if the client is gone, with an error |
| Hedge.AfterRace | network/network.go:1501-1537 | the pruned answer kept back is settled by whether it can be read, the archive candidates not in the race are attempted in order, and it is returned exactly if it could be read and none of them has an unpruned answer |
| Hedge.RunRace | network/network.go:1397-1494 | the race ends with a winner, with the client gone at some turn, or with everything fired and received and nothing below 500 passed over but what is kept back |
| Hedge.ExecuteHedge | network/network.go:1312-1541 | the racers are the selection with the preferred upstream in front, at most maxCount+1, each once; received attempts closed and settled, unfinished ones left to the drain; an unpruned answer below 500 that was received is returned; a pruned answer is returned only after the archive pass or when none is possible; unless the client is gone an error means that everything was fired and received and no answer below 500 came in but one that could not be read |
| RequestLifecycle.ConsumerVerdict | network/network.go:720-753 | a success is credited exactly for a body read in full with status below 500 (2xx for a warm-up); a failure is charged only for a broken read or a status of 500 and up; a cancelled read is charged exactly by multiplexed requests and by warm-ups with a 2xx or 5xx status |
| RequestLifecycle.ConsumerStep | network/network.go:720-753 | the consumer closes the body and settles the token it was handed, each once |
| RequestLifecycle.DrainStep | network/network.go:1364-1377 | the drain lets losers finish and releases them without charge or credit |
| RequestLifecycle.WindDown | network/network.go:649-660 | consumer and drain in any order leave every attempt closed and settled |
| RequestLifecycle.Execute | network/network.go:1064-1130 | every request goes the way its route says, with what that way promises about order, exhaustion and result (`Routed`); a hedged one goes one by one only if there are not two candidates; attempts are accounted for, fairly and fully charged, no upstream twice, archive only when proactive |
| RequestLifecycle.Serve | network/network.go:1064-1593 | a whole request is a legal trace that ends with every token settled once and every body closed; successes only for answers below 500; what the loops settle is charged exactly if it was at fault, apart from a kept-back pruned answer a hedge failed to read; what they hand over is settled by the consumer's reading, charged only for a broken read or a status of 500 and up, and for a cancelled read exactly as `ChargesCancelledRead` says |
| RequestLifecycle.ServeAll | network/network.go:914-1593 | for any list of served requests, every interleaving of their traces, with any breaker configuration and evidence at any moment, ends with no probe in flight and every connection count 0 |
| RequestLifecycle.CancelledWarmUpOpensCircuit | network/head_cache.go:148-152 | a run in which one cancelled warm-up read opens a circuit whose threshold is 1 |
| Interleaving.BooksExplainBreakers | upstream/upstream.go:582-611 | in every interleaving of any number of requests active connections are what the books say and the probe flag has its owner |
| Interleaving.ProbeHasOneOwner | upstream/upstream.go:668-797 | a probe is in flight exactly if one running request owns the live probe token, and only one does |
| Interleaving.BooksFollowTraces | network/network.go:1064-1593 | in an interleaving each request's book is the one its own trace gives |
| BreakerViews.BreakersFollowTheirHistory | upstream/upstream.go:636-813 | in every interleaving the calls that reach one upstream's breaker are a legal history, and the breaker's state, phase and counters are those this history leads to |
| BreakerViews.RefusalsExplained | upstream/upstream.go:771-797 | in every interleaving an admission is refused exactly while a probe handed out earlier is unsettled in that history |
| Interleaving.NothingStranded | upstream/upstream.go:582-611 | once every request's trace owes nothing, no probe is in flight and every connection count is 0 |
| Selection.Filter | upstream/pool.go:776-784 | the loop keeps exactly the satisfying upstreams, in order |
| Selection.WeightedPrimaryIndex | upstream/pool.go:612-632 | the pick owns the index modulo the total weight, and no other upstream does |
| Selection.RoundRobinFair | upstream/pool.go:605-650 | over any totalWeight consecutive indices each upstream is picked exactly as often as its configured weight says, at least once |
| Selection.RotateUniqueFromIndex | upstream/pool.go:634-650 | the order is the rotation that starts at the pick |
| Selection.Draw | upstream/pool.go:658-690 | a draw takes the upstream in whose share of the total it falls, shares being score times weight or, while those are all 0, the weights; so one with a positive share while there is one |
| Selection.ShareIs | upstream/pool.go:658-676 | while some score is positive and finite, a share is the score times the configured weight, and 0 for negative, unknown and infinite scores |
| Selection.WeightedOrderWithoutReplacement | upstream/pool.go:652-693 | for any draws, each in turn takes the upstream in whose share of what then remains it falls; so the result is a permutation with positive weights before zero weights |
| PoolOrder.OrderTier | upstream/pool.go:713-761 | within a tier each strategy gives a permutation in its own order |
| PoolOrder.ReorderWithinPriority | upstream/pool.go:763-774 | in place, each maximal run of equal priority is reordered on its own and nothing crosses runs |
| PoolOrder.OrderForPath | upstream/pool.go:713-761 | the order is a permutation by non-decreasing priority; the upstreams of one priority are the strategy's order of those upstreams as they were given (for round-robin a rotation of that order), with zero-weight upstreams last when sampling |
| PoolOrder.LeastLoadedFirst | upstream/pool.go:713-761 | under least-connections nobody comes before an upstream of its priority with fewer connections per weight; ties go by connections, then by ID |
| PoolOrder.FirstTier | upstream/pool.go:351-368 | the candidates are exactly the first non-empty fallback tier, in the pool's order |
| PoolOrder.Candidates | upstream/pool.go:351-399 | of those exactly the ones that saw the head if that is preferred and possible, then exactly the ones within their rate limit if there are any |
| PoolOrder.Select | upstream/pool.go:351-399 | selection is the first n of the candidates in the strategy's order, and non-empty if it can be |
| PoolOrder.PickedMeans | upstream/pool.go:351-399 | so it is duplicate-free, inside the first non-empty tier, in priority order, complete if short, and skips no lower priority number for a higher one |
| PoolOrder.WorseOnlyWithoutBetter | upstream/pool.go:351-399 | an upstream that is not ready, not canonical or not healthy, or that did not report the head when that is preferred, or that is over its rate limit, is selected only if no better one exists |
| PoolOrder.SelectArchive | upstream/pool.go:333-341 | archive selection is the same selection among the archive upstreams only, non-empty if there are any |
| ForkTracker.WindowBounds | upstream/blockcache.go:254-258 | the 64-bit window is the last maxHead+1 slots, and empty exactly while maxSlot <= maxHead |
| ForkTracker.HeadUnique | upstream/blockcache.go:254-281 | most votes, then least root, at the highest voted slot determines one head |
| ForkTracker.MajorityWins | upstream/blockcache.go:258-278 | any other block at the head's slot has fewer voters than the head, or as many and a greater root |
| ForkTracker.HeadExists | upstream/blockcache.go:254-281 | every tracker has a head or is known to have none |
| ForkTracker.AddMeans | upstream/blockcache.go:88-138 | an implausible report changes nothing, a plausible one is a vote for its root at the slot first reported |
| ForkTracker.PruneForgets | upstream/blockcache.go:284-302 | pruning forgets exactly the blocks more than followDistance slots below the highest |
| ForkTracker.PruneKeepsHead | upstream/blockcache.go:284-302 | pruning keeps both heads when maxHead <= follow |
| ForkTracker.PruneKeepsStatus | upstream/blockcache.go:201-236 | pruning keeps every fork status when 2*maxHead <= follow |
| BlockCaches.BlockCache.AddBlock | upstream/blockcache.go:93-130 | a report adds its vote to the tracker, the two indexes stay in agreement, and the memoised head equals a fresh computation |
| BlockCaches.BlockCache.Cleanup | upstream/blockcache.go:284-302 | the tracker becomes its pruning, indexes and memo as above |
| BlockCaches.BlockCache.CanonicalHead | upstream/blockcache.go:254-281 | the walk returns the head |
| BlockCaches.BlockCache.LocalCanonicalHead | upstream/blockcache.go:143-147 | the head counting local votes only |
| BlockCaches.BlockCache.ForkStatusOf | upstream/blockcache.go:201-236 | the status is the tracker's, from the memoised head: what `ForkTheorems.ForkedExactly` and `ForkTheorems.LaggingExactly` read off the reports |
| BlockCaches.BlockCache.CanonicalHeadSeenBy | upstream/blockcache.go:169-190 | the local upstreams that reported the head |
| BlockCaches.BestBlock | upstream/blockcache.go:258-278 | the inner loop finds the winner of a slot |
| ForkTheorems.OrderInsensitive | upstream/blockcache.go:93-130 | the tracker depends only on the set of reports if and only if each root is always reported at one slot |
| ForkTheorems.SameReportsSameAnswers | upstream/blockcache.go:201-281 | then highest slot, both heads and every fork status are the same too |
| ForkTheorems.ForkedExactly | upstream/blockcache.go:201-223 | with one slot per root, an upstream is called forked exactly if it reported a block at the head's slot and never the head itself |
| ForkTheorems.LaggingExactly | upstream/blockcache.go:225-236 | and lagging exactly if there is a head and it reported nothing from the head down to the head distance below it |
| ForkTheorems.LocalHeadIgnoresRemoteVotes | upstream/blockcache.go:254-302 | over any reports and prunings with one slot per root and maxHead <= follow, the local head is empty exactly if local reports do not reach the window, and it is the head of the history without remote votes or empty exactly if that history has outgrown the head distance or does not reach the window |
| ForkTheorems.EarlyLocalHeadDependsOnRemoteVotes | upstream/blockcache.go:258 | an early history where that condition and the property fail |
| ForkTheorems.HeadExactlyAfterDistance | upstream/blockcache.go:132-139 | there is a head exactly if the highest slot exceeds the head distance, and it is at the highest slot |
| HeadExchange.RemoteVotesHaveOrigins | upstream/pool.go:537-564 | in every run of any number of instances a remote vote at i was published by some j != i that had read the root as its own local head after one of its own upstreams reported it |
| HeadExchange.UnreportedRootsHaveNoVotes | state/redis.go:74-119 | a root no instance's upstreams reported has no vote anywhere |
| HeadExchange.HeadReachesOthers | upstream/pool.go:537-564 | a local head not published yet, once read, compared, sent and delivered at a plausible time, is a remote vote at any other instance |
| HeadExchange.NothingSentTwice | upstream/pool.go:537-550 | the head published last is not sent again |
| HeadExchange.ConsistencySpreads | state/redis.go:94-119 | one slot per root in upstream reports implies one slot per root in all deliveries |
| HeadExchange.TrackerFollowsView | upstream/pool.go:535-564 | each instance's tracker is the fork tracker history of its own reports, deliveries and prunings |
| HeadExchange.PublishedHeadsAreOwn | upstream/blockcache.go:140-147 | a head read for publishing is the one the instance would have had without hearing from others, once past the head distance |
| FinalizedEpoch.PlausibleEpochStarted | upstream/pool.go:492-498 | an epoch is accepted exactly if its first slot has begun by the wall clock with ten minutes of tolerance |
| FinalizedEpoch.PlausibleMeans | upstream/blockcache.go:68-83 | a slot is plausible exactly if it begins at most ten minutes from now, or genesis is unknown or to come |
| FinalizedEpoch.PlausibleEpochMeans | upstream/pool.go:492-498 | and an epoch exactly if its first slot is |
| FinalizedEpoch.PoolHoldsMaximum | upstream/pool.go:473-490 | under any interleaving a pool's value is the maximum epoch merged into it, each offered by some update |
| FinalizedEpoch.SharedKeyHoldsMergedEpochs | state/redis.go:28-31 | the shared key and every memo hold epochs some pool merged, and no memo is ahead of the key |
| FinalizedEpoch.FinishedUpdatesArePublished | state/redis.go:125-146 | a finished update returned at least its own epoch and, if every Redis call of its own was answered, its result is in the shared key |
| FinalizedEpoch.StepsProgress | upstream/pool.go:473-518 | every step of an update or seeding brings it nearer to its end, except a compare-and-swap lost to a rise of the pool's value |
| FinalizedEpoch.UndisturbedUpdatePublishes | state/redis.go:125-146 | from any reachable state an update that is about to merge an accepted epoch, let run on with Redis answering, has returned at least its epoch after six steps, and the shared key holds what it returned |
| FinalizedEpoch.UndisturbedSeedTakesOver | upstream/pool.go:500-518 | a seeding let run on takes over the shared epoch exactly if the clock finds it plausible |
| FinalizedEpoch.SkippedPublishLosesNothing | state/redis.go:126-131 | a publish skipped because of the memo is already covered by the key |
| FinalizedEpoch.NothingDecreases | upstream/pool.go:473-518 | pool values, memos and key never decrease |
| FinalizedEpoch.PoolEpochHasStarted | upstream/pool.go:492-518 | a pool's epoch had begun, within the tolerance, by some clock reading at which that pool accepted it |
| FinalizedEpoch.Pool.MergeEpoch | upstream/pool.go:475-480 | the compare-and-swap loop ends under any monotone interference and leaves the maximum |
| FinalizedEpoch.Pool.UpdateFinalizedEpoch | upstream/pool.go:473-490 | the result is what others left merged with the offered epoch if plausible, and what others left alone if not |
| MemoryStores.MemoryStore.Get | cache/memory.go:29-47 | a hit is the live entry and moves to the front; an expired entry goes |
| MemoryStores.MemoryStore.Set | cache/memory.go:49-71 | replace in front, or evict from the back and insert; index and list agree; size stays within bounds |
| MemoryStores.MemoryStore.Evict | cache/memory.go:59-67 | eviction keeps the most recent entries |
| MemoryStores.MemoryStore.Delete | cache/memory.go:73-80 | exactly that key goes |
| MemoryStores.MemoryStore.PromoteIf | cache/memory.go:82-104 | expired entries go, chosen live ones become permanent, and the count is right |
| MemoryStores.MemoryStore.Entries | cache/memory.go:106-128 | the live entries in order up to the limit; only expired ones passed are swept |
| MemoryStores.MemoryStore.Keys | cache/memory.go:130-149 | the keys of all live entries, the expired swept |
| MemoryStores.MemoryStore.Store | cache/cache.go:249-258 | a positive time to live becomes an expiry, anything else is permanent |
| MemoryStores.MemoryStore.PurgeCollect | cache/cache.go:273-282 | exactly the chosen live keys are reported and gone, and nothing else live is lost |
| LruSpec.ListedIs | cache/memory.go:106-128 | a listing is the live entries from the front, up to the limit if there is one |
| LruSpec.PromotionsCounted | cache/memory.go:82-104 | the count a promotion reports is the increase in permanent entries |
| LruTheorems.Bounded | cache/memory.go:29-149 | over every run the size stays within maxSize and keys are distinct |
| LruTheorems.StoreRefinesMap | cache/memory.go:29-149 | whatever the store holds a plain map without capacity holds too |
| LruTheorems.HitsAreCurrent | cache/memory.go:29-47 | a hit is the plain map's entry, and its expiry is not before the time of asking |
| LruTheorems.ServedWhileAlive | cache/cache.go:249-258 | what was just stored is served until its time to live is over, and forever without one |
| LruTheorems.RecentlyTouchedStays | cache/memory.go:29-71 | a key with fewer than maxSize distinct other keys touched since its own last touch, not deleted or expired, is still there |
| CacheKey.ParseCacheKey | network/head_cache.go:25-64 | the parser with its separator loop computes `Parse` |
| CacheKey.FirstSeparator | network/head_cache.go:43-48 | the loop finds the first position of any separator |
| CacheKey.RoundTrip | network/network.go:1718-1727 | parsing a built key returns its parts if and only if the parts are separated |
| CacheKey.BuildInjective | network/network.go:1718-1727 | different separated requests have different keys |
| CacheKey.OwnsExactlyItsKeys | network/head_watcher.go:406-412 | a watcher claims exactly its own network's keys |
| CacheKey.KeyPathCut | network/head_cache.go:43-61 | the path in any built key is the path it was built from or that path up to one of its colons |
| CacheKey.BeforeMeans | network/head_cache.go:58-61 | the query is what is cut off a path, all of it and nothing else |
| Selectors.ShowRoundTrips | upstream/selector.go:20-48 | exactly the canonical selectors survive being written and read |
| Selectors.ReadTwice | upstream/selector.go:20-48 | every text reads as a canonical selector, so reading what was written of it changes nothing |
| Paths.SlotOrEpoch | network/network.go:62-93 | no path names both a slot and an epoch |
| Paths.SlotPath | network/network.go:62-93 | a slot route followed by a written number names that slot, up to twelve digits, and is never a named slot |
| Paths.SlotRoutes | network/network.go:80-82 | so it is on each of the seven block and state routes |
| Paths.RewardSlots | network/network.go:83-90 | and on the rewards routes of blocks and sync committees |
| Paths.NamesAre | network/network.go:145-166 | on a slot route exactly head, finalized and justified are names |
| Paths.NamedNeverFinalized | network/network.go:145-166 | a path with a named slot is never fixed by finality |
| Paths.FinalizedSlotIs | network/network.go:113-129 | without wrap-around, finality of a slot path is the plain comparison with the epoch's first slot |
| Paths.FinalizedEpochIs | network/network.go:127-128 | an epoch path is final exactly two epochs later |
| Paths.RewardsFinalTwoEpochsLater | network/network.go:168-187 | /eth/v1/beacon/rewards/attestations/N reads as epoch N and is final exactly from epoch N+2 on |
| Paths.FinalityGrows | network/network.go:113-129 | what is final stays final as the epoch grows while its first slot fits in 64 bits |
| Paths.FinalityKeptExactly | network/network.go:113-129 | in general it stays final exactly if it names an epoch or its slot is within the later epoch's wrapped product |
| Paths.WrapLosesFinality | network/network.go:123 | the path /eth/v1/beacon/blocks/1 is final at epoch 1 and not at epoch 2^59 with 32 slots per epoch |
| Paths.ForeverExactlyIfFinal | network/network.go:1035-1038 | under a positive policy a response is kept forever exactly if its path is final |
| Paths.PolicyKept | network/network.go:1039-1057 | what is neither final nor for a named slot is kept as long as its policy says |
| Paths.NamedExpiry | network/network.go:1039-1055 | a named response expires by the end of its slot exactly if it is filled on a whole second or its policy ends by then, and always within a second of it |
| Paths.NamedOutlivesSlot | cache/cache.go:249-254 | an instance where it expires after the end of its slot |
| Paths.CutSegments | network/network.go:62-93 | a path cut at a colon has the same segments but for its last one |
| Paths.CutNamed | network/network.go:145-166 | a path whose cut names a slot is never fixed by finality |
| Paths.CutNumeric | network/network.go:62-129 | a final path whose cut has a numeric slot has that slot itself |
| Permanence.EpochHasStarted | upstream/pool.go:473-498 | in every run the epoch is 0 or its first slot had begun by the wall clock, with ten minutes of tolerance, when it was accepted |
| Permanence.EpochNeverDecreases | upstream/pool.go:473-490 | the epoch never decreases along a run |
| Permanence.AcceptedEpochsCount | upstream/pool.go:473-490 | and it is at least every epoch a finality event or probe offered once the clock had reached it |
| Permanence.PermanentEntriesAreFinal | network/head_watcher.go:417-457 | in every run a never-expiring entry of the store is for a key path or a request path fixed by the current epoch, or its key was filled under a policy that keeps forever |
| Permanence.PermanentSlotsAreFinal | network/network.go:113-129 | for a key filled under expiring policies, by requests whose path has no percent signs (key separators in it or not) and by warm-ups, whatever other keys hold, a permanent numeric slot is at or before E*spe, or before (E-1)*spe for a payload envelope |
| Permanence.NamedNeverPermanent | network/network.go:1035-1057 | and such a key is never permanent if its path is for a named slot |
| Permanence.KeptUnderName | network/network.go:756-760 | a response is kept forever exactly if the decoding of its path is final, under a key with the escaped path up to one of its colons, all of it if the request is separated |
| Permanence.EscapedNameKeptForever | network/network.go:1788-1792 | so once slot 5 is final there is a fill kept forever under a key whose path names the head: the path decodes to block 5 |
| Text.UnescapePlain | network/network.go:1788-1792 | a path without percent signs is its own decoding |
| Text.EscapedByte | network/network.go:1788-1792 | every byte can be written as an escape and decodes to itself |
| Text.ParseDigits | network/network.go:68-77 | a written number is read back exactly if it fits in 64 bits |
| Permanence.FillsKeptForever | cache/cache.go:249-258 | what a fill or a warm-up stores is kept forever exactly if its path is final by then or its policy keeps forever |
| Permanence.NamedFillExpires | cache/cache.go:249-254 | what a fill or a warm-up stores for a named slot expires by the end of its slot under exactly the condition above, and within a second of it |
| Permanence.FinalityPromotes | network/head_watcher.go:434-452 | a finality event drops expired entries and makes permanent exactly the network's live entries whose key path is final now |
| Permanence.HeadEventPurges | network/head_watcher.go:367-378 | after a head event none of the network's named entries is left and every other live entry is |
| Permanence.ReorgPurges | network/head_watcher.go:462-500 | after a reorganisation none of the network's named entries and slots from the reorganised one on is left, and every other live entry is |
| Permanence.ChosenKeys | network/head_watcher.go:402-500 | the keys a head event, a finality event and a reorganisation choose are those of the network whose path is named, final, or named or from the slot on |
| Permanence.IgnoredEvents | network/head_cache.go:90-94 | a warm-up stores only responses to reads of named slots; finality of epoch 0 and reorganisations at slot 0 are ignored |
| Scoring.ScoreTracker.Record | upstream/scoring.go:50-61 | a record goes into the ring, which holds the last samples, and invalidates the snapshot |
| Scoring.ScoreTracker.CurrentSnapshot | upstream/scoring.go:64-72 | kept or computed, the snapshot is that of the last min(count, window) samples alone |
| Scoring.ScoreTracker.ComputeSnapshot | upstream/scoring.go:74-106 | one pass over the ring cells gives the snapshot of the samples in any order |
| Scoring.Percentile | upstream/scoring.go:95-104 | sorting and indexing finds the latency of rank nine tenths, rounded up |
| Scoring.SnapshotUnique | upstream/scoring.go:74-106 | samples determine their snapshot |
| Scoring.RotationKeepsSnapshot | upstream/scoring.go:74-92 | the ring's cell order does not matter |
| Scoring.SnapshotMeans | upstream/scoring.go:74-106 | the error rate is a proportion; nine tenths of the positive latencies are within the reported one, which is one of them, and fewer than nine tenths lie below it |
| Scoring.PositivesAre | upstream/scoring.go:80-90 | the latencies that count are the positive ones of samples that did not fail, each as often as it was recorded |
| Scoring.ErrorsAre | upstream/scoring.go:80-91 | the errors counted are as many as the samples that failed |

## Left out

- HTTP transport, gzip, header copying, body caps, request contexts, request multiplexing and panic recovery: a forwarded request is an arbitrary result with a token; panics are not modelled.
- Whether a path requires archive data and whether an answer looks pruned: arbitrary inputs, since the source decides them by long case tables.
- Token holders outside the dispatch loops: the consensus group requests and the event-stream relay settle tokens too and are not modelled; failure evidence without a token is (`Interleaving.Evidence`).
- Configuration loading and validation: thresholds and attempt limits are at least 1, upstream and network IDs are distinct and free of `:` and `@`, as validation leaves them.
- Counters that only grow (breaker epochs and generations, the round-robin index, the ring position): unbounded integers, so their 64-bit wrap-around is not modelled.
- Redis cache backend, its encoding and scanning; the shared key is compared as integers, while the Redis script compares doubles that are exact only up to 2^53.
- Floating-point rounding: scores, weights, error rates and the percentile index are exact; nothing is claimed about the distribution of random draws.
- Restarts of an instance under a new identity, and messages of other networks, which the subscriber passes to other pools.
- Escaping: the escaped path of a request is given and its path is the decoding; a warm-up's re-parsed path is taken to be the key's.
- Freshness of head entries under concurrent fetches: a fetch in flight can store after a purge, so purges are stated for sequential steps.
- Normalisation of queries for cache keys, content negotiation, glob matching of upstream IDs, the composite score formula, health probes, session affinity, rate limits, authentication, metrics and the dashboard: they would only add easy members.
