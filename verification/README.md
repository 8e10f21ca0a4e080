# rollup-boost: a verified model

A Dafny model of the parts of rollup-boost where a mistake would be hardest to see, with proofs about
every input, every run and, where it matters, every interleaving.

* **Flashblocks.** `FlashblockBuilder` assembles a block from flashblocks; `FlashblocksService` accepts,
  publishes and serves them, one handler at a time; `FlashblocksInterleaving` is the same service with
  every lock acquisition as its own step, and `FlashblocksRaces` says what getPayload takes then;
  `Equivocation` and `InterleavedEquivocation` are about publishing an index twice. `Mirror` is the reader's rule for rebuilding the block,
  `FlashblocksCache` the RPC node's whole cache, and `EndToEnd` joins them to each other and to the server.
* **Engine API multiplexer.** `Engine` holds the client rules, `PayloadTrace` the two-level payload index,
  `Server` the request handlers and `ServerRuns` the claims about whole runs with an adversarial builder,
  mode changes, health checks and cache evictions.
* **Connection limits and fan-out.** `RateLimit` is the in-memory limiter, `RedisRateLimit` the limiter
  shared by many instances through Redis, `RedisTickets` the life of an attempt and `RedisLeaks` what
  that limiter never gives back, `Registry` the
  delivery loop over a broadcast ring.
* **Arithmetic.** `HealthCheck` has the synthetic clock and the verdicts, `Float64` and `Selection` the
  gas comparison in double precision.

Classes hold the state that the source updates in place. Each method is tied by its contract to a
function on values, and the claims about runs are lemmas about those functions. What other programs
answer (the L2 node, the builder, Redis, the clocks) arrives as part of a request or a step, so a claim
"for every run" covers everything they may answer. Raw decoding, hashing, signer recovery and L1 fee
extraction are function parameters (`FlashblocksCache.Chain`).

`dafny verify dfyconfig.toml` checks everything.

## What the proofs found

* With free interleaving of the locks a getPayload request can be given another payload's block.
  `WrongBlockIff` says exactly when: an id write lands while the request is past its check, or while a
  message is past its check and not yet in the builder, or the request passes its check while a builder
  replacement is still to come, and the ids it separates differ. `WrongBlockNeedsRace` has the guards alone,
  and each race has a run (`NewBlockTakenForOld`, `StaleFlashblockTaken`, `OldBlockTakenForNew`). What is
  taken is still always the whole of one epoch.
* The rule "no equivocation" of specs/flashblocks.md can break. With whole handlers `EquivocatesIff` says
  exactly when: an epoch is opened for a payload that already has published flashblocks (by getPayload, which
  keeps the id, by the same fork-choice update again, or by a reply that goes back to the payload) and a
  flashblock accepted in it contradicts a published one. With interleaved locks: two different messages
  were checked under the same current id and written to blocks of the same length
  (`InterleavedEquivocation.EquivocatesIff`), which takes a reset in between.
* If the builder's payload id differs from the computed one, published flashblocks are dropped from the
  block (`RoundTripEnds`).
* With an external state root, fetching a payload id twice panics (`RefetchPanics`); `PanicsIff` says
  exactly when.
* An application-limit refusal leaves the address counter raised for good: enough of them lock an address
  out for ever (`LockedOutForever`), which can happen through exactly those applications whose limit is
  below the instance limit (`LockOutReachable`, `RefusalNeedsRoom`).
* The Redis limiter leaks such counts too, and others when a reply is lost or a DECR fails. Counters are
  exactly holders plus leaks (`Conserved`); leaks lock an address out (`LockedOut`, reachable by
  `RedisLeaks.LockOutReachable`) until a cleanup deletes enough of them (`DeletionReadmitsIff`).
* If a flashblock repeats a transaction hash, the receipt served for that hash changes
  (`ServedReceiptsStable`).
* Deleting the Redis counter of an instance that still holds connections of the address leaves no bound at
  all (`DeletionAdmitsAny`); deletions that hit only idle instances are harmless, and only those are
  (`CoverKeptIff`).
* The synthetic clock loses up to a second per tick, without bound (`DriftAttained`).
* From 9007199254741001 L2 gas on the floating-point selection can differ from the integers
  (`InexactBeyond`); below that it never does.
* A comment in debug_api.rs says that DryRun does not send getPayload requests; the code sends them and
  discards the result. The model follows the code.

## Model

| member | source | states |
|---|---|---|
| FlashblockBuilder.FlashblockBuilder.Extend | crates/rollup-boost/src/flashblocks/service.rs:60-83 | a flashblock is accepted or refused with the source's error; a refusal changes nothing |
| FlashblockBuilder.AcceptsExactlyValid | crates/rollup-boost/src/flashblocks/service.rs:60-83 | checking messages one at a time accepts exactly the runs with indices 0, 1, 2, ... and a base only at index 0, and yields their assembly |
| FlashblockBuilder.RefusedWith | crates/rollup-boost/src/flashblocks/service.rs:60-83 | which error a refused flashblock gets |
| FlashblockBuilder.BuildEnvelopeDescribes | crates/rollup-boost/src/flashblocks/service.rs:92-163 | the envelope of a valid run is, field by field, the block it describes: concatenated transactions and withdrawals, base fields of the first flashblock, roots, gas and hash of the last, the rest blank; MissingDelta cannot occur |
| FlashblocksService.FlashblocksService.SetCurrentPayloadId | crates/rollup-boost/src/flashblocks/service.rs:234-239 | adopts the id and opens a new epoch |
| FlashblocksService.FlashblocksService.OnEvent | crates/rollup-boost/src/flashblocks/service.rs:241-299 | publishes a flashblock exactly when it is accepted for the current id |
| FlashblocksService.FlashblocksService.Run | crates/rollup-boost/src/flashblocks/service.rs:301-306 | an inbound stream is handled in order |
| FlashblocksService.FlashblocksService.GetBestPayload | crates/rollup-boost/src/flashblocks/service.rs:203-232 | serves and consumes the block of the requested id and no other |
| FlashblocksService.FlashblocksService.GetPayload | crates/rollup-boost/src/flashblocks/service.rs:349-378 | the assembled block, or the builder client's in the requested version; the client is sent exactly one getPayload either way |
| FlashblocksService.FlashblocksService.ForkChoiceSent | crates/rollup-boost/src/flashblocks/service.rs:316-320 | an update with attributes adopts the computed id in a new epoch, one without changes nothing |
| FlashblocksService.FlashblocksService.ForkChoiceReplied | crates/rollup-boost/src/flashblocks/service.rs:327-341 | the builder's id wins, and resets the block only if it differs |
| FlashblocksService.PreconfirmationsPreserved | crates/rollup-boost/src/flashblocks/service.rs:203-239 | after any run, what is served is exactly everything published since the last reset, all with the requested id; otherwise MissingPayload |
| FlashblocksService.ServedIs | crates/rollup-boost/src/flashblocks/service.rs:349-378 | after any run, getPayload answers with the block of the epoch, or exactly with what the builder's node said in the requested version |
| FlashblocksService.RoundTrip | crates/rollup-boost/src/flashblocks/service.rs:311-343 | flashblocks arriving during a fork-choice round trip are accepted by the sequence rules and published |
| FlashblocksService.RoundTripEnds | crates/rollup-boost/src/flashblocks/service.rs:327-341 | they stay in the block if and only if the ids agree |
| FlashblocksService.MaxIsLongestServed | crates/rollup-boost/src/flashblocks/service.rs:219-223 | in every run the counter is the length of the longest block a getPayload consumed |
| Equivocation.RepublishesIff | crates/rollup-boost/src/flashblocks/service.rs:203-299 | an index of a payload is published twice exactly when an epoch is opened for a payload with published flashblocks and accepts one |
| Equivocation.EquivocatesIff | crates/rollup-boost/src/flashblocks/service.rs:203-299 | two distinct flashblocks of one index are published exactly when one accepted in such an epoch contradicts an earlier one |
| Equivocation.EquivocationAfterGetPayload | crates/rollup-boost/src/flashblocks/service.rs:216-231 | getPayload reopens the payload it serves |
| Equivocation.EquivocationAfterSameUpdate | crates/rollup-boost/src/flashblocks/service.rs:234-239 | so does the same fork-choice update again |
| InterleavedEquivocation.RepublishesIff | crates/rollup-boost/src/flashblocks/service.rs:254-288 | under every interleaving, an index of a payload is published twice exactly when two messages met the same guards: the same current id at their checks, blocks of the same length at their writes |
| InterleavedEquivocation.EquivocatesIff | crates/rollup-boost/src/flashblocks/service.rs:254-288 | two distinct ones are published exactly when such messages differ |
| InterleavedEquivocation.RepeatNeedsReset | crates/rollup-boost/src/flashblocks/service.rs:63-83 | the builder was emptied between their writes |
| FlashblocksInterleaving.EndToEndMirror | crates/rollup-boost/src/flashblocks/service.rs:278-288 | under every interleaving, mirroring any prefix of the published stream never fails and equals the service's assembly just after accepting its last message |
| FlashblocksInterleaving.LossyEndToEnd | crates/rollup-boost/src/flashblocks/outbound.rs:190-209 | if only messages other than index 0 are lost or fail, the mirror is a nonempty prefix of the epoch whose index 0 was published last |
| FlashblocksInterleaving.OnePerIndex | crates/rollup-boost/src/flashblocks/service.rs:63-77 | an epoch accepts consecutive indices, each once |
| FlashblocksInterleaving.AtomicRunsIncluded | crates/rollup-boost/src/flashblocks/service.rs:203-299 | every run of atomic handlers is an interleaving of lock steps |
| FlashblocksRaces.TakenBlockIsEpoch | crates/rollup-boost/src/flashblocks/service.rs:217-229 | under every interleaving a taken block is everything accepted in one epoch, taken once, and its envelope is that block; MissingDelta cannot occur |
| FlashblocksRaces.WrongBlockIff | crates/rollup-boost/src/flashblocks/service.rs:203-299 | under every interleaving, a block taken for one payload has a flashblock of another exactly when an id write raced with the request's check and take, with a message's check and builder write, or with a builder replacement still to come |
| FlashblocksRaces.WrongBlockNeedsRace | crates/rollup-boost/src/flashblocks/service.rs:209-276 | a wrong block needs a step that exposes the request: an id write while a message or the request is past its check, or the check passing with a replacement to come |
| FlashblocksRaces.ExactlyTheseBreak | crates/rollup-boost/src/flashblocks/service.rs:234-278 | outside an update under way, the block stops being of the current payload exactly by the builder write of an overtaken message |
| FlashblocksRaces.StaleFlashblockTaken | crates/rollup-boost/src/flashblocks/service.rs:254-278 | an update between a message's id check and its builder write |
| FlashblocksRaces.NewBlockTakenForOld | crates/rollup-boost/src/flashblocks/service.rs:209-218 | an update between a request's id check and its take |
| FlashblocksRaces.OldBlockTakenForNew | crates/rollup-boost/src/flashblocks/service.rs:234-239 | a request between an update's id write and its builder replacement |
| Mirror.MirrorTracks | crates/flashblocks-rpc/src/cache.rs:159-163 | mirroring a well-sequenced stream never fails and yields the block of the last message |
| Mirror.LossyMirror | crates/flashblocks-rpc/src/cache.rs:159-163 | under loss the mirror holds the last block exactly up to the first loss |
| FlashblocksCache.CountNonces | crates/flashblocks-rpc/src/cache.rs:180-188 | the loop computes the per-sender counts |
| FlashblocksCache.CacheInner.StoreReceipts | crates/flashblocks-rpc/src/cache.rs:211-246 | running gas and log counters give each transaction its own share |
| FlashblocksCache.CacheInner.ProcessPayload | crates/flashblocks-rpc/src/cache.rs:150-262 | the in-place update does what the whole-state function says, with its failures and panics |
| FlashblocksCache.FlashblocksCache.ProcessPayload | crates/flashblocks-rpc/src/cache.rs:68-73 | a message takes full effect or none, and the previous state stays readable unchanged |
| FlashblocksCache.AlwaysRecomputed | crates/flashblocks-rpc/src/cache.rs:142-262 | every reachable state is the recomputation of block, nonces, receipts and balances from the messages of the pending block |
| FlashblocksCache.CacheAgrees | crates/flashblocks-rpc/src/cache.rs:180-249 | nonces count and add up to the block's transactions, receipts cover exactly them and name the current block, all signers recover |
| FlashblocksCache.PendingBlockDescribed | crates/flashblocks-rpc/src/cache.rs:159-178 | in every run the pending block is exactly the one its messages describe, with all header fields, hashed and decoded |
| FlashblocksCache.ServedReceiptIs | crates/flashblocks-rpc/src/cache.rs:191-246 | in every run a served receipt is what the last message said for its own hash, at the last transaction with that hash, with its own gas, logs and block |
| FlashblocksCache.OutcomeIff | crates/flashblocks-rpc/src/cache.rs:150-262 | in every run, exactly when a message takes effect, when it panics and when it fails |
| FlashblocksCache.BalancesAreLatest | crates/flashblocks-rpc/src/cache.rs:251-259 | in every run an account's cached balance is the last one any message of the pending block reported, and no other account has one |
| FlashblocksCache.GasTelescopes | crates/flashblocks-rpc/src/cache.rs:211-237 | per-transaction gas adds up to the cumulative value at every prefix if cumulative gas never falls |
| FlashblocksCache.GasTelescopesOnlyIf | crates/flashblocks-rpc/src/cache.rs:231-236 | and only then |
| FlashblocksCache.LogRangesPartition | crates/flashblocks-rpc/src/cache.rs:212-237 | every log index below the total belongs to exactly one transaction |
| FlashblocksCache.ServedArithmetic | crates/flashblocks-rpc/src/cache.rs:211-246 | in every run, for a pending block with distinct hashes, served gas adds up to the served cumulative gas and served log indices partition the block's logs |
| FlashblocksCache.ServedReceiptsStable | crates/flashblocks-rpc/src/cache.rs:191-246 | in any run, a continuing flashblock that repeats earlier receipts leaves a served receipt the same but for the block it names, exactly when it adds no transaction with that hash |
| FlashblocksCache.CacheMirrors | crates/flashblocks-rpc/src/cache.rs:150-168 | the whole cache with all its failures mirrors the stream as the bare rule does |
| EndToEnd.PendingBlockIsPrefixOfEpoch | crates/flashblocks-rpc/src/cache.rs:68-73 | service locks to RPC cache under loss: the pending block is a prefix of one epoch |
| EndToEnd.PendingBlockIsServiceBlock | crates/flashblocks-rpc/src/cache.rs:159-168 | without loss it equals the service's own block |
| EndToEnd.PreconfirmationsReachConsensus | crates/rollup-boost/src/server.rs:262-355 | a builder-sourced payload from a flashblocks service is the published epoch, or the payload L2 returned for rebuilding exactly its transactions on the remembered state |
| PayloadTrace.PayloadTraceContext.Store | crates/rollup-boost-types/src/payload.rs:262-289 | records the entry and lists the id under its parent |
| PayloadTrace.PayloadTraceContext.RemoveByParentHash | crates/rollup-boost-types/src/payload.rs:323-329 | the loop forgets exactly the listed ids |
| PayloadTrace.PayloadTraceContext.TraceIdsFromParentHash | crates/rollup-boost-types/src/payload.rs:291-306 | the trace ids of the listed payloads, in order |
| PayloadTrace.IndexIsLog | crates/rollup-boost-types/src/payload.rs:262-329 | with any evictions, an id's entry is its last store's, gone exactly when it was evicted or a parent it was listed under was removed since |
| PayloadTrace.ParentListIs | crates/rollup-boost-types/src/payload.rs:262-289 | the list of a parent is exactly the ids stored under it since it was last removed or evicted, in order |
| PayloadTrace.TraceIdsAre | crates/rollup-boost-types/src/payload.rs:291-306 | a lookup by parent gives the trace ids of exactly those listed ids that have one, in order |
| PayloadTrace.NeverStale | crates/rollup-boost-types/src/payload.rs:315-321 | an entry is always that of the most recent store |
| Engine.ClientFcu | crates/rollup-boost/src/client/rpc.rs:156-180 | an INVALID answer becomes an error, any other is passed on |
| Engine.ClientNewPayload | crates/rollup-boost/src/client/rpc.rs:228-239 | likewise for newPayload |
| Engine.ClientGetPayload | crates/rollup-boost/src/client/rpc.rs:263-276 | the node's own envelope or error in the version asked for, unchanged |
| Server.RollupBoostServer.ForkChoiceUpdatedV3 | crates/rollup-boost/src/server.rs:527-632 | new state, calls made and answer of a fork-choice update on every path |
| Server.RollupBoostServer.NewPayloadReceived | crates/rollup-boost/src/server.rs:195-222 | new state, calls made and answer of newPayload |
| Server.RollupBoostServer.CalculateExternalStateRoot | crates/rollup-boost/src/server.rs:394-452 | takes the remembered request and has L2 rebuild the builder's transactions |
| Server.RollupBoostServer.GetPayloadVersioned | crates/rollup-boost/src/server.rs:224-388 | new state, calls made, answer and source of getPayload with its separate mode reads |
| Server.RollupBoostServer.GetPayloadV3 | crates/rollup-boost/src/server.rs:647-661 | a V3 envelope or L2's error; the version error is unreachable |
| Server.RollupBoostServer.GetPayloadV4 | crates/rollup-boost/src/server.rs:697-711 | likewise for V4 |
| Server.AnswerVersion | crates/rollup-boost/src/server.rs:224-388 | every returned payload has the requested version, for RPC and flashblocks builders and every fallback |
| ServerRuns.AlwaysFaithful | crates/rollup-boost/src/server.rs:590-602 | in every run the remembered requests are exactly those not taken since, and a recorded builder payload has had one |
| ServerRuns.RecordedIff | crates/rollup-boost/src/server.rs:548-587 | in every run the index has a builder payload exactly when the history says so: last recorded with the builder building, not evicted or imported over since |
| ServerRuns.PanicsIff | crates/rollup-boost/src/server.rs:400-400 | the lookup fails exactly when the builder answered and an earlier fetch already took the request |
| ServerRuns.UnwrapSafe | crates/rollup-boost/src/server.rs:400-400 | it never fails if no id is fetched twice without another update being remembered |
| ServerRuns.RefetchPanics | crates/rollup-boost/src/server.rs:394-400 | fetching twice does panic |
| ServerRuns.L2AlwaysDecides | crates/rollup-boost/src/server.rs:195-388 | in every run every answer is what the L2 node itself said: getPayload succeeds exactly when L2 delivered, an L2-sourced payload is L2's envelope, health is ServiceUnavailable afterwards exactly when L2 failed |
| ServerRuns.Provenance | crates/rollup-boost/src/server.rs:262-355 | a builder-sourced payload was held by the builder by the run's history, allowed at both mode reads, and accepted by L2 as a whole or rebuilt by L2 from the remembered request |
| ServerRuns.RecordedMeans | crates/rollup-boost/src/server.rs:573-597 | what that history means: a pool-allowing update that L2 started and the builder answered, the last for its id |
| ServerRuns.BuilderChosenIff | crates/rollup-boost/src/server.rs:319-364 | in every run, exactly when the builder's block is returned, by modes, history, L2's approval and policy, and which block that is |
| ServerRuns.HealthReported | crates/rollup-boost/src/server.rs:319-363 | in every run, the health getPayload leaves, for every combination of failures and a panic |
| ServerRuns.ImportEndsPayload | crates/rollup-boost/src/server.rs:211-213 | after a block is imported on a parent the builder is not asked for a payload started on it until an update records that payload again |
| ServerRuns.GasPolicyRespected | crates/rollup-boost/src/server.rs:349-355 | under the gas policy a returned builder block uses at least a tenth of L2's gas, up to the exact limit |
| ServerRuns.QuietBuilder | crates/rollup-boost/src/server.rs:390-392 | an unhealthy builder with nothing recorded is not called, and Healthy not restored, until a health check does |
| ServerRuns.DisabledIsQuiet | crates/rollup-boost/src/server.rs:231-260 | a server that stays Disabled never calls the builder's engine API |
| ServerRuns.BuilderCalledIff | crates/rollup-boost/src/server.rs:215-284 | exactly which requests reach the builder, with the arguments of the request itself (fork-choice updates: lines 537-619) |
| ServerRuns.BuilderAskedIff | crates/rollup-boost/src/server.rs:262-282 | in every run, getPayload asks the builder exactly when the mode allows it and the builder holds the payload by the history |
| ServerRuns.L2CalledWith | crates/rollup-boost/src/server.rs:215-452 | what L2 is sent: every update and block as it came, exactly once, and the calls of getPayload in order with their contents |
| Selection.SelectionIsExact | crates/rollup-boost/src/selection.rs:24-35 | up to 9007199254741000 L2 gas the double-precision test is exactly the integer one |
| Selection.TenthIsNearest | crates/rollup-boost/src/selection.rs:29-30 | the constant is the double nearest to 0.1 |
| Selection.SelectionMargin | crates/rollup-boost/src/selection.rs:24-35 | for any gas it decides as the integers do outside one part in 2^50 |
| Selection.InexactBeyond | crates/rollup-boost/src/selection.rs:25-30 | at the next gas value it differs, so the limit is tight |
| Selection.BuilderCastLoses | crates/rollup-boost/src/selection.rs:25-30 | a pair on which only the cast of the builder's gas makes it differ |
| Float64.RoundIsNearestEven | crates/rollup-boost/src/selection.rs:25-30 | the rounding used is round to nearest, ties to even |
| HealthCheck.MonotonicTimestamp.Tick | crates/rollup-boost/src/health.rs:150-155 | advances by whole seconds and restarts the reference |
| HealthCheck.ClockIs | crates/rollup-boost/src/health.rs:150-155 | after any ticks the synthetic time is exactly the start plus the whole seconds between readings |
| HealthCheck.HealthHandle.Check | crates/rollup-boost/src/health.rs:54-108 | the verdict of one round, with its separate mode reads |
| HealthCheck.HealthHandle.Spawn | crates/rollup-boost/src/health.rs:47-112 | health and clock after any number of rounds |
| HealthCheck.Drift | crates/rollup-boost/src/health.rs:138-155 | the synthetic time is never ahead and behind by less than n + 1 seconds plus reading gaps |
| HealthCheck.DriftAttained | crates/rollup-boost/src/health.rs:150-155 | that bound is reached for every n |
| HealthCheck.Monotone | crates/rollup-boost/src/health.rs:115-122 | the synthetic time never goes back |
| HealthCheck.StaleInRealTime | crates/rollup-boost/src/health.rs:62-63 | no block is called stale early, and any block older than the limit by the drift is |
| HealthCheck.VerdictInRealTime | crates/rollup-boost/src/health.rs:54-108 | the reported health against the real age of L2's and the builder's blocks, for every combination of mode reads |
| RateLimit.InMemoryRateLimit.TryAcquire | crates/websocket-proxy/src/rate_limit.rs:75-131 | counters and result of an attempt, including the count an application refusal leaves behind |
| RateLimit.InMemoryRateLimit.ReleaseTicket | crates/websocket-proxy/src/rate_limit.rs:133-179 | counters after a drop, and when the underflow branches are taken |
| RateLimit.InMemoryRateLimit.DropTicket | crates/websocket-proxy/src/rate_limit.rs:28-32 | a whole drop: counters, then the permit |
| RateLimit.AlwaysAccurate | crates/websocket-proxy/src/rate_limit.rs:75-180 | in every run the counters are exactly permits, live tickets per application, and live tickets plus application refusals per address |
| RateLimit.NoUnderflow | crates/websocket-proxy/src/rate_limit.rs:139-168 | dropping a live ticket never underflows |
| RateLimit.AdmittedIff | crates/websocket-proxy/src/rate_limit.rs:82-119 | who is admitted, in terms of connections and refusals |
| RateLimit.AnsweredWith | crates/websocket-proxy/src/rate_limit.rs:75-131 | which refusal or ticket an attempt gets, in terms of connections and refusals |
| RateLimit.LockedOutForever | crates/websocket-proxy/src/rate_limit.rs:104-118 | leaked counts are permanent |
| RateLimit.LockOutReachable | crates/websocket-proxy/src/rate_limit.rs:104-118 | for every application whose limit is below the instance limit, a run that locks an address out for ever without a connection of its own |
| RateLimit.RefusalNeedsRoom | crates/websocket-proxy/src/rate_limit.rs:108-118 | no other application ever refuses |
| RateLimit.ExactWithoutRefusals | crates/websocket-proxy/src/rate_limit.rs:75-180 | without application refusals address counters are exact and an idle limiter is empty |
| RedisRateLimit.ScanTotal | crates/websocket-proxy/src/rate_limit.rs:491-494 | the scan adds up what is readable, negative values as zero |
| RedisRateLimit.IpOvershoot | crates/websocket-proxy/src/rate_limit.rs:476-514 | stored total plus pending attempts stay below limit plus peak pending, under every interleaving, failure and deletion |
| RedisRateLimit.AppOvershoot | crates/websocket-proxy/src/rate_limit.rs:516-555 | likewise for applications |
| RedisRateLimit.CoverKeptIff | crates/websocket-proxy/src/rate_limit.rs:382-417 | counters stop covering the connections exactly by a deletion that hits an instance still holding one |
| RedisRateLimit.AlwaysCoveredIff | crates/websocket-proxy/src/rate_limit.rs:382-417 | over a run: exactly when every deletion hits an idle instance |
| RedisRateLimit.ConnectionBound | crates/websocket-proxy/src/rate_limit.rs:476-626 | open connections obey the bound while deletions hit only idle instances |
| RedisRateLimit.AppConnectionBound | crates/websocket-proxy/src/rate_limit.rs:516-626 | likewise for applications |
| RedisRateLimit.OvershootAttained | crates/websocket-proxy/src/rate_limit.rs:496-502 | the bound is reached for every limit and every number of overlapping attempts |
| RedisTickets.BegunIff | crates/websocket-proxy/src/rate_limit.rs:476-514 | an attempt begins exactly when the address has room; without an address limit nothing is counted |
| RedisTickets.AttemptStep | crates/websocket-proxy/src/rate_limit.rs:504-555 | exactly which steps move an attempt on and which end it |
| RedisTickets.TicketIff | crates/websocket-proxy/src/rate_limit.rs:543-575 | exactly which steps grant a ticket, with what contents, and end one |
| RedisTickets.TicketHistory | crates/websocket-proxy/src/rate_limit.rs:436-575 | in every run a connection goes back to one attempt with its instance, address and application, granted later |
| RedisTickets.UnlistedNever | crates/websocket-proxy/src/rate_limit.rs:537-542 | an application without a limit of its own is never admitted |
| RedisTickets.NoLimitNoCounters | crates/websocket-proxy/src/rate_limit.rs:476-480 | without an address limit no address is ever counted |
| RedisTickets.AppOvershootAttained | crates/websocket-proxy/src/rate_limit.rs:516-555 | for every application limit and every number of overlapping attempts, a run that reaches the bound |
| RedisRateLimit.DeletionAdmitsAny | crates/websocket-proxy/src/rate_limit.rs:382-417 | deleting a live instance's counter admits any number of connections, whatever the limit |
| RedisLeaks.Conserved | crates/websocket-proxy/src/rate_limit.rs:476-626 | in every run a counter is exactly the connections and attempts it stands for plus what was leaked since its last deletion |
| RedisLeaks.LockedOut | crates/websocket-proxy/src/rate_limit.rs:496-514 | once leaks reach the limit the address is refused by every instance until one of its counters is deleted |
| RedisLeaks.LockOutReachable | crates/websocket-proxy/src/rate_limit.rs:504-555 | refusals by an application alone lead there, without any connection |
| RedisLeaks.DeletionReadmitsIff | crates/websocket-proxy/src/rate_limit.rs:382-417 | a deletion ends it exactly when the counters left are below the limit |
| Registry.Broadcast.Send | crates/websocket-proxy/src/registry.rs:14-19 | the ring keeps the last messages in their slots |
| Registry.Broadcast.Receive | crates/websocket-proxy/src/registry.rs:51-75 | reading the ring is reading the whole stream at a position, or a lag or close report |
| Registry.Subscribe | crates/websocket-proxy/src/registry.rs:36-89 | the delivery loop over the ring does what the session function over the whole stream says |
| Registry.GapFree | crates/websocket-proxy/src/registry.rs:49-83 | deliveries are a contiguous slice from the subscription on, with what each ending implies |
| Registry.EndedIff | crates/websocket-proxy/src/registry.rs:50-83 | in every run, exactly which event ends a client's loop and for which cause |
| Registry.DeliveredIs | crates/websocket-proxy/src/registry.rs:50-65 | in every run, exactly one message of the stream per turn whose write succeeds, from the subscription on |
| Registry.CatchesUp | crates/websocket-proxy/src/registry.rs:49-65 | a client within a ring of the stream whose writes succeed receives everything sent since it subscribed and stays connected |
| Registry.EachIsASession | crates/websocket-proxy/src/registry.rs:36-89 | in every run of one ring with any number of clients, each client's session is its own delivery loop over what it saw since it joined |
| Registry.ClientsAgree | crates/websocket-proxy/src/registry.rs:49-83 | so any two clients received the same message at every position both received |

## Left out

- SelectionIsExact: stops at 9007199254741000 L2 gas, because the test is wrong at the next value (`InexactBeyond`); `SelectionMargin` covers every value.
- IpOvershoot: reads the total of an address in one step; the source reads the keys one after another. Semaphores of the instances are not modelled, so more attempts may start than in the source.
- AppOvershoot: likewise reads the total of an application in one step.
- ConnectionBound: rests on IpOvershoot and its one-step total.
- AppConnectionBound: rests on AppOvershoot likewise.
- QuietBuilder: takes requests one after another; a getPayload that overlaps another request shows Healthy for a moment before it sets PartialContent.
- UnwrapSafe: takes a fork-choice update as one step; the source stores the trace entry before it remembers the request.
- LossyEndToEnd: assumes that index-0 messages are processed; without them the cache gives no guarantee, since it does not compare payload ids.
- Spawn: any finite number of rounds of the endless loop; sleeping is not modelled.
- Broadcast: the capacity is used as given, where the library rounds it up to a power of two.
- Gas in receipts wraps at 64 bits as in a release build; other 64-bit counters (indices, seconds, gas) are unbounded.
- HTTP and JSON-RPC plumbing, authentication, the proxy and probe layers: no hard properties; only the rule that INVALID becomes an error is kept.
- WebSocket connection management, ping and pong, backoff: driven by timers and libraries.
- The contents of a built receipt, and the cache's getters and transaction formatting: easy once the cached values are right.
- Parsing of Redis key strings: keys are structured by kind, subject and instance; heartbeats only decide which counters may be deleted, and any may be here.
- Metrics, tracing spans, command line, debug server.
