# cursor-proxy verification

A Dafny model of the algorithmic cores of the cursor-proxy gateway, with proofs of what they are for.
`dafny verify dfyconfig.toml` checks the whole project.

| file | component |
|---|---|
| `Requests.dfy`, `Sessions.dfy`, `SessionLaws.dfy` | request streams and their cutting into online periods |
| `Lanes.dfy`, `LaneTime.dfy`, `Aggregates.dfy` | concurrency lanes, lane time against online time, aggregation per dimension |
| `ConnectFrames.dfy` | the Connect frame printer and the incremental decoder |
| `Pacing.dfy` | the token bucket shared by the streams of a card |
| `CardReservations.dfy`, `LaneGate.dfy`, `FaceRecovery.dfy` | quota card holds and settlements, the lane counter, the durable balance |
| `LedgerWriter.dfy` | the billing ledger's producers, writer thread and table |
| `Dialects.dfy` | Anthropic turns to Chat messages to Cursor messages |
| `Routing.dfy` | model families and variant routing |
| `RpmWindow.dfy` | the sliding-window request counter |
| `Pool.dfy` | account acquisition and quarantine |
| `ProxyUrl.dfy`, `ProxyBinding.dfy` | the proxy URL codec and proxy binding with capacities |

Loops and objects of the source are methods and classes whose postconditions tie them to functions; the
laws are lemmas about those functions. Pieces that several threads share (card holds, the lane counter,
the durable balance, the ledger) are state machines whose steps are the individual atomic operations, and
their laws hold for every interleaving. Clocks, hashing, gzip, JSON and database failures are parameters.

Where the source and its comments disagree, the model follows the source:

- `src/analytics.rs:12` says the lane count is the peak instantaneous concurrency. A request of length zero
  inside a busy moment needs a lane of its own, so the count can be one higher; `Lanes.LaneCountVersusPeak`
  gives the exact condition and `Lanes.InstantNeedsItsOwnLane` an instance.
- `src/cards.rs:2198-2199` says concurrent admissions see each other's holds. Reading the balance, reading the
  hold counter and adding the hold are separate steps, and so are a settlement's release and its charge.
  `CardReservations.RacingAdmissions`, `CardReservations.RacingSettlement` and
  `CardReservations.SettlementBetweenReads` give the exact condition for each of the three windows, and
  `CardReservations.EveryRunBounded` what all of them together can cost.
- `src/cards.rs:1310-1311` writes the new total to keep the database in step with memory, but the write
  happens after the card's lock is released; `FaceRecovery.ReloadExact` says exactly which schedules lose a
  charge, and `FaceRecovery.SwappedWritesLoseACharge` what a swap of two writes costs.
- `src/cards.rs:2001-2026` gives a queued request's hold back on a timeout, but not when the waiting future is
  dropped; `CardReservations.LeakLocksCard` says exactly when such leaks make a card useless, and
  `CardReservations.OneDisconnectLocks` that one is enough.
- `src/pool.rs:651-653` says an ineligible account does not recover by itself; `Pool.AutoDisableRevivesIneligible`
  shows that it does after an automatic disable, and `Pool.ManualStaysDisabled` exactly when it does.
- `src/models.rs:739-765` looks for a cheaper name of the same family and suffix; `Routing.RepriceIsIdle` shows
  that there is never another one.

## Model

| member | source | states |
|---|---|---|
| `Requests.ReqFromRow` | src/analytics.rs:515-547 | a ledger row becomes a request that ends at the booking time and lasts the non-negative latency |
| `Requests.SortRequests` | src/analytics.rs:134-135 | the loop sorts by (start, end), keeps exactly the given requests, and keeps requests with equal keys in their order |
| `Requests.SumPermutes` | src/analytics.rs:132-135 | totals over a stream do not depend on the order it arrives in |
| `Sessions.AutoGap` | src/analytics.rs:112-130 | the adaptive gap always lies between five and thirty minutes |
| `SessionLaws.AutoGapFollowsMedian` | src/analytics.rs:112-130 | with three samples or more the adaptive gap is three times a median of the gaps between starts under an hour, clamped to five and thirty minutes |
| `SessionLaws.RhythmCounts` | src/analytics.rs:117-122 | the samples are the steps between neighbouring starts that take some time and less than an hour, each as often as it occurs |
| `SessionLaws.AdaptiveGap` | src/analytics.rs:112-137 | without a given gap the periods are those of ten minutes with fewer than three samples, otherwise of three medians between five and thirty minutes |
| `Sessions.CutPeriods` | src/analytics.rs:138-154 | the in-place loop over sorted requests builds exactly the periods of the specification |
| `Sessions.Sessionize` | src/analytics.rs:133-156 | sorting, gap choice and cutting together give the periods of the unsorted stream and the gap used |
| `Sessions.OpenPeriod` | src/analytics.rs:141-146 | the period being extended always ends at the latest end seen so far |
| `Sessions.GrowthIsExact` | src/analytics.rs:139-154 | what one more request adds to online time and to the number of periods, in terms of the latest end alone |
| `SessionLaws.OrderIndependent` | src/analytics.rs:132-137 | two listings of the same requests give identical periods, also with the adaptive gap |
| `SessionLaws.PeriodsConserve` | src/analytics.rs:139-154 | request count and face value are conserved, periods are more than the gap apart, every request lies in one |
| `SessionLaws.PeriodsAreTight` | src/analytics.rs:139-154 | every period starts with the start of some request and ends with the end of some request |
| `SessionLaws.PeriodsAreComponents` | src/analytics.rs:7-8 | two requests share a period if and only if a chain of requests, each within the gap of the next, joins them |
| `SessionLaws.WiderGapCoarsens` | src/analytics.rs:132-156 | a larger gap never splits a period, never adds one, never lowers online time |
| `Lanes.BestFit` | src/analytics.rs:166-171 | the chosen lane is free and no free lane became free later; none is chosen exactly when all are busy |
| `Lanes.FindLane` | src/analytics.rs:166-171 | the scanning loop finds that lane |
| `Lanes.AssignLanes` | src/analytics.rs:160-184 | the loop over sorted requests with its two tables computes the specified assignment |
| `Lanes.LanesAreOptimal` | src/analytics.rs:158-184 | the lanes hold exactly the given requests, each lane without overlap; as many requests overlap pairwise as there are lanes; no overlap-free partition has fewer lanes |
| `Lanes.LaneCountVersusPeak` | src/analytics.rs:11-12 | the lane count is the peak instantaneous concurrency or one more, and equals it if and only if no instantaneous request falls strictly inside a moment of peak concurrency |
| `Lanes.InstantNeedsItsOwnLane` | src/analytics.rs:11-12 | every request with an instantaneous one strictly inside it has peak concurrency 1 and needs two lanes |
| `LaneTime.KeyOnlineAndLanes` | src/analytics.rs:187-202 | online time, period count, lane time and lane count of a stream, lanes cut with the gap of the whole |
| `LaneTime.LaneGrowthCoversStream` | src/analytics.rs:158-171 | best fit makes the chosen lane grow at least as much as the whole stream |
| `LaneTime.LanesDominated` | src/analytics.rs:186-202 | up to a lane's last activity the stream was online at least as long as the lane, at every prefix |
| `LaneTime.KeyUseBounds` | src/analytics.rs:13-18 | busy time is at most lane time, and online time is at most lane time is at most lanes times online time, for every stream and gap |
| `Aggregates.FillBuckets` | src/analytics.rs:427-439 | the nested loop files every request under each dimension value and its own key |
| `Aggregates.SumTable` | src/analytics.rs:441-453 | the per-key loop adds up requests, times and the largest lane count |
| `Aggregates.Aggregate` | src/analytics.rs:423-457 | one summary per dimension value that occurs |
| `Aggregates.AggregateExact` | src/analytics.rs:427-455 | from the requests tagged with a value alone: online time, periods and lane time are the sums over its keys of the key's periods and of its lanes' periods; users is the number of keys and errors the number of requests without status 200 |
| `Aggregates.PeakExact` | src/analytics.rs:450-450 | the reported peak is the largest lane count of any key among those requests |
| `Aggregates.AverageExact` | src/analytics.rs:377-380 | the average is reported from 4 ms of online time on, and times online time it is lane time |
| `Aggregates.AverageWithinPeak` | src/analytics.rs:377-380 | summed over all keys, busy <= lane time and average concurrency lies between 1 and the peak whenever it is reported |
| `Aggregates.PeakIsLargest` | src/analytics.rs:450-450 | the reported peak is the lane count of some key and of no key exceeded |
| `Aggregates.AggregateConserves` | src/analytics.rs:423-457 | keys are distinct and own their requests; request count, face value and busy time are those of the requests tagged with the value |
| `ConnectFrames.Be32RoundTrip` | src/cursor.rs:193-199 | the big-endian length field reads back as written |
| `ConnectFrames.FrameStream.PollNext` | src/cursor.rs:710-780 | the polling loop over buffer and body does one step of the specified decoder |
| `ConnectFrames.PollAgrees` | src/cursor.rs:710-780 | one poll consumes and returns what decoding the remaining concatenated bytes would, and never hits the buffer limit with chunks up to 65,532 bytes |
| `ConnectFrames.ChunkingIsInvisible` | src/cursor.rs:697-780 | polling to the end gives the result of decoding the concatenated bytes at once, whatever the chunk boundaries and waits |
| `ConnectFrames.SameBytesSameItems` | src/cursor.rs:697-780 | two bodies with the same bytes and the same ending give the same items and errors |
| `ConnectFrames.LongerChunksFail` | src/cursor.rs:176-178 | 65,532 is exact: every longer chunk overflows the buffer after some stream of safe chunks |
| `ConnectFrames.BodyMeans` | src/cursor.rs:710-780 | envelopes, compressed or not, corrupt ones among them, arrive one by one and in order under any safe chunking, a corrupt one as its decode error, and then whatever the rest of the body gives |
| `ConnectFrames.EnvelopesRoundTrip` | src/cursor.rs:193-199 | a complete body of concatenated envelopes decodes to what the frames mean and then the end |
| `ConnectFrames.TruncatedBodyFails` | src/cursor.rs:760-778 | a body that breaks off inside a frame delivers every frame before it and then the error for a partial frame, or the transport's own |
| `ConnectFrames.OversizedFrameFails` | src/cursor.rs:176-178 | a frame that announces more than 16 MiB ends the stream with an error that names its size |
| `ConnectFrames.PlainPayloadsAllArrive` | src/cursor.rs:710-780 | non-empty uncompressed payloads up to 16 MiB, printed and sent in any safe chunks, each arrive exactly once, in order, and then the end |
| `Pacing.TokenPacer.Admit` | src/cards.rs:2784-2805 | the bucket update with idle resync, and the wait capped at five seconds |
| `Pacing.StepFacts` | src/cards.rs:2784-2805 | the running total after a frame against the clock, and the wait it asks for as what the clock needs to catch up |
| `Pacing.TotalIsGreatest` | src/cards.rs:2784-2805 | the running total is the maximum over all calls i of the clock's share up to call i plus the tokens of the calls from i on |
| `Pacing.WaitExact` | src/cards.rs:2784-2805 | in every run a frame is let go after exactly the greatest excess of any stretch of calls that ends with it over tps per second and one second's worth, divided by tps, and after five seconds at the latest |
| `Pacing.WaitsIff` | src/cards.rs:2784-2805 | so it waits if and only if some such stretch has an excess |
| `Pacing.RateBoundWithCap` | src/cards.rs:2714-2805 | for every run, the tokens released in any window [a, b] are at most tps*(b-a) plus a second's worth or the window's first frame, plus tps for every second by which what the cap forgives grew from the window's first frame to its last |
| `Pacing.RateBound` | src/cards.rs:2714-2720 | the plain bound for every window over which the cap's forgiveness does not grow, after any idle time and whatever happened before |
| `Pacing.CapBreaksTheRate` | src/cards.rs:2801-2804 | for every rate and two frames of any sizes offered at once, the plain bound fails if and only if the first frame alone exhausts the cap and the second carries anything |
| `Pacing.CapBoundIsTight` | src/cards.rs:2801-2804 | and whenever it fails there the bound with the cap is met exactly |
| `CardReservations.StepAccounted` | src/cards.rs:2676-2703 | every atomic step of admit (two reads and an add), lane timeout, disconnect, settlement and drop keeps hold and balance equal to the sums over requests |
| `CardReservations.EveryRunAccounted` | src/cards.rs:2013-2028 | in every interleaving the hold counter equals the outstanding holds, the balance is the initial one plus each charge once, and no release underflows |
| `CardReservations.ChargedForGood` | src/cards.rs:2322-2326 | a settled or abandoned request is never charged again, and a leaked hold never comes back |
| `CardReservations.RequestIsCharged` | src/cards.rs:2200-2239 | on any card with room a request is admitted with the smaller of estimate and room, gets its permit, and its settlement spends exactly the charge and leaves nothing of it held |
| `CardReservations.RequestIsUndone` | src/cards.rs:2013-2028 | a request that times out or is dropped leaves the card as it was; one that disconnects in the queue leaves its hold behind |
| `CardReservations.FullCardRejects` | src/cards.rs:2203-2221 | a card without room takes on nothing |
| `CardReservations.EveryRunBounded` | src/cards.rs:2200-2239 | in every interleaving, spent plus held exceeds the face value by at most the overruns plus, per admitted request, the smaller of its hold and the interference its admission met, counted from the schedule |
| `CardReservations.UndisturbedBound` | src/cards.rs:2200-2239 | in any run whose admitted requests met no interference only overruns exceed the face value |
| `CardReservations.NeverOvercommitted` | src/cards.rs:2200-2239 | the case without interleaving: operations taken one at a time meet no interference, so spent plus held exceeds the face value by at most the charges that outran their holds |
| `CardReservations.RacingAdmissions` | src/cards.rs:2200-2239 | two admissions that both read before either adds stay within the face value if and only if one asks for nothing or both fit into the room each saw |
| `CardReservations.RacingSettlement` | src/cards.rs:2284-2335 | an admission between a settlement's release and its charge: what the card ends at, and exactly when that is beyond the face value, for every hold, charge and estimate |
| `CardReservations.SettlementBetweenReads` | src/cards.rs:2143-2203 | a whole settlement between the two reads of an admission has exactly the same effect |
| `CardReservations.LeakLocksCard` | src/cards.rs:2001-2026 | a client that disconnects while queued leaks its hold: some continuation admits a later request if and only if leaked and spent stay below the face value |
| `CardReservations.OneDisconnectLocks` | src/cards.rs:2001-2026 | the first request of a card locks it by disconnecting while queued if and only if its estimate covers what was left |
| `LaneGate.EveryRunSound` | src/cards.rs:2106-2121 | with load and exchange as separate steps and a cap per request: the counter equals the lanes owned, a successful take leaves it within that taker's cap, and it never passes the largest cap |
| `LaneGate.UndisturbedTake` | src/cards.rs:2106-2121 | a newcomer that nobody disturbs takes a lane if and only if the counter is below its cap, and leaving gives it back |
| `LaneGate.DisturbedTakeRetries` | src/cards.rs:2106-2121 | a take whose counter moved in between fails and loads again |
| `FaceRecovery.ReloadExact` | src/cards.rs:1300-1376 | for every order of writes, every pattern of database failures and at every moment, a reload restores the balance if and only if the last write of one of the stores carries every charge, and a reload without the database if and only if that of cards.json does; it never restores more |
| `FaceRecovery.RestartsExact` | src/cards.rs:1325-1376 | over any restarts, with the database readable, unreadable or missing, the balance after each is the initial one plus every charge if and only if each process life ended with its charges kept for the load that followed |
| `FaceRecovery.LossesStay` | src/cards.rs:1325-1376 | while the database can be read, the balance after the last restart alone tells whether every life kept its charges |
| `FaceRecovery.UnreadableForgets` | src/cards.rs:1333-1366 | what only the database holds is forgotten until it can be opened again, and for good once an unreadable load has written over it |
| `FaceRecovery.RestartRestores` | src/cards.rs:1300-1376 | with writes in order and all of them through, whatever database writes failed, the stores hold exactly the initial balance plus every charge |
| `FaceRecovery.SwappedWritesLoseACharge` | src/cards.rs:2298-2307 | two charges, writes in either order with any outcome: the later charge is lost exactly when the database takes both totals in the wrong order |
| `LedgerWriter.WriteRows` | src/billing.rs:627-689 | the batch loop inserts the first record of each id and counts the rest as duplicates |
| `LedgerWriter.EveryCallCountedOnce` | src/billing.rs:455-467 | at every moment of every interleaving, pending + written + ignored + failed is the number of record calls, less the recorders between the two updates of a refused send, plus the batch records counted and still pending; the latter are none between batches, the former none while the writer lives |
| `LedgerWriter.WriteMeans` | src/billing.rs:597-610 | a successful write gives every record of the batch a row and settles none as failed; a failed one leaves the table alone and settles the whole batch as failed |
| `LedgerWriter.FailedExact` | src/billing.rs:597-610 | over every run the failed counter is exactly the records of batches whose write failed, as far as counted, and the refused sends |
| `LedgerWriter.SmoothFlushMeansRows` | src/billing.rs:471-478 | without a failed write or a crash nothing is counted as failed, and every record sent before an answered flush has a row |
| `LedgerWriter.RecordArrives` | src/billing.rs:455-620 | one record and one flush all the way: the row, the counters and the answer |
| `LedgerWriter.TableIsExact` | src/billing.rs:627-689 | one row per req_id; the table is the initial one plus the records settled as written, in order; written counts the new rows; whatever was written or ignored has a row |
| `LedgerWriter.FlushMeansSettled` | src/billing.rs:471-478 | an answered flush means the records sent before it are, in order, among those written, ignored or failed, and the three counters already include them |
| `Dialects.MessagesToCursor` | src/protocol.rs:299-407 | the loop with output, known call names and pending results computes the specified translation |
| `Dialects.ToolMessagesApart` | src/protocol.rs:308-318 | no TOOL message is empty and no two are adjacent, for every input |
| `Dialects.ExpandRestoresOrder` | src/protocol.rs:319-406 | expanding TOOL messages gives one item per Chat message in the Chat order, results named by the calls before them |
| `Dialects.EveryMessageArrives` | src/protocol.rs:319-406 | every Chat message arrives in its place: an assistant's text and exactly its calls in order, with names, arguments and ids; a system text; a user's text and images; a tool result with its id and text |
| `Dialects.SplitBlocks` | src/protocol.rs:752-791 | the block loop separates texts, tool calls and tool results, each in order |
| `Dialects.TurnToChat` | src/protocol.rs:748-812 | one turn: calls before results for an assistant, results before text for a user |
| `Dialects.TurnsToChat` | src/protocol.rs:724-812 | the whole history with its system prompt |
| `Dialects.BlocksFallApart` | src/protocol.rs:752-791 | texts, calls and results of a turn are its blocks of each sort, in order, whatever stands between them |
| `Dialects.JoinFallsApart` | src/protocol.rs:795-808 | texts are joined by line breaks |
| `Dialects.SystemArrives` | src/protocol.rs:730-739 | in the composed translation a system prompt is the first message, a SYSTEM message with its text |
| `Dialects.PlainTurnArrives` | src/protocol.rs:744-750 | a turn of plain text is one message of its role with that text and no calls |
| `Dialects.CallsArrive` | src/protocol.rs:793-799 | an assistant turn with calls is one ASSISTANT message with its texts joined and exactly its calls |
| `Dialects.ResultsArrive` | src/protocol.rs:799-806 | any other turn's results come first, in order, with their ids and texts |
| `Dialects.TextArrives` | src/protocol.rs:806-809 | and then its texts, joined, as one message of its role |
| `Dialects.ResultsFollowCalls` | src/protocol.rs:799-806 | in every well-formed history an answering user turn becomes one TOOL message right after the ASSISTANT message it answers, holding exactly its results in order |
| `Dialects.ResultNamesItsTool` | src/protocol.rs:328-333 | a result carries the name of the call with its id |
| `Dialects.AnswerCarriesName` | src/protocol.rs:319-414 | the i-th result of an answering turn is the i-th part of the TOOL message right after the ASSISTANT message of the turn it answers, with the id of its call, and the call's name unless that id is empty |
| `Dialects.EmptyIdLosesTheName` | src/protocol.rs:358-371 | in a translated history a result loses its tool's name if and only if the call came without an id |
| `Routing.StripVariantSuffix` | src/models.rs:109-130 | the loop takes off the first suffix of the table that leaves something |
| `Routing.FamilyBaseLoop` | src/models.rs:530-539 | stripping ends at a fixpoint that is never empty for a non-empty name |
| `Routing.Cheapest` | src/models.rs:716-723 | the cheapest positively priced member of the family, and none exactly when there is none |
| `Routing.RepriceIsIdle` | src/models.rs:739-765 | the closing search for a cheaper name of the same suffix never changes the answer |
| `Routing.FamilyOfPick` | src/models.rs:105-130 | the family of a base with an appended tier is the base, except for -high on a base ending in -extra |
| `Routing.LevelFor` | src/models.rs:660-698 | the tier settled on is never one that is blocked |
| `Routing.LevelDecided` | src/models.rs:660-698 | an explicit level decides unless it is blocked; then, or without one, the family's default unless that is blocked |
| `Routing.LevelOrder` | src/models.rs:706-713 | each level's own tier first and its fall-backs in order, by name |
| `Routing.Pick` | src/models.rs:700-705 | the picked name is the first candidate in the upstream list, and none is picked exactly when no candidate is there |
| `Routing.GatewayTable` | src/models.rs:110-121 | the gateway's suffix table has what the routing proofs need |
| `Routing.RoutingIsSound` | src/models.rs:621-767 | a routed name is in the upstream list, routing it again changes nothing, and its family is the one asked for (or its cursor- twin when only that has variants) if and only if the request does not lose the name; then it is the family without -extra |
| `Routing.ExplicitLevelDecides` | src/models.rs:661-713 | an explicit unblocked level whose own tier is offered gives exactly that tier of the family |
| `Routing.DefaultLevelDecides` | src/models.rs:661-713 | without one the unblocked default level does |
| `Routing.PriceDecides` | src/models.rs:714-724 | without either the cheapest priced member of the family does |
| `Routing.HeuristicDecides` | src/models.rs:725-731 | and without a price the heuristic level |
| `Routing.ResolvedIff` | src/models.rs:621-738 | exactly when a name is routed at all, and what a folded -fast name is routed to |
| `Routing.FamilyAsked` | src/models.rs:645-656 | the family asked for is preferred to its cursor- twin, and rules are looked up under the name asked for |
| `Routing.ExtraLosesItsName` | src/models.rs:700-736 | a family loses its name if and only if it ends in -extra and -high is the first tier it offers at the request's level, or at the heuristic one when neither level nor price decides |
| `RpmWindow.RpmTracker.Hit` | src/metrics.rs:23-56 | one word is replaced: same second counts on, another second restarts |
| `RpmWindow.RpmTracker.Rpm` | src/metrics.rs:59-78 | the loop sums the words whose second is within sixty of now |
| `RpmWindow.WordsMatchLog` | src/metrics.rs:38-55 | in any order of hits, each word holds the last second logged in its slot and that second's hits since it took over the slot |
| `RpmWindow.ReadingExact` | src/metrics.rs:59-78 | for every history in any order the reading never exceeds the hits of the last sixty seconds, and equals them if and only if no recent hit is followed by a hit of another second in its slot |
| `RpmWindow.ReadingIsSlidingWindow` | src/metrics.rs:59-78 | for every history in time order the sixty reused words read exactly the hits logged in (now-60, now] |
| `RpmWindow.LateHitWipesSlot` | src/metrics.rs:41-47 | with no hit ahead of the reader's clock, the reading falls short if and only if a hit committed after a recent one of its slot that is a minute or more newer |
| `Pool.AccountPool.Acquire` | src/pool.rs:386-402 | sticky lookup, then free choice; expired or orphaned bindings are dropped |
| `Pool.AccountPool.AcquireFree` | src/pool.rs:404-469 | two scans: the largest free count, then round robin for an account that has it |
| `Pool.AccountPool.ReapAutoDisabled` | src/pool.rs:684-707 | the loop restores the due accounts and reports exactly those that were disabled |
| `Pool.AccountPool.AutoDisable` | src/pool.rs:583-608 | disable, lengthen the quarantine with each strike, unbind sessions |
| `Pool.AccountPool.SetEnabled` | src/pool.rs:611-624 | the switch, with the quarantine record cleared and ineligibility lifted on enabling |
| `Pool.AccountPool.ToggleAccount` | src/pool.rs:626-637 | the flipped switch, with the same side effects |
| `Pool.AccountPool.MarkIneligible` | src/pool.rs:654-677 | disable without a quarantine record and unbind sessions |
| `Pool.GrantedIsAvailable` | src/pool.rs:495-501 | whoever is granted, sticky or free, is enabled, not cooling, not out of usage and had a permit |
| `Pool.GrantedIsFit` | src/pool.rs:495-501 | stated on the pool's tables: nobody disabled, cooling, out of usage or without a permit is granted |
| `Pool.StickyWins` | src/pool.rs:386-402 | a live binding to a fit account is granted, takes one permit and changes nothing else |
| `Pool.OtherwiseFree` | src/pool.rs:386-402 | otherwise the choice is free, after an expired or orphaned binding is dropped |
| `Pool.SessionComesBack` | src/pool.rs:386-402 | within the hour a session comes back to the account it was granted, as long as that is fit |
| `Pool.FreeAcquireExact` | src/pool.rs:429-469 | a free acquisition succeeds if and only if some available account has a permit, and takes one with the most permits left |
| `Pool.FreeGrantIff` | src/pool.rs:429-469 | stated on the pool's tables: a free acquisition finds an account if and only if a fit one is listed |
| `Pool.FreeGrantMeans` | src/pool.rs:429-469 | it takes one permit, advances the rotation and binds the session for an hour unless stickiness is avoided |
| `Pool.RotationDecides` | src/pool.rs:440-460 | among the accounts with the most permits left it takes the first from the rotation's place on |
| `Pool.ReleaseMeans` | src/pool.rs:530-546 | a release gives the permit back, and a failed one keeps the account from being granted until its cooldown is over |
| `Pool.AcquireThenRelease` | src/pool.rs:404-546 | an acquisition and its release leave every permit where it was |
| `Pool.LoadsStayLevel` | src/pool.rs:429-460 | any run of free acquisitions under steady status keeps the loads of available accounts within one of each other |
| `Pool.IdlePoolBalances` | src/pool.rs:429-460 | from an idle pool, some of its accounts switched off in the configuration, any run of free acquisitions leaves two available accounts at most one grant apart |
| `Pool.RunValid` | src/pool.rs:575-707 | over every run a quarantine record belongs to a disabled account |
| `Pool.IdleIsValid` | src/pool.rs:179-201 | the pool starts in such a state, and accounts switched off in the configuration start shut |
| `Pool.QuarantineRuns` | src/pool.rs:575-707 | an auto-disabled account stays out for its whole quarantine and the first reap at or after the deadline restores it |
| `Pool.QuarantineDoubles` | src/pool.rs:575-580 | each further strike doubles the quarantine up to its ceiling |
| `Pool.StaysDisabled` | src/pool.rs:583-707 | a disabled account stays disabled throughout a run if and only if nothing in the run enables or toggles it and no reap comes at or after the quarantine deadline in force, which the schedule alone determines |
| `Pool.ManualStaysDisabled` | src/pool.rs:610-677 | the same for an account just disabled by hand or marked ineligible, in any state: its strikes count, and it starts without a deadline |
| `Pool.DisabledIsNeverGranted` | src/pool.rs:495-519 | while such a run lasts no acquisition, sticky or free, is routed to the account |
| `Pool.ShutIsNeverGranted` | src/pool.rs:495-519 | an account disabled by hand or ineligible stays so and is never granted in any run without enabling, toggling or auto-disabling it |
| `Pool.AutoDisableRevivesIneligible` | src/pool.rs:583-608 | auto-disabling an ineligible account in any state lets a reap enable it again, if and only if it comes at or after the end of the quarantine |
| `Pool.OutMeansUnbound` | src/pool.rs:583-677 | taking an account out unbinds exactly its own sessions; enabling lifts its mark |
| `ProxyUrl.PercentEncode` | src/proxypool.rs:971-997 | the byte loop computes the specified encoding |
| `ProxyUrl.PercentDecode` | src/proxypool.rs:791-807 | the index loop computes the specified decoding |
| `ProxyUrl.DecodeEncode` | src/proxypool.rs:791-807 | decoding undoes encoding for every byte string |
| `ProxyUrl.EncodedHasNoDelimiter` | src/proxypool.rs:971-997 | encoded text contains neither colon nor at sign |
| `ProxyUrl.EncodeLeavesPlain` | src/proxypool.rs:971-997 | exactly letters, digits and the listed marks stay unescaped |
| `ProxyUrl.DefaultPortIsUsed` | src/proxypool.rs:757-766 | a host alone gets port 80, 443 or 1080 by its scheme |
| `ProxyUrl.OnlyPortsAreAccepted` | src/proxypool.rs:750-756 | an unsigned port is accepted if and only if it is a number below 65536 |
| `ProxyUrl.BracketsComeOff` | src/proxypool.rs:750-756 | an address in brackets loses them and keeps its colons |
| `ProxyUrl.BareUrlIsRefused` | src/proxypool.rs:732-736 | without a scheme nothing is accepted |
| `ProxyUrl.OtherSchemesAreRefused` | src/proxypool.rs:737-747 | nor with a scheme other than the five supported ones |
| `ProxyUrl.BuildRoundTrip` | src/proxypool.rs:909-926 | for every non-empty user, any password, any 16-bit port and any plain host the printed URL is accepted and parses back to the same user, password, host, port and scheme |
| `ProxyUrl.BuildAnonymous` | src/proxypool.rs:909-926 | without a user the printed URL parses back to host and port with no credentials |
| `ProxyBinding.ProxyPool.ResolveUnpinned` | src/proxypool.rs:346-383 | keep a healthy binding, else drop it, assign by rules or default, and bind |
| `ProxyBinding.ResolveMeans` | src/proxypool.rs:346-383 | what a resolve answers and binds: direct without the pool, the assigned node, or refused where a proxy is required; other bindings stay |
| `ProxyBinding.ProxyPool.RecordProbe` | src/proxypool.rs:468-497 | a good probe makes the node healthy unless the threshold is 0, a bad one never does, and no other node's health and no binding changes |
| `ProxyBinding.ProbesDecide` | src/proxypool.rs:385-391 | over any run a configured node is healthy if and only if fewer bad probes than the threshold followed its last good one, and only such nodes are answered with |
| `ProxyBinding.BoundFollowsProbes` | src/proxypool.rs:366-374 | a bound account holds on to its node if and only if that is enabled and its probes allow it |
| `ProxyBinding.Assign` | src/proxypool.rs:393-420 | the chosen node is configured, enabled, healthy and below the cap of the mode that chose it |
| `ProxyBinding.RulesDecide` | src/proxypool.rs:393-443 | a usable rule of the highest priority decides and the node chosen may serve under its tags, region and cap; without one the default mode over all nodes; none exactly when no node may serve |
| `ProxyBinding.ModesMean` | src/proxypool.rs:445-466 | hashing depends on the account alone, the rotation moves on by one, the other modes take a node with fewest accounts |
| `ProxyBinding.Least` | src/proxypool.rs:461-464 | no candidate has fewer bound accounts than the chosen one |
| `ProxyBinding.CapacityKept` | src/proxypool.rs:235-247 | over any run of resolves, probe results and unbindings no node carries more accounts than its limit, which is 1 for unlimited nodes when everything is exclusive |
| `ProxyBinding.CapacityFromStart` | src/proxypool.rs:345-466 | so it is in every run from the start |
| `ProxyBinding.RacingCapacity` | src/proxypool.rs:366-379 | when resolves interleave between check and binding, a node passes its limit by at most the resolves that were in between at once, less one |
| `ProxyBinding.TwoResolvesOvershoot` | src/proxypool.rs:366-379 | two resolves that both check a node with one place left take it one over its limit, whatever the limit |
| `ProxyBinding.AccountKeepsNode` | src/proxypool.rs:366-374 | an account keeps its node over any run in which the node is up whenever the account resolves |
| `ProxyBinding.HeldNodeAnswers` | src/proxypool.rs:366-372 | and a resolve answers with that node and changes nothing |

## Left out

- Pacing.RateBound: assumes that what the cap forgives does not grow over the window; `Pacing.RateBoundWithCap` is the bound for every run. `CardPermit::pace_admit`, which lets a request's first frame and relieved long outputs bypass the bucket, is not part of this model.
- CardReservations.NeverOvercommitted: speaks of operations that do not interleave; `CardReservations.EveryRunBounded` is the bound for every interleaving.
- CardReservations.EveryRunAccounted: amounts are unbounded naturals; a sum of holds beyond 2^64 micro-dollars is not modelled. The face value is fixed, and a card deleted before its settlement is not modelled.
- FaceRecovery.ReloadExact: a write of `cards.json` is taken to succeed.
- RpmWindow.ReadingExact: assumes seconds below 2^32 and fewer than 2^32 hits per second; the compare-and-swap retry of a hit is one step.
- Pool.LoadsStayLevel: speaks of free acquisitions only; sticky ones may load one account more than another.
- ProxyBinding.CapacityKept: takes resolves one at a time (`ProxyBinding.RacingCapacity` is the bound when they interleave), and assumes that configuration entries sharing an id share their limit, and that no account pins a node; pinned accounts and `rebalance` do not go through the capped step.
- ProxyUrl.BuildRoundTrip: text is bytes; `from_utf8_lossy` is the identity on the valid UTF-8 that encoding starts from, and only ASCII white space is trimmed.
- Sessions.AutoGap: milliseconds are integers; rounding of the floating point gap is not modelled. Face values and hours are exact numbers, not floats.
- Aggregates.Aggregate: token counters and the speed samples of an aggregate are left out; they are plain sums and lists.
- Dialects.MessagesToCursor: tool arguments and results are carried as text; parsing them into JSON values, and the other fields of the request body, are left out. Content is its text and images as already extracted.
- Routing.RoutingIsSound: how a body expresses its effort level and how the heuristic level is found are parameters.
- `acquire`'s waiting queue (liveness and wake-up order), throttling scores, daily counters, plan checks and price tables of `src/cards.rs`.
- The wallet (`quota_admit`, `quota_settle`): a smaller instance of the same reservation accounting.
- `parse_proxy_line`'s column formats, and `mask_proxy_url`: only the URL that the line parser builds is modelled.
- `replace_accounts`, statistics and dynamic cooldown length of the pool: cooldown ends are parameters.
- `simulate_pace`, percentiles, hourly buckets and presence: reporting without a law beyond its formula.
- HTTP, TLS, SOCKS, SQLite, files, admin and portal handlers.
