# Priority fee estimator: a verified model

The repository keeps a sliding window of recent slots, records the priority fee of every usable
transaction per slot, per account and per transaction version, and answers queries for six fee
levels. This project models that engine and proves what its parts promise together.

- `SlotWindow.dfy`: the bounded slot window, as a class and as the function `Admit`.
- `PushPopProtocol.dfy`: `push_pop` step by step for any number of threads, refined to `Admit`.
- `FeeModel.dfy`, `FeeTracker.dfy`: the per-slot entries and the index, updated in place by classes;
  `Push` and `Run` say what one sample and a whole log of samples mean.
- `FeeHistory.dfy`: the index against the raw log; when the window is the highest slots ever seen.
- `QueryHistory.dfy`: what every query's groups and every version report hold, from the raw log alone.
- `Percentiles.dfy`, `FeeCalculation.dfy`, `FeeLevels.dfy`: the percentile, the two query algorithms
  and the fold of their groups into six levels.
- `FeeQueries.dfy`, `FeePooling.dfy`: laws of the queries; the two algorithms compared.
- `Copies.dfy`, `RepeatedAccounts.dfy`: percentiles of repeated data, and exactly when one request
  to the second algorithm never gives a lower level than another.
- `ReadersAndWriter.dfy`, `ConcurrentQueries.dfy`: one writer, step by step, with any number of
  readers, and the laws of the queries for what such a reader puts together.
- `Rates.dfy`, `BlockIngestion.dfy`: version 1 rates, writable accounts, and the block loop.
- `FeeWitnesses.dfy`: the pinned percentiles.
- `Options.dfy`, `Sequences.dfy`: optional values; sorting, listing, gathering.

Fees are natural numbers. A percentile of whole fees is a multiple of 1/300, so it is computed as
three hundred times its value; `Percentiles.ScaledIsDefinition8` ties that to the real formula
(Hyndman and Fan 1996, definition 8), which is how the statistics library computes it. No data
gives no percentile where the source gets NaN, and a missing percentile leaves an estimate alone.
The library's in-place selection is modelled by what it promises: it may leave the buffer in any
other order. The library's sort is a function with the usual contract. Map and set iteration takes
elements in an arbitrary order.

## Where code and documentation differ

- README.md:5 says the service analyzes "the most recent 150 slots". The code evicts by first-seen
  order (src/slot_cache.rs:38-45), so the live slots are the last admitted ones, not the highest
  numbered. `FeeHistory.FirstSeenIsNotNewest` gives the failing input for a window of any capacity:
  capacity + 1 distinct slots of which the first is not the lowest. The first is dropped and every
  lower one kept. `FeeHistory.HighestIffOrderly` says exactly when the window stays on the highest
  slots: every evicting push must find the oldest entry to be the lowest and bring a higher slot.
- A version 1 total that charges a legacy price gives that price back exactly when rounding up to
  whole lamports adds less than the limit (`Rates.RateRoundTrip`). A whole-lamport charge or a limit
  of a million units is enough (`Rates.ExactRoundTrips`) but not needed (`Rates.FractionComesBack`).
- An account named twice in one transaction is recorded once if the transaction admits its slot and
  twice otherwise (src/model.rs:164-166, src/priority_fee.rs:463-469).
  `FeeHistory.AdmissionCountsRepeatsOnce` says on the recorded lists exactly when this shows, and
  `FeeHistory.OneFeeAgainstTwo` gives two runs that differ so.
- A version 2 query is meant to take the highest level over the accounts it names, but accounts are
  not made distinct (src/rpc_server.rs:331-335) and each mention repeats the account's fees, so
  naming one again can lower a level (`RepeatedAccounts.RepeatedAccountLowers`).
  `RepeatedAccounts.RequestComparison` says for any two requests exactly when this cannot happen, by
  how often each account is named; `RepeatedAccounts.DistinctComparison` is the case of a request
  without repeats, where the other must name each of its accounts exactly once.

## Model

| member | source | states |
|---|---|---|
| SlotWindow.AdmitKeepsWindow | src/slot_cache.rs:24-46 | an admission keeps the window bounded and duplicate-free, contains the slot, and drops at most the oldest, which only happens to an absent slot |
| SlotWindow.SlotCache.constructor | src/slot_cache.rs:17-22 | an empty window of the given length |
| SlotWindow.SlotCache.Add | src/slot_cache.rs:38-45 | the circular buffer: append when there is room, otherwise drop and hand back the oldest |
| SlotWindow.SlotCache.PushPop | src/slot_cache.rs:27-58 | queue and result are those of the atomic admission, and set and queue agree afterwards |
| SlotWindow.SlotCache.CopySlots | src/slot_cache.rs:60-62 | the caller's vector is extended by exactly the live slots, in some order |
| SlotWindow.SlotCache.Len | src/slot_cache.rs:64-66 | the number of live slots, never above the capacity |
| PushPopProtocol.StepRefines | src/slot_cache.rs:27-58 | every interleaved step keeps the invariant and is one step, or no step, of the atomic object, with the same visible event |
| PushPopProtocol.Linearizable | src/slot_cache.rs:27-58 | for any schedule of any number of threads, the calls and results seen are those of a run of the atomic object |
| PushPopProtocol.QueueAndSetAgree | src/slot_cache.rs:31-45 | in every reachable state the queue is bounded and duplicate-free, the set equals it when the lock is free and trails the live slots by at most one otherwise |
| PushPopProtocol.EveryAdmissionAccounted | src/slot_cache.rs:38-45 | each admission is live, or was returned to one caller, or is in the hands of exactly one thread; with no call in progress only the first two |
| PushPopProtocol.DeliveredOnce | src/slot_cache.rs:45-57 | returning an evicted admission is the first and only delivery of it, to the thread that evicted it, and no other step delivers or returns one |
| PushPopProtocol.ReturnsAreDeliveries | src/slot_cache.rs:27-58 | over any run, the times a thread has been returned a slot are exactly the admissions of that slot delivered to it, each to one thread |
| PushPopProtocol.NoDeadlock | src/slot_cache.rs:31-57 | while a call is in progress some thread can step |
| PushPopProtocol.ReturnsWithinEight | src/slot_cache.rs:27-58 | whatever the other threads do, a call takes at most eight steps of its own, its return included |
| PushPopProtocol.CallAlone | src/slot_cache.rs:27-58 | with the lock free and run alone, a call returns within eight steps the atomic admission's answer and leaves its queue, the set equal to it and the lock free |
| FeeModel.SlotPriorityFees.NewWithVersion | src/model.rs:154-173 | a fresh entry: one fee for the slot, for its version and once per distinct account |
| FeeModel.SlotPriorityFees.AddVersionFee | src/model.rs:175-185 | the version's lists grow by the fee, or start with it |
| FeeModel.SlotPriorityFees.Record | src/priority_fee.rs:460-470 | the whole new entry after an update: slot list, version list, and one more fee per account occurrence |
| FeeModel.FreshAccountsAre | src/model.rs:164-166 | a fresh entry has exactly the sample's accounts, each with the single fee |
| FeeModel.AddAccountsAre | src/priority_fee.rs:463-469 | an update adds the fee to an account's list of its kind once per occurrence and leaves the other kind alone |
| FeeModel.FirstFeeGood | src/model.rs:154-173 | a fresh entry is non-empty, its versions partition its fees, and account fees are slot fees |
| FeeModel.NextFeeGood | src/priority_fee.rs:460-470 | an update keeps the versions a partition of the slot's fees and account fees within them |
| FeeTracker.PushKeepsValid | src/priority_fee.rs:436-475 | a push keeps index keys equal to the window and every entry consistent, and touches no other live entry |
| FeeTracker.RunValid | src/priority_fee.rs:436-475 | after any log of samples the index keys are the window and every entry is consistent |
| FeeTracker.PriorityFeeTracker.constructor | src/priority_fee.rs:302-310 | an empty tracker |
| FeeTracker.PriorityFeeTracker.RecordFee | src/priority_fee.rs:447-471 | insert or modify: only the sample's slot changes, to a fresh or an updated entry |
| FeeTracker.PriorityFeeTracker.PushPriorityFee | src/priority_fee.rs:436-475 | the tracker's whole state after the in-place update is that of one atomic push |
| FeeHistory.LiveAreLastAdmitted | src/priority_fee.rs:444-474 | the live slots are those of the last min(capacity, admissions) admissions of the log |
| FeeHistory.EntriesAreLog | src/priority_fee.rs:447-471 | every list of a live slot (whole, per account, per version; votes and non-votes) is, in order, what the log pushed since the slot's latest admission |
| FeeHistory.FeesSinceAre | src/priority_fee.rs:460-470 | those fees are one per sample, in order: all samples of the slot and kind since then that name the account or have the version, where none names the account twice |
| FeeHistory.LatestAdmissionIs | src/priority_fee.rs:444-474 | a live slot's latest admission is the last sample before which it was not live; it has been live ever since |
| FeeHistory.EntryIfNamed | src/model.rs:164-166 | a live slot has an entry for an account exactly when some sample since its latest admission names it |
| FeeHistory.AdmissionCountsRepeatsOnce | src/model.rs:164-166 | a fresh entry records the fee for an account once, an update appends it once per occurrence, and the two are alike exactly when the sample names the account at most once |
| FeeHistory.OneFeeAgainstTwo | src/priority_fee.rs:446-469 | the same sample of an account named twice, recorded once where it opens its slot and twice where another sample did |
| FeeHistory.OrderlyKeepsHighest | src/slot_cache.rs:38-45 | one push keeps the window on the highest slots seen if and only if it evicts nothing or evicts the lowest slot for a higher one |
| FeeHistory.HighestIffOrderly | src/priority_fee.rs:444-474 | the window is the highest slots seen at every moment of a run if and only if every push was so |
| FeeHistory.NeverDecreasingIsOrderly | src/priority_fee.rs:444-474 | slot numbers that never decrease make every push so |
| FeeHistory.FirstSeenIsNotNewest | src/slot_cache.rs:38-45 | for every capacity, a run of capacity + 1 distinct slots whose first is not the lowest drops the first and keeps all others, a lower one among them |
| FeeHistory.SlidingWindow | src/priority_fee_calculation.rs:131-146 | in an orderly run Global with votes and no lookback has, in both algorithms, exactly the fees ever pushed to the highest slots: nothing lost, nothing stale |
| FeeHistory.SlidingWindowInOrder | src/priority_fee_calculation.rs:198-214 | the same for logs whose slots never decrease |
| ReadersAndWriter.PushCompletes | src/priority_fee.rs:444-474 | from rest the writer can always run its four steps, and ends in the atomic push |
| ReadersAndWriter.IdleIsAtomic | src/priority_fee.rs:444-474 | whenever the writer is between pushes, its step-by-step state is the atomic tracker's after the same log |
| ReadersAndWriter.ReaderActions | src/priority_fee_calculation.rs:131-142 | a fetch of a slot that is there gets exactly its entry, of one that is gone nothing; listing appends the key; no reader disturbs the writer or another reader |
| ReadersAndWriter.KeysFollowWindow | src/priority_fee.rs:446-474 | in every reachable state the keys are the window up to one admission and one eviction in flight, never more than capacity + 1, and an entry about to be modified is present |
| ReadersAndWriter.FetchesAreFaithful | src/priority_fee_calculation.rs:141-142 | whatever a reader fetches is the slot exactly as some whole number of pushes, since the reader began, left it |
| ReadersAndWriter.FetchedFeesWerePushed | src/priority_fee_calculation.rs:141-166 | every fee a reader collects, from a slot's own, an account's or a version's list, was pushed for that slot, as that kind, naming that account or of that version |
| ConcurrentQueries.SeenIsQuery | src/priority_fee_calculation.rs:139-173 | the groups a reader ends up with, walking its slots downwards and passing over those that are gone, are those of a query on the copies it fetched |
| ConcurrentQueries.ConcurrentLaws | src/priority_fee_calculation.rs:206-236 | for every schedule and reader, whatever was pushed between its fetches: levels in order, unsafeMax the largest Global fee fetched, and the min levels of the two algorithms compared |
| ConcurrentQueries.QuietReaderIsQuery | src/priority_fee_calculation.rs:131-173 | a reader that lists every key, sorts, reverses, cuts to the lookback and fetches in that order, other readers at work but not the writer, gets both algorithms' groups of that state |
| ConcurrentQueries.QuietReaderAtRest | src/priority_fee_calculation.rs:198-242 | between pushes those are the groups of the atomic tracker after the same log |
| ConcurrentQueries.QuietReaderRuns | src/priority_fee_calculation.rs:131-142 | such a reader can run in every state, whatever order the keys come in |
| Percentiles.ToPercentile | src/model.rs:33-45 | a level's percentile is in range; Min alone is the 0th and UnsafeMax alone the 100th |
| Percentiles.PercentileIs | src/priority_fee.rs:522-545 | a percentile is the rounded interpolation at position (n + 1/3) p + 1/3 of the ordered fees, the ends beyond it, in real arithmetic |
| Percentiles.ScaledIsDefinition8 | src/priority_fee.rs:522-545 | the integer percentile is three hundred times definition 8 of Hyndman and Fan, and rounds alike (half up) |
| Percentiles.ScaledMonotone | src/priority_fee.rs:522-545 | a higher percentile of the same data is never lower, across all interpolation intervals |
| Percentiles.ExtremePercentiles | src/priority_fee.rs:522-545 | the 0th percentile is the least fee and the 100th the greatest |
| Percentiles.PercentilePermuted | src/priority_fee.rs:518-547 | a percentile depends on the fees, not on their order |
| Percentiles.EstimateMaxValues | src/priority_fee.rs:518-547 | six successive in-place selections give the pointwise maximum with the percentiles of the original buffer, whatever orders they leave behind |
| FeeCalculation.LookbackSize | src/priority_fee_calculation.rs:246-252 | the slice bound is in range and the smaller of the slots asked for and the slots there are |
| FeeCalculation.SlotsNewestFirst | src/priority_fee_calculation.rs:131-135 | collecting, sorting and reversing the keys gives the strictly descending slots |
| FeeCalculation.WalkV1 | src/priority_fee_calculation.rs:139-173 | over any walk the loop builds exactly Global and AllAccounts, slots that are gone adding nothing |
| FeeCalculation.PoolSlot | src/priority_fee_calculation.rs:148-166 | one slot's pooled fees: all hits, and one zero when no account has data and filling is asked |
| FeeCalculation.GetV1 | src/priority_fee_calculation.rs:124-174 | the first algorithm returns the groups its specification names |
| FeeCalculation.WalkV2 | src/priority_fee_calculation.rs:206-242 | over any walk the loop builds Global and one group per requested account over the slots still there, and no group at all when none is |
| FeeCalculation.GetV2 | src/priority_fee_calculation.rs:191-243 | the second algorithm returns the groups its specification names |
| QueryHistory.PooledQueryIsLog | src/priority_fee_calculation.rs:139-173 | in every reachable state the first algorithm has two groups: Global with, in order, every fee pushed to each slot looked at since its latest admission, AllAccounts with those pushed naming a requested account, and a filling zero for a slot where none was |
| QueryHistory.GroupedQueryHas | src/priority_fee_calculation.rs:206-214 | the second algorithm has no group without a slot to look at, otherwise the same Global and groups of requested accounts only |
| QueryHistory.GroupedQueryIsLog | src/priority_fee_calculation.rs:216-234 | a requested account's group has exactly the fees pushed naming it to the slots looked at since their latest admissions, and a filling zero for a slot where it was not named, all once per mention |
| FeeLevels.LevelsAre | src/priority_fee.rs:481-486 | each level is the largest percentile of any group with data, or zero |
| FeeLevels.FoldOrderIndependent | src/priority_fee.rs:482-485 | every iteration order of the group map folds to the same estimates |
| FeeLevels.DetailsAgree | src/priority_fee.rs:498-513 | the estimates are the pointwise maximum of zero and the details returned beside them |
| FeeLevels.DetailsAre | src/priority_fee.rs:498-513 | each group's detail is that group's own percentiles and size, zeros for a group without data |
| FeeLevels.CalculatePriorityFee | src/priority_fee.rs:477-487 | the calculation returns the levels of the queried groups |
| FeeLevels.CalculatePriorityFeeDetails | src/priority_fee.rs:489-515 | the detailed calculation returns the same estimates, and per group its own estimates and count |
| FeeQueries.WindowIsNewest | src/priority_fee_calculation.rs:131-141 | a query looks at the highest numbered live slots, strictly descending, as many as the lookback allows |
| FeeQueries.LookbackPrefix | src/priority_fee_calculation.rs:137-141 | a longer lookback only appends to the window and to the data of every group of both algorithms |
| FeeQueries.LookbackSaturates | src/priority_fee_calculation.rs:246-252 | a lookback equals no lookback if and only if it reaches the number of live slots |
| FeeQueries.UnsafeMaxIsGlobal | src/priority_fee.rs:542-545 | in every reachable state unsafeMax is the largest Global fee of the window, or zero, whatever the algorithm, accounts and filling |
| FeeQueries.UnsafeMaxAgrees | src/priority_fee.rs:542-545 | any two queries over the same lookback and vote flag agree on unsafeMax |
| FeeQueries.LevelsOrdered | src/priority_fee.rs:518-547 | min, low, medium, high, veryHigh and unsafeMax are in order for every query |
| FeeQueries.AnswerRequest | src/rpc_server.rs:359-370 | a request on a consistent tracker, with or without details: the levels of its groups, in order, the top one the largest Global fee of the window |
| FeeQueries.AtLeastGlobal | src/priority_fee.rs:482-485 | naming accounts never lowers any level, in either algorithm |
| FeeQueries.GlobalOnlyAgrees | src/priority_fee_calculation.rs:170-173 | with no accounts both algorithms give the same levels |
| FeeQueries.MoreAccountsRaise | src/priority_fee_calculation.rs:216-234 | the second algorithm never lowers a level when accounts are added to a request, each old one named equally often |
| FeeQueries.DistinctAccountsRaise | src/priority_fee_calculation.rs:216-234 | the same for duplicate-free requests, one within the other |
| RepeatedAccounts.GroupIsCopies | src/priority_fee_calculation.rs:216-234 | an account's group is its fees, filling zeros included, as many times over as the request names it |
| Copies.EnoughKeepsPercentile | src/priority_fee.rs:522-545 | for any data, changing its number of copies lowers no reported percentile if the new number is the same, or at least seven and fewer, or more than an old number of at least thirteen |
| RepeatedAccounts.RequestComparison | src/priority_fee_calculation.rs:206-236 | one request gives no lower level than another, of the same flags and lookback, in any reachable state, if and only if the lookback is 0 or every account of the other is named often enough in that sense |
| RepeatedAccounts.DistinctComparison | src/rpc_server.rs:331-335 | for a request without repeats: if and only if the lookback is 0 or the other names each of its accounts exactly once |
| RepeatedAccounts.RepeatedAccountLowers | src/priority_fee_calculation.rs:216-234 | a reachable state, for any capacity, account, vote flag and filling, in which naming an account twice instead of once lowers veryHigh |
| FeeQueries.AccountOrderIrrelevant | src/priority_fee_calculation.rs:148-160 | the order in which a request lists its accounts changes no level, in either algorithm |
| FeePooling.MinLevels | src/priority_fee.rs:522-525 | without filling, the min level of the second algorithm is at least the first's, which is at least the Global-only one |
| FeePooling.PoolingLaw | src/priority_fee_calculation.rs:216-234 | the account groups together are the pooled group plus, with filling, one zero per missed (slot, occurrence) pair less one per blank slot, for repeated accounts too |
| FeePooling.PoolingOfQuery | src/priority_fee_calculation.rs:148-166 | the same for the groups the two algorithms return |
| FeePooling.CalculateVersionPriorityFee | src/priority_fee.rs:396-418 | the report is absent exactly when no live slot has a non-vote fee of the version, otherwise it has the percentiles of those fees for every level, and their number |
| FeePooling.ReportIs | src/priority_fee.rs:411-417 | a report's levels are the percentiles of its fees, in order, from their minimum to their maximum, and its count their number |
| FeePooling.RecordVersionFees | src/priority_fee.rs:361-394 | the two versions' reports together count exactly Global's fees without votes and lookback, an absent report counting 0 |
| QueryHistory.VersionReportIsLog | src/priority_fee.rs:400-410 | a version's report is on exactly the non-vote fees of that version pushed to each live slot since its latest admission |
| FeePooling.VersionReportPartitions | src/priority_fee.rs:396-418 | in every reachable state the two version populations are together Global's non-vote data without lookback, and their counts sum to its length |
| FeePooling.GlobalNotShorter | src/priority_fee_calculation.rs:141-146 | with votes, Global has at least one fee per slot looked at |
| Rates.V1RateIsExact | src/priority_fee.rs:145-158 | no rate exactly without a usable limit; otherwise the 128-bit product never saturates and the rate is total times 1,000,000 over the limit capped at 1,400,000, rounded down, if that fits 64 bits, else 0 |
| Rates.CapAndMissingFee | src/priority_fee.rs:146-150 | every limit from 1,400,000 on gives one rate, and a missing fee is a rate of 0 |
| Rates.PinnedRates | src/priority_fee.rs:576-615 | the pinned rates: 10,000 for 420 over 42,000, 2,314,285 for 3,240,000 over 4,200,000, and 0 on overflow |
| Rates.LargeLimitFits | src/priority_fee.rs:145-158 | with a limit of at least a million units the rate always fits |
| Rates.V1RateMonotone | src/priority_fee.rs:145-158 | without overflow the rate grows with the total and falls with the limit |
| Rates.RateRoundTrip | src/priority_fee.rs:142-158 | the total a legacy price charges gives the price back, exceeded by at most 999999 over the limit, and exactly if and only if rounding up adds less than the limit |
| Rates.ExactRoundTrips | src/priority_fee.rs:576-580 | whole-lamport charges and limits of a million units come back exactly |
| Rates.FractionComesBack | src/priority_fee.rs:145-158 | a charge that is a fraction of a lamport, with a limit under a million, that comes back exactly |
| Rates.WritableAreSlices | src/priority_fee.rs:205-231 | for every header the filter is the writable signers, at least none, followed by the writable non-signers, up to the read-only tail or to the end when that is longer than the list: two disjoint slices in order; without a header everything |
| Rates.WritableCount | src/priority_fee.rs:213-220 | a well-formed header leaves out exactly its read-only accounts |
| Rates.WritableCommutes | src/rpc_server.rs:148-167 | selecting commutes with any mapping of the elements |
| BlockIngestion.Consume | src/priority_fee.rs:234-298 | consuming a block leaves the state of pushing, in order, one sample for each usable transaction, all of them and nothing else; other updates change nothing |
| BlockIngestion.ConsumeTransaction | src/priority_fee.rs:241-292 | one transaction pushes its sample or changes nothing |
| BlockIngestion.PriceOfPairs | src/priority_fee.rs:121-140 | the pricer is asked of exactly the instructions whose program index, narrowed to 8 bits, names an account, in order, each with that account and its own data and accounts |
| BlockIngestion.AllPaired | src/priority_fee.rs:127-136 | when every index names an account, every instruction is handed over in its place, with the account at that index |
| BlockIngestion.SkippedExactly | src/priority_fee.rs:179-203 | a transaction is skipped if and only if it failed, lacks a body or message, has a malformed key, or cannot be priced |
| BlockIngestion.SamplesAre | src/priority_fee.rs:240-292 | a block's samples are those at the positions of its usable transactions, in order, first and last included |
| BlockIngestion.SampleHolds | src/priority_fee.rs:246-291 | a usable transaction's sample has its slot, kind and version; the version 1 rate of its config or the pricer's price of its pairs; and in order the writable message keys and then the loaded keys that parse |
| BlockIngestion.SampleNames | src/priority_fee.rs:270-274 | a sample names an account once per writable position it has and once per well-formed loaded key |
| BlockIngestion.SkippedLeavesNoTrace | src/priority_fee.rs:240-252 | a skipped transaction can be removed from anywhere in a block |
| BlockIngestion.ConsumeStream | src/grpc_geyser.rs:81-89 | consuming a stream of updates one by one runs all their samples on the tracker |
| BlockIngestion.TrackStream | src/grpc_geyser.rs:81-89 | a new tracker that consumes a stream has the state of the log of all its samples |
| BlockIngestion.StreamWindow | src/priority_fee.rs:234-298 | for blocks in slot order Global with votes holds exactly the fees of the usable transactions of the highest slots that had any |
| FeeWitnesses.PinnedLevels | src/priority_fee_calculation.rs:304-309 | the six levels of the fees 0 to 100 are 0, 25, 50, 75, 96 and 100, and their 99th percentile is 100 |

## Left out

- Floating point: fees above 2^53 and rounding error.
- The statistics library's quickselect, the standard library's sort and the map's sharding are used by contract only.
- Fees and SlotFees are values: a fee list belongs to exactly one map entry in the source, so nothing can alias it; the entry object that holds the lists (`SlotPriorityFees`) is updated in place.
- The closure of the `and_modify` call is the method `Record`; the map's per-key locking is part of `ReadersAndWriter.dfy` as atomic steps.
- A window of length 0 is excluded: what the circular buffer does then is not part of this model.
- Lock poisoning and queue errors (src/slot_cache.rs:47-56) are excluded; they admit nothing.
- Several writers to the tracker: one loop consumes blocks (src/grpc_geyser.rs:81-89); only the slot window is proved for many writers.
- CalculateVersionPriorityFee: its report is on the state at the call; the interleaving of its reads with a writer is covered slot by slot in `ReadersAndWriter.dfy`.
- CalculatePriorityFeeDetails: mean, standard deviation and skewness of each group are not reported; its estimates and count are.
- Compute-budget instruction processing is a parameter that prices the paired instructions or fails.
- Key bytes are modelled as keys that parse or do not; base58 and base64 decoding are not part of this model.
- The JSON-RPC server, request validation, lookup tables, gRPC connection handling, metrics and logging.
- Parsing of level names, the recommended fee, and the compute-unit-limit buckets, which are one-line functions.
