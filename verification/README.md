# Verification of the Soroban restore client

A Dafny model of the parts of the client that decide what is restored, in which order and how often, with
proofs of what they keep over whole runs. `dafny verify dfyconfig.toml` checks everything.

## What is modelled

- **From footprint to batches** (`Keys`, `Grouping`, `GreedyBatching`, `RestorePipeline`, `KeyClassification`,
  `RestorePlan`). Missing
  ledger keys are detected, classified, stably sorted by priority, grouped by contract and cut greedily into
  batches, which get consecutive sequence numbers. A key is its base64 encoding and the parts classification
  looks at; sizes are lengths of encodings.
- **Running the batches one by one** (`Network`, `SequentialRestore`, `RestoreReceipts`, `RestoreRounds`,
  `RestoreRetries`, `RestoreGuards`, `RestoreRepeats`, `RetryRepeats`, `RecordedHashes`, `RestoreReports`,
  `SequenceRecovery`, `RestoreClient`). The network is an oracle over a small ledger: an account
  sequence number and the list of footprints that took effect. Each submission has a fate (delivered, too late,
  failed on chain, refused, lost track of, or included with its answer lost and the repeated send found stale) and
  other submitters may move the account before it. `RestoreGuards` says, of a queue, a ledger and a network alone, when a
  run goes wrong. `RestoreClient` is
  the client as a class; the other modules prove what chains of execute, receipt and resume, or execute and retry,
  do to that ledger.
- **Running them at once** (`Semaphore`, `ConcurrentRestore`, `RestoreVerdicts`, `InFlightSubmissions`). Tasks behind the
  hand-written semaphore as a state machine over all interleavings, an executor class whose uninterrupted
  stretches are its steps, the limiter of the RPC package against the same abstract semaphore, and the map that
  lets equal submissions share one.
- **Helpers with state** (`LruModel`, `CacheLookups`, `CacheInclusion`, `CacheReadThrough`, `SimulationCache`,
  `LedgerReadCoalescer`, `RpcFailover`, `FailoverChoice`,
  `RetryPolicy`, `DeadlineRetry`, `EventDeduplicator`) and **pure algorithms** (`ContractPacking`, `PackingOrder`, `TtlPacking`,
  `XdrDiagnostics`, `AuthEntries`). `Seqs` and `InsertionMap` hold the sequence and JavaScript `Map` vocabulary.

A method of a class, or one with the source's loop, is tied by its contract to a function of the state; the lemmas
are about that function. Clocks, identities of promises and outcomes of calls are parameters.

## What the code does not do

Where the code falls short of its documentation, or of what one would expect, the model follows the code and a
lemma gives the input:

- The answer to a send can be lost after the transaction was applied; the repeated send is then found stale, and the
  refresh lands the batch a second time in the same run (`RestoreGuards.StaleReplyLandsTwice`, exactly when:
  `RestoreGuards.LandsTwiceIff`).
- A refresh that cannot read the account makes `executeRestoreBatches` reject and forget its successes; resuming
  from the plan lands them again (`RestoreRounds.RejectedCallLandsTwice`). `RestoreRepeats.LandedTwiceIff` and
  `RetryRepeats.RetriedTwiceIff` say exactly when some footprint lands twice over any number of rounds or retries,
  `RestoreRounds.RecordedIff` exactly when the receipt is right about what landed.
- With a fee sponsor no restore goes through: the submission reads only plain envelopes, so a fee bump is refused
  before it is sent (`RestorePlan.SponsoredLandsNothing`, `SequenceRecovery.FeeBumpNeverSent`). Three things are taken from
  the foreign SDK: that its plain transaction class refuses a fee-bump envelope, that rebuilding one fails after the
  counter has moved, and that a parsed plain transaction carries `sorobanData`, which is read through a cast
  (packages/sdk/src/soroban-resurrect.ts:2326-2330).
- A batch that does not parse is never renumbered, so the refresh cannot save it (exactly when a run recovers:
  `SequenceRecovery.RecoveryIff`).
- A batch after the first starts without one header of 200, so its full estimate can exceed the limit
  (`GreedyBatching.HeaderLeftOut`, exactly when not: `GreedyBatching.FullEstimateIff`).
- `partialEntriesRestored` captured by a failed retry covers that retry alone (`RestoreRetries.ReportedEntries`).
  `failedAtBatchIndex` is a position in the queue of that call, and a resumed result has no `ambiguous` flag.
- `createBatches` marks nothing sequential and does not reach the fewest batches that keep every contract whole
  (`ContractPacking.NotMinimal`; no exact condition is claimed). A TTL key can be separated from the key it extends
  (`TtlPacking.TtlSeparated`, exactly when: `TtlPacking.TtlWithSiblingIff`).
- A larger simulation cache can miss where a smaller one hits (`CacheReadThrough.LargerCacheMisses`, exactly when:
  `CacheReadThrough.ReadThroughHits`).
- The byte offset given for truncated base64 is not always the number of bytes that decode
  (`XdrDiagnostics.TruncatedOffsetExample`, exactly when: `XdrDiagnostics.TruncatedOffset`).
- A circuit breaker that has let one probe through refuses until it is reset (`RetryPolicy.ProbeLatches`), and one
  with a threshold of one or less never allows a retry (`RetryPolicy.TruesBounded`).
- A standby endpoint that goes down moves the client off a primary that is up (`FailoverChoice.StandbyMoves`, exactly
  when not: `FailoverChoice.PrimaryAnswersIff`).
- `getCurrentUrl` never throws, although its comment says so (`RpcFailover.CurrentFacts`).
- A coalesced read is not always fresh (`LedgerReadCoalescer.StaleJoin`, exactly when: `LedgerReadCoalescer.FreshIff`).

## Model

| member | source | states |
|---|---|---|
| GreedyBatching.BatchKeysOptimal | packages/core/src/soroban-resurrect.ts:938-963 | No order-preserving cut of the keys that obeys the size rule uses fewer batches, for every key list; the SDK form with its entry limit and a fee that never falls with the count is included |
| GreedyBatching.GreedyStaysAhead | packages/sdk/src/soroban-resurrect.ts:1380-1422 | From any later starting point the greedy cut needs no more batches than the rest of any other allowed cut of the whole list |
| GreedyBatching.GreedyIsPartition | packages/sdk/src/soroban-resurrect.ts:1380-1422 | The batches put back together are the keys in their order, and each batch obeys the rule for its position |
| GreedyBatching.BatchBounds | packages/sdk/src/soroban-resurrect.ts:1392-1414 | No batch is empty; with two or more keys a batch keeps the 100000 limit with one header fewer than keys, the entry limit and the fee budget |
| GreedyBatching.EndsOnlyWhenFull | packages/sdk/src/soroban-resurrect.ts:1392-1414 | A batch ends only where it must: with the first key of the next one it would exceed the size, the entry limit or the fee budget |
| GreedyBatching.SdkBatchBounds | packages/sdk/src/soroban-resurrect.ts:1380-1406 | No batch has more keys than configured, or than fifty when nothing or zero is configured; a negative number leaves one key to a batch |
| GreedyBatching.FullEstimateIff | packages/sdk/src/soroban-resurrect.ts:1389-1413 | For a fee that never falls with the count, every batch of two or more keys stays within the limit with all its headers counted if and only if the greedy cut is the cut that counts every header |
| GreedyBatching.TightIff | packages/sdk/src/soroban-resurrect.ts:1389-1413 | The two cuts are the same if and only if no batch of the full cut but the first could take its next key with one header left out |
| GreedyBatching.FullEstimateTight | packages/sdk/src/soroban-resurrect.ts:1389-1413 | So the full estimate is kept exactly when the full cut is tight in that sense |
| GreedyBatching.HeaderLeftOut | packages/sdk/src/soroban-resurrect.ts:1407-1413 | The two cuts differ: a second batch that exceeds the limit by the one header its restart omits |
| GreedyBatching.BatchKeysLoop | packages/sdk/src/soroban-resurrect.ts:1380-1422 | The loop with its carried size and its three limits yields the greedy cut |
| Grouping.GroupByFacts | packages/core/src/soroban-resurrect.ts:897-914 | Each group is exactly the keys of its identifier in their given order; a group exists, and is not empty, exactly when such a key does |
| Grouping.GroupByConserves | packages/core/src/soroban-resurrect.ts:897-914 | Grouping neither loses nor repeats a key |
| Grouping.GroupByLoop | packages/core/src/soroban-resurrect.ts:897-914 | The loop over an insertion-ordered map computes the grouping |
| Grouping.GroupsInRankOrder | packages/core/src/soroban-resurrect.ts:897-914 | Grouping sorted keys puts the groups in the order of their first keys |
| RestorePipeline.DetectLoop | packages/core/src/soroban-resurrect.ts:386-442 | An empty footprint needs no query, a failed query is an error, and otherwise the loop keeps the footprint keys that the ledger did not return |
| RestorePipeline.DetectFacts | packages/core/src/soroban-resurrect.ts:417-435 | Each encoding is detected as often as the footprint names it if the ledger did not return it, and never otherwise |
| RestorePipeline.ClassifyIdempotent | packages/sdk/src/footprint-parser.ts:33-55 | Classifying what is already classified changes nothing, order included |
| RestorePipeline.BatchKeyGroupsLoop | packages/core/src/soroban-resurrect.ts:926-936 | The loop appends the cuts of the groups one after the other |
| RestorePipeline.BatchKeyGroupsFacts | packages/core/src/soroban-resurrect.ts:916-936 | Over all groups no key is lost, every batch is of one contract, and the batches of a contract are the greedy cut of its list |
| RestorePipeline.ConcurrentBatchesFacts | packages/sdk/src/soroban-resurrect.ts:1203-1210 | The concurrent batches hold each classified key once, each of one contract, cut greedily from the keys of that contract in stable priority order |
| RestorePipeline.PriorityOrder | packages/core/src/soroban-resurrect.ts:897-936 | Across the consecutive batches of one contract the restore priority never goes down |
| RestorePipeline.InstanceFirst | packages/sdk/src/footprint-parser.ts:165-205 | With the default priorities a contract instance is never in a later batch than data of the same contract |
| RestorePipeline.ContractOrder | packages/sdk/src/soroban-resurrect.ts:1203-1210 | Across all concurrent batches the contracts come in the order of their most urgent keys |
| RestorePipeline.InstanceGroupsFirst | packages/sdk/src/footprint-parser.ts:165-205 | With the default priorities every batch of a group that holds an instance comes before every batch of a group without one, such as code, which is grouped under its hash |
| RestorePipeline.PipelineConserves | packages/core/src/soroban-resurrect.ts:422-435 | From detection to the concurrent batches, every missing entry is named exactly as often as in the footprint and nothing else is named |
| KeyClassification.DetectedInOrder | packages/core/src/soroban-resurrect.ts:417-435 | What is detected stands in footprint order and is not yet classified |
| KeyClassification.ClassifiedFollowsEntry | packages/sdk/src/footprint-parser.ts:33-55 | A classified key is one of those given; its contract and type are those of its parsed entry, and its priority the map's for that type, else 0 for instances, 1 for code, 2 for data and 3 for the rest |
| KeyClassification.ClassifiedInOrder | packages/sdk/src/footprint-parser.ts:33-55 | Classified keys are in priority order, those of one priority in the order given |
| KeyClassification.OneOwnerPerBatch | packages/sdk/src/soroban-resurrect.ts:1338-1356 | The keys of one concurrent batch name the same contract or code hash in their entries, or each names none (or one called like the group of those without) |
| KeyClassification.OneContractPerBatch | packages/sdk/src/soroban-resurrect.ts:1338-1356 | Contract-data keys of one concurrent batch name the same contract in their entries |
| KeyClassification.OwnerTogether | packages/sdk/src/soroban-resurrect.ts:1338-1378 | The batches of one contract, instance and data alike, stand next to each other |
| KeyClassification.InstanceBeforeData | packages/sdk/src/footprint-parser.ts:165-190 | With the default priorities no batch with data of a contract alone comes before one with its instance, said on the parsed entries |
| RestorePlan.BuildBatches | packages/sdk/src/soroban-resurrect.ts:921-995 | An empty list or a failed account read rejects; otherwise the running counter gives batch i the number i + 1 after the account, with its index and key count |
| RestorePlan.PlanNames | packages/sdk/src/soroban-resurrect.ts:954-990 | The planned footprints together name exactly the keys of the batches |
| RestorePlan.PlanFacts | packages/sdk/src/soroban-resurrect.ts:950-990 | A plan is numbered without gaps, is in index order without repeated indices, and nothing in it counts as sent |
| RestorePlan.PlanCounts | packages/sdk/src/soroban-resurrect.ts:950-990 | Each planned batch names its keys in their order, counts them and has the number of its place; together they count every key |
| RestorePlan.FootprintsDiffer | packages/sdk/src/soroban-resurrect.ts:954-990 | Planned footprints differ when no key is named twice |
| RestorePlan.EndToEnd | packages/sdk/src/soroban-resurrect.ts:921-1077 | While no other submitter moves the account, running the built plan without a fee sponsor succeeds without a refresh and lands every archived key exactly as often as it was given |
| RestorePlan.SponsoredLandsNothing | packages/sdk/src/soroban-resurrect.ts:980-982 | With a fee sponsor the run stops at its first batch with nothing landed, whatever the network does, because line 1871 reads only plain envelopes |
| SequentialRestore.RunPartitions | packages/sdk/src/soroban-resurrect.ts:1007-1066 | Successes and remaining batches are the input split in two in order, identity by identity, although the refresh replaces transactions and steps the index back |
| SequentialRestore.RunOutcomes | packages/sdk/src/soroban-resurrect.ts:1002-1076 | Every batch counted as done carries a hash; a rejected refresh leaves something undone; at most one refresh per run, and none without a source account |
| RecordedHashes.RunRecords | packages/sdk/src/soroban-resurrect.ts:1011-1066 | One submission per batch and one per rejection: the successes carry the hashes of consecutive delivered submissions, with the rejected one left out, and a run that stops carries the message and the doubt of its last submission |
| RecordedHashes.HashOf | packages/sdk/src/soroban-resurrect.ts:1012-1017 | Success number i carries the hash of submission i before the refresh and of submission i + 1 after it |
| SequentialRestore.RunLands | packages/sdk/src/soroban-resurrect.ts:1011-1066 | The footprints a run lands are those of its successes and what took effect unseen; if nothing did, those of its successes in order |
| SequentialRestore.RunPhases | packages/sdk/src/soroban-resurrect.ts:1007-1066 | A run is its first phase up to the first submission that is not confirmed, and, if that is stale and the account can be read, a second phase over the rebuilt rest |
| SequentialRestore.PhaseLands | packages/sdk/src/soroban-resurrect.ts:1011-1019 | Without a refresh a run lands the first so many footprints of its queue, in order |
| SequentialRestore.ClearRunsAreRecorded | packages/sdk/src/soroban-resurrect.ts:1020-1064 | When no outcome is in doubt and no answer to a send is lost, nothing takes effect unseen and nothing is reported ambiguous |
| RestoreGuards.RunEndsIff | packages/sdk/src/soroban-resurrect.ts:1023-1034 | The call rejects exactly if the first rejection is stale, a source account is given and it cannot be read; something takes effect unseen exactly if the submission before or after the refresh that is not confirmed was applied |
| RestoreGuards.LostIff | packages/sdk/src/soroban-resurrect.ts:1023-1034 | The caller is told of all that lands if and only if no such submission was applied and, if the call rejects, no batch before the rejected one was confirmed: a condition on the queue, the ledger and the network |
| RestoreGuards.LandsTwiceIff | packages/sdk/src/soroban-resurrect.ts:1874-1878 | Of batches with different footprints, a run lands one twice if and only if a stale reply answers a transaction that was itself applied and the rebuilt one lands as well |
| RestoreGuards.StaleReplyLandsTwice | packages/sdk/src/soroban-resurrect.ts:1023-1034 | A concrete run: the answer to an applied send is lost, the repeated send is stale, and the batch lands again in the same run, which reports success |
| SequentialRestore.RebuiltKeepsIdentity | packages/sdk/src/soroban-resurrect.ts:2305-2363 | Rebuilding keeps index, footprint and key count of every batch, whether or not its transaction could be rebuilt |
| SequentialRestore.RebuiltAt | packages/sdk/src/soroban-resurrect.ts:2319-2363 | A rebuilt batch is pending with no hash or error left, and a plain one has the number after those that the batches before it use up |
| Network.SubmitMeans | packages/sdk/src/soroban-resurrect.ts:1865-1937 | When a submission is confirmed, found stale or in doubt, and when it takes effect although not confirmed |
| RestoreReceipts.RunReports | packages/sdk/src/soroban-resurrect.ts:1056-1076 | The reported batches are the outcomes of the first batches of the queue, and the run succeeds exactly when all were reached and succeeded |
| RestoreReports.ExecuteTells | packages/sdk/src/soroban-resurrect.ts:1020-1076 | A call that returns counts the keys of the batches it lists as successful, and either reports them all successful or gives the position, the message and the doubt of its last submission |
| RestoreReports.ExecuteCaptures | packages/sdk/src/soroban-resurrect.ts:1043-1068 | The captured state is the reported failure: its batch and all after it, its position and the keys counted; success clears it and a rejected call leaves it |
| RestoreReports.ResumeOrder | packages/sdk/src/soroban-resurrect.ts:2239-2257 | A resumed round submits in index order and nothing twice |
| RestoreReports.ResumeSubmits | packages/sdk/src/soroban-resurrect.ts:2240-2257 | It submits exactly the batches that are neither successful nor carry a hash, with status, hash and error cleared |
| RestoreReports.ResumeTells | packages/sdk/src/soroban-resurrect.ts:2253-2270 | It mentions a failure exactly when it has one: by position among the pending batches, with the message of its last submission |
| RestoreReports.LatestIsLast | packages/sdk/src/soroban-resurrect.ts:2259-2259 | Of two results with one index the later counts |
| RestoreReceipts.OverlayIsDealt | packages/sdk/src/soroban-resurrect.ts:2259-2260 | Merging results by batch index is dealing them out in order to the batches that were pending |
| RestoreRounds.ResumeRound | packages/sdk/src/soroban-resurrect.ts:2235-2271 | A resumed round returns every receipt batch once in index order, success exactly when all have succeeded, the key count of the successes; the ledger gains the newly reported successes and what was lost, nothing else |
| RestoreRounds.ResumeRejects | packages/sdk/src/soroban-resurrect.ts:2253-2257 | A resumed round that rejects had something pending, and all it landed goes unrecorded |
| RestoreRounds.ReceiptOfRound | packages/sdk/src/soroban-resurrect.ts:2176-2187 | A receipt made from a resumed round lists the plan in planned order, and sorting it by index gives back the batches of that round |
| RestoreRounds.RoundsFaithful | packages/sdk/src/soroban-resurrect.ts:2176-2271 | Over any number of execute and resume rounds, whatever the network does, the successes in the receipt are exactly what landed apart from what was lost, and success means all of the plan |
| RestoreRounds.AtMostOnce | packages/sdk/src/soroban-resurrect.ts:997-1077 | Over any number of rounds no footprint lands more often than planned other than by being lost, and a successful round leaves every planned footprint landed once beside exactly what was lost |
| RestoreRounds.FaithfulLandsOnce | packages/sdk/src/soroban-resurrect.ts:2235-2271 | A receipt that records what landed bounds it: no footprint above the plan other than lost ones, and the whole plan on success |
| RestoreRounds.LostNeverIff | packages/sdk/src/soroban-resurrect.ts:1027-1034 | Nothing is lost over any number of rounds if and only if the guard on queue, ledger and network is false at every one of them |
| RestoreRounds.ClearRoundsTell | packages/sdk/src/types.ts:430-448 | With no doubtful outcome, no lost answer and no failed account read the guard is false at every round |
| RestoreRounds.RecordedIff | packages/sdk/src/soroban-resurrect.ts:1020-1034 | The latest receipt matches what landed if and only if the guard was false at every round: a loss is never made good |
| RestoreRounds.SuccessExactIff | packages/sdk/src/soroban-resurrect.ts:2235-2271 | A restore that reports success has landed the plan exactly once if and only if the guard was false at every round |
| RestoreRepeats.LandedTwiceIff | packages/sdk/src/soroban-resurrect.ts:997-1077 | For a plan in index order with different footprints, over any number of rounds: some footprint has landed twice if and only if a round landed one again after a stale reply to an applied submission, or some round landed anything after one whose guard held; all said of queues, ledgers and network |
| RestoreRepeats.NextDue | packages/sdk/src/soroban-resurrect.ts:2239-2260 | What a resumed round leaves to be submitted is its queue without the batches it confirmed, or all of it if it rejected |
| RestoreRepeats.NextTracked | packages/sdk/src/soroban-resurrect.ts:2235-2271 | While nothing has landed twice, what earlier rounds lost is what is submitted first in the next |
| RestoreGuards.LandsSomethingIff | packages/sdk/src/soroban-resurrect.ts:1007-1066 | A run lands anything at all if and only if its head does, at once or rebuilt after a stale rejection |
| RestoreGuards.LandsInOrder | packages/sdk/src/soroban-resurrect.ts:1007-1066 | A run that lands nothing twice lands the first so many footprints of its queue, in order |
| RestoreRounds.RejectedCallLandsTwice | packages/sdk/src/soroban-resurrect.ts:1030-1030 | A concrete run: the read of the refresh fails, the call rejects, and resuming from the plan lands the first batch a second time and reports success |
| RestoreRetries.AttemptsConserve | packages/sdk/src/soroban-resurrect.ts:2378-2425 | Over any number of retries of the captured state, what has landed followed by what is left equals what had landed before followed by the plan, in order, if the guards on batches, ledger and network are false at every call, and for a client without an older failed state only then |
| RestoreRetries.ClearAttemptsTell | packages/sdk/src/types.ts:430-448 | With no doubtful outcome, no lost answer and no failed account read those guards are false |
| RestoreRetries.RetryAccounts | packages/sdk/src/soroban-resurrect.ts:2395-2401 | One retry leaves one too many exactly under its guard, and otherwise moves batches from what is left to what has landed |
| RetryRepeats.RetriedTwiceIff | packages/sdk/src/soroban-resurrect.ts:2378-2425 | For batches with different footprints and a client without an older failed state, over any number of retries: some footprint has landed twice if and only if a call landed one again after a wrong stale reply, or some retry landed anything after a call that did not tell of all it landed |
| RetryRepeats.NextTracked | packages/sdk/src/soroban-resurrect.ts:2395-2401 | While nothing has landed twice, what has landed is a beginning of the plan and what is left is an end of it |
| RestoreRetries.ReportedEntries | packages/sdk/src/soroban-resurrect.ts:2403-2423 | The count a retry returns is the true total exactly when the state it was given held it, and the state a failed retry captures holds the true total only if nothing had been restored earlier |
| RestoreReports.RetryTells | packages/sdk/src/soroban-resurrect.ts:2382-2401 | With nothing left to retry the given count is returned; else the call rejects exactly when the account cannot be read or the run of the rebuilt batches rejects |
| SequenceRecovery.RecoveryIff | packages/sdk/src/soroban-resurrect.ts:1027-1034 | For any mix of plain, fee-bumped and unparsable batches numbered from the account, or plain ones numbered anyhow: with a source account a run restores everything if and only if at the first rejection all that is left can be rebuilt and nobody moves the account while it is resubmitted; it refreshes exactly when that rejection is stale |
| SequenceRecovery.Recovery | packages/sdk/src/soroban-resurrect.ts:997-1077 | Outside movement confined to before the first rejection, and what is left then can be rebuilt: at most one refresh, and every batch lands once |
| SequenceRecovery.ConsecutiveRun | packages/sdk/src/soroban-resurrect.ts:2315-2332 | Batches numbered on from the account all go through exactly when the account is left alone |
| SequenceRecovery.NeverStale | packages/sdk/src/soroban-resurrect.ts:950-960 | With no outside movement no planned batch is rejected, unless it is a fee bump |
| SequenceRecovery.BehindItsTurn | packages/sdk/src/soroban-resurrect.ts:2346-2351 | A batch that was not rebuilt and is behind its turn stops the run before its end |
| SequenceRecovery.FeeBumpNeverSent | packages/sdk/src/soroban-resurrect.ts:1871-1871 | Whatever the network does, a run with a fee-bumped batch does not succeed and does not get past it |
| RestoreClient.RestoreClient.ExecuteRestoreBatches | packages/sdk/src/soroban-resurrect.ts:997-1077 | The loop with its mutable queue, index step back and captured failed state does what the run specification says, result, ledger and state |
| RestoreClient.RestoreClient.RebuildRestoreBatches | packages/sdk/src/soroban-resurrect.ts:2305-2363 | The loop numbers every batch that parses on from the account and keeps the others; a failed read rejects |
| RestoreClient.RestoreClient.ResumeRestoreBatches | packages/sdk/src/soroban-resurrect.ts:2235-2271 | Sorting, filtering, running and merging give the resumed round of the specification, and the failed state is left alone, captured or cleared as its run requires |
| RestoreClient.RestoreClient.RetryFailedRestore | packages/sdk/src/soroban-resurrect.ts:2378-2425 | Rebuilding, running and clearing the state give the retry of the specification |
| RestoreClient.RestoreClient.SubmitSignedTransaction | packages/sdk/src/soroban-resurrect.ts:1865-1937 | One submission, with its repeated sends, takes its reply and its effect from the ledger model |
| InFlightSubmissions.OneInFlight | packages/sdk/src/soroban-resurrect.ts:1848-1863 | However calls and settlements interleave, one transaction is never in flight twice, and the map is empty exactly when all have settled |
| InFlightSubmissions.CallShares | packages/sdk/src/soroban-resurrect.ts:1852-1862 | A call gets the submission in flight for its transaction, and a new one is sent exactly when there is none, also after a failure |
| InFlightSubmissions.OutcomesFinal | packages/sdk/src/soroban-resurrect.ts:1858-1862 | A call keeps the submission it was given, whose outcome, once known, is final |
| InFlightSubmissions.Submitter.SubmitSignedTransaction | packages/sdk/src/soroban-resurrect.ts:1848-1863 | The map operation of a call |
| Semaphore.Acquired | packages/sdk/src/soroban-resurrect.ts:1119-1127 | Acquiring keeps the semaphore sound: never over the limit, and nobody waits while a slot is free |
| Semaphore.Released | packages/sdk/src/soroban-resurrect.ts:1129-1137 | Releasing keeps it sound: with a waiter the slot passes to the longest waiting task, so no wakeup is lost |
| Semaphore.InlineSemaphore.Acquire | packages/sdk/src/soroban-resurrect.ts:1119-1127 | The inline semaphore takes a slot or queues as the abstract first-in-first-out semaphore does |
| Semaphore.InlineSemaphore.Release | packages/sdk/src/soroban-resurrect.ts:1129-1137 | Giving the slot up and taking it again for the waiter is one abstract release, and wakes the same task |
| Semaphore.ConcurrencyLimiter.Acquire | packages/rpc/src/concurrency.ts:24-30 | The limiter refines the same abstract acquire |
| Semaphore.ConcurrencyLimiter.Release | packages/rpc/src/concurrency.ts:32-40 | Handing the slot over without touching the counter is the same abstract release |
| ConcurrentRestore.ReachableInv | packages/sdk/src/soroban-resurrect.ts:1114-1162 | In every interleaving: holders equal the active count and stay within the limit, waiters only at the limit, slots in index order, each result written at most once by its own task, total and failure list exact for the finished tasks |
| ConcurrentRestore.Progress | packages/sdk/src/soroban-resurrect.ts:1114-1162 | No interleaving gets stuck before every task has finished |
| ConcurrentRestore.RunsEnd | packages/sdk/src/soroban-resurrect.ts:1140-1162 | Every interleaving ends, after at most four steps per batch |
| ConcurrentRestore.ReportDetermined | packages/sdk/src/soroban-resurrect.ts:1161-1184 | Whatever the interleaving, the report is the same: every outcome in its own place, the sum of the successful keys, exactly the failing indices in increasing order |
| RestoreVerdicts.ReportFollowsVerdicts | packages/sdk/src/soroban-resurrect.ts:1146-1184 | On the verdicts alone: a confirmed batch stands in its place as a success with its hash, a rejected one as a failure with its message, the failed indices are exactly the rejected ones, the total is over the confirmed ones, and success means none was rejected |
| ConcurrentRestore.StepInv | packages/sdk/src/soroban-resurrect.ts:1140-1159 | Each single step keeps the invariant |
| ConcurrentRestore.ConcurrentExecutor.constructor | packages/sdk/src/soroban-resurrect.ts:1101-1117 | The executor starts in the initial state, with a limit of at least one |
| ConcurrentRestore.ConcurrentExecutor.Arrive | packages/sdk/src/soroban-resurrect.ts:1140-1141 | A task reaching its acquire is the step of the model |
| ConcurrentRestore.ConcurrentExecutor.Settle | packages/sdk/src/soroban-resurrect.ts:1146-1158 | Recording an outcome and releasing the slot are two steps of the model with nothing between them |
| ContractPacking.CreateBatchesFacts | packages/utils/src/batching.ts:76-126 | No key lost or repeated, no batch empty or over the maximum, each contract in stable priority order |
| ContractPacking.ContractWhole | packages/utils/src/batching.ts:105-113 | The keys of a contract that fit in one batch form one stretch of one batch |
| ContractPacking.ContractAlone | packages/utils/src/batching.ts:115-120 | A contract with too many keys shares no batch with another contract |
| TtlPacking.TtlResolves | packages/utils/src/batching.ts:17-32 | A TTL key without a contract of its own belongs to the contract of the key it extends, when no other key claims that identifier for another contract |
| TtlPacking.ShareIff | packages/utils/src/batching.ts:105-120 | Two keys of one contract share a batch if and only if the contract fits in one batch or no multiple of the maximum lies between their places in priority order |
| TtlPacking.TtlWithSiblingIff | packages/utils/src/batching.ts:4-10 | A TTL key is batched with the key it extends under exactly that condition on their places |
| TtlPacking.SiblingPlaces | packages/utils/src/batching.ts:17-32 | Both have a place among the keys of the contract |
| TtlPacking.TtlSeparated | packages/utils/src/batching.ts:117-120 | With two keys to a batch and another data key of the contract between them, the two are separated |
| ContractPacking.NeighboursOverflow | packages/utils/src/batching.ts:105-113 | When all groups fit, two neighbouring batches never fit in one |
| ContractPacking.AtMostTwice | packages/utils/src/batching.ts:76-126 | When all groups fit, at most twice the batches of any division of as many keys, and (k - 1)(max + 1) is at most 2N |
| ContractPacking.NotMinimal | packages/utils/src/batching.ts:76-126 | Contracts of two, two, one and one keys take three batches of three although two batches hold all four contracts whole: fewest possible is not met |
| ContractPacking.CreateBatchesCount | packages/utils/src/batching.ts:76-126 | When every contract fits, createBatches leaves no two neighbouring batches that would fit in one, and uses at most twice the batches of any division of as many keys |
| ContractPacking.OversizedAlone | packages/utils/src/batching.ts:115-121 | Each batch is a piece of one oversized group or holds no key of any |
| ContractPacking.SortedGroupsFacts | packages/utils/src/batching.ts:81-94 | For any contract, the groups handed to the packing hold its keys stably sorted, once |
| PackingOrder.ContractsInOrder | packages/utils/src/batching.ts:81-94 | In the batches one after the other every key of a contract with a smaller smallest priority comes before every key of one with a larger; on a tie the contract that first occurs in the input comes first |
| PackingOrder.OneComesFirst | packages/utils/src/batching.ts:81-94 | Of two contracts that occur one comes before the other in that sense |
| PackingOrder.ContractIs | packages/utils/src/batching.ts:14-32 | A key belongs to the contract it names, else to that of the last key with the identifier it extends if one names a contract, else to the group of the unknown |
| PackingOrder.BatchesBounded | packages/utils/src/batching.ts:76-78 | No batch is empty or larger than asked for, or than fifty when nothing or zero is |
| ContractPacking.CreateBatchesLoop | packages/utils/src/batching.ts:76-126 | The loops with their flush compute the packing |
| ContractPacking.PackLoop | packages/utils/src/batching.ts:96-125 | The packing loop with its open batch computes the packing of the groups |
| LruModel.RunFacts | packages/rpc/src/simulation-cache.ts:87-159 | In every reachable state: size within the maximum, iteration order strictly by last touch, every entry exactly what was last set for its key, hits plus misses the gets since the last reset |
| LruModel.HitsAndEvictions | packages/rpc/src/simulation-cache.ts:87-147 | A hit returns the last value set and never an expired one; an eviction removes exactly the least recently touched entry |
| CacheLookups.LookupAfter | packages/rpc/src/simulation-cache.ts:87-182 | What every lookup finds after every operation, on lookups and times alone: an expiry pass keeps exactly the lines that would hit at its time, a lookup or a check of a key leaves the other keys and its own unless expired, an invalidation only takes its own |
| CacheLookups.UnexpiredStays | packages/rpc/src/simulation-cache.ts:87-182 | A line that has not expired goes only by an eviction, by a set or an invalidation of its own key, or when everything is removed |
| CacheLookups.CountersAfter | packages/rpc/src/simulation-cache.ts:87-147 | A get counts as a hit exactly when the key is there and unexpired, else as a miss; an eviction counts once; only clearing and resetting set the counters back |
| CacheInclusion.Inclusion | packages/rpc/src/simulation-cache.ts:87-159 | Under the same operations a larger cache holds every entry of a smaller one with value, expiry and relative order, differs by at most the difference of capacities, and has no fewer hits and no more evictions |
| CacheInclusion.HitsGrowWithCapacity | packages/rpc/src/simulation-cache.ts:87-110 | A key that hits in the smaller cache hits in the larger one with the same answer |
| CacheReadThrough.ReadThroughStacked | packages/sdk/src/soroban-resurrect.ts:538-626 | Used as the client uses it, looked up and set after a miss, the keys of a smaller cache are the last keys of a larger one, whatever has expired |
| CacheReadThrough.HitIff | packages/sdk/src/soroban-resurrect.ts:538-626 | A request hits if and only if its key is among the last different keys asked for, as many as the capacity, and was fetched no longer ago than the time to live: a condition on the requests alone |
| CacheReadThrough.ReadThroughHits | packages/sdk/src/soroban-resurrect.ts:538-626 | A larger cache misses where a smaller one hits if and only if the smaller one still holds the key and only the larger one fetched it too long ago |
| CacheReadThrough.LargerCacheMisses | packages/sdk/src/soroban-resurrect.ts:538-626 | Requests at which the smaller cache hits and the larger misses |
| SimulationCache.SimulationCache.constructor | packages/rpc/src/simulation-cache.ts:59-62 | A new cache is the empty recency list with a capacity of at least one |
| SimulationCache.SimulationCache.Get | packages/rpc/src/simulation-cache.ts:87-110 | Lookup, expiry, re-insertion and counters are the abstract get |
| SimulationCache.SimulationCache.Set | packages/rpc/src/simulation-cache.ts:117-134 | Eviction and re-insertion are the abstract set |
| SimulationCache.SimulationCache.EvictLru | packages/rpc/src/simulation-cache.ts:139-147 | The first entry in iteration order goes, and is counted |
| SimulationCache.SimulationCache.Has | packages/rpc/src/simulation-cache.ts:212-222 | The abstract has: drops an expired entry, touches no recency and no counter |
| SimulationCache.SimulationCache.ClearExpired | packages/rpc/src/simulation-cache.ts:152-159 | Deleting while iterating removes exactly the expired entries and keeps the order of the rest |
| SimulationCache.SimulationCache.Invalidate | packages/rpc/src/simulation-cache.ts:173-175 | The abstract invalidation of one key |
| LedgerReadCoalescer.ReachableInv | packages/sdk/src/ledger-read-coalescer.ts:39-90 | In every interleaving of requests, reads, settlements and releases the map holds exactly the unreleased promises, every call waits once per distinct key on a fetch of that key, and the counters balance |
| LedgerReadCoalescer.OneFetchPerKey | packages/sdk/src/ledger-read-coalescer.ts:60-90 | At most one fetch of a key is unreleased, the identity test in release never fails, and the map is empty exactly when all is released |
| LedgerReadCoalescer.CountsBalance | packages/sdk/src/ledger-read-coalescer.ts:41-62 | Keys requested are keys coalesced plus keys sent; with the duplicates they are all keys asked for; calls counted are fetches made |
| LedgerReadCoalescer.JoinsOnlyUnreleased | packages/sdk/src/ledger-read-coalescer.ts:50-58 | A request joins the unreleased fetch of a key if there is one and otherwise sends the key in a new fetch, so a failed read is fetched again after its release |
| LedgerReadCoalescer.AnswersExact | packages/sdk/src/ledger-read-coalescer.ts:79-80 | A caller is rejected exactly when a fetch it waits on fails, and otherwise gets for each distinct key what that fetch brought, and nothing else |
| LedgerReadCoalescer.AnswerInOrder | packages/sdk/src/ledger-read-coalescer.ts:50-80 | Entries come in the order of the waits: first the keys joined, then those sent, each in the order asked for |
| LedgerReadCoalescer.AnswersSettle | packages/sdk/src/ledger-read-coalescer.ts:79-80 | An answer, once there, never changes |
| LedgerReadCoalescer.AgreesWithPlainRead | packages/sdk/src/ledger-read-coalescer.ts:24-30 | Every key in an answer has the value of the ledger when its fetch was read; for entries that do not come back once replaced, a read of its own could have brought it if and only if the fetch was read since the call or the entry had not changed from the reading to the call |
| LedgerReadCoalescer.FreshIff | packages/sdk/src/ledger-read-coalescer.ts:24-30 | That condition for any answer, reading time and call time |
| LedgerReadCoalescer.StaleJoin | packages/sdk/src/ledger-read-coalescer.ts:24-30 | A caller that joins late can get an entry the ledger no longer held when it called, against the documented freshness |
| LedgerReadCoalescer.LedgerReadCoalescer.GetLedgerEntries | packages/sdk/src/ledger-read-coalescer.ts:39-77 | De-duplication, joining, counting and registration are the abstract request |
| LedgerReadCoalescer.LedgerReadCoalescer.Release | packages/sdk/src/ledger-read-coalescer.ts:87-89 | Removes the entry only if it is the settled promise |
| LedgerReadCoalescer.IndexEntries | packages/sdk/src/ledger-read-coalescer.ts:62-66 | The map filled from the fetched entries finds, for each key, the last entry with that key |
| LedgerReadCoalescer.LaterEntryCounts | packages/sdk/src/ledger-read-coalescer.ts:62-66 | Of two entries with one key the later is the one found |
| RpcFailover.HealthIsHysteresis | packages/rpc/src/rpc-failover.ts:95-130 | After any events each endpoint is up or down exactly as a two-threshold automaton on its own successes and failures says |
| RpcFailover.CurrentFacts | packages/rpc/src/rpc-failover.ts:47-86 | The current url is a healthy endpoint whenever one exists, and otherwise the first with the fewest consecutive failures; the call always answers |
| FailoverChoice.AnswerWithoutStickiness | packages/rpc/src/rpc-failover.ts:68-86 | Without stickiness the endpoint at the current position answers and stays while it is up by its own history; when it is down, the next one that is up in cyclic order answers, or with none up the first with the fewest failures |
| FailoverChoice.AnswerFollowsHistory | packages/rpc/src/rpc-failover.ts:47-86 | With stickiness too: the sticky endpoint answers while it holds, else the one at the position after the question |
| FailoverChoice.PositionFollowsHistory | packages/rpc/src/rpc-failover.ts:117-130 | How each event moves the position, on histories: not on a success or on a failure that takes no endpoint down, and on to the next endpoint up when one goes down, whichever it is |
| FailoverChoice.StickyFollowsHistory | packages/rpc/src/rpc-failover.ts:49-84 | A question that no sticky endpoint answers makes its own answer sticky, and nothing else changes what is |
| FailoverChoice.PrimaryAnswers | packages/rpc/src/rpc-failover.ts:47-86 | The first url is the answer as long as no endpoint has gone down, and with two endpoints as long as the first has not |
| FailoverChoice.PrimaryAnswersIff | packages/rpc/src/rpc-failover.ts:126-130 | While the first endpoint stays up, it is the answer throughout if and only if there are at most two endpoints or none has gone down |
| FailoverChoice.StandbyMoves | packages/rpc/src/rpc-failover.ts:126-130 | Three endpoints, where a failure of the second moves the client to the third although the first has never failed |
| FailoverChoice.EndpointAt | packages/rpc/src/rpc-failover.ts:95-130 | The counters of an endpoint are those of its own history |
| FailoverChoice.LastChecked | packages/rpc/src/rpc-failover.ts:95-121 | Its time of last check is that of the last report on it |
| RpcFailover.StickyPersists | packages/rpc/src/rpc-failover.ts:49-65 | A sticky endpoint keeps being returned as long as every question comes within its window and finds it up by its own history, whatever happens to the others and to the index |
| RpcFailover.PickFacts | packages/rpc/src/rpc-failover.ts:182-203 | The pick is a healthy endpoint if any, else the first with the fewest failures |
| RpcFailover.RpcFailoverManager.GetCurrentUrl | packages/rpc/src/rpc-failover.ts:47-86 | Answer and new state are those of the model |
| RpcFailover.RpcFailoverManager.RecordSuccess | packages/rpc/src/rpc-failover.ts:95-107 | Counters, restoration and time of check are those of the model |
| RpcFailover.RpcFailoverManager.RecordFailure | packages/rpc/src/rpc-failover.ts:117-130 | Counters, fall-back and move to the next endpoint are those of the model |
| RpcFailover.RpcFailoverManager.PickNextHealthy | packages/rpc/src/rpc-failover.ts:182-203 | The two loops compute the pick |
| RetryPolicy.TruesBounded | packages/rpc/src/retry-policy.ts:133-164 | Between resets, for any clock and errors, shouldRetry answers true at most failureThreshold times, and never for a threshold of one or less |
| RetryPolicy.BoundReached | packages/rpc/src/retry-policy.ts:133-164 | That bound is reached |
| RetryPolicy.ProbeLatches | packages/rpc/src/retry-policy.ts:135-145 | Once a probe is let through, the answer stays false until a reset |
| RetryPolicy.AnswerIff | packages/rpc/src/retry-policy.ts:133-164 | When the answer is true: a retryable error within the attempt limit, and a circuit that is closed and stays so, or whose timeout is over with no probe under way and a threshold above one |
| RetryPolicy.Opens | packages/rpc/src/retry-policy.ts:150-160 | From a reset the circuit opens at the consultation that reaches the threshold, at its time |
| RetryPolicy.StaysOpen | packages/rpc/src/retry-policy.ts:135-148 | An open circuit refuses and does not change until its timeout is over |
| RetryPolicy.HalfOpens | packages/rpc/src/retry-policy.ts:135-148 | The first consultation after that lets one probe through and latches |
| RetryPolicy.LoopFacts | packages/sdk/src/soroban-resurrect.ts:479-533 | The operation is called once more than the policy answered true, at most maxRetries + 1 times, and the throw after the loop is reached exactly for a negative maxRetries |
| RetryPolicy.LoopCauses | packages/sdk/src/soroban-resurrect.ts:479-533 | Every call but the last failed with a retryable error; the loop returns exactly when the last one succeeds, and then the breaker is reset |
| RetryPolicy.OutageBounded | packages/rpc/src/retry-policy.ts:133-164 | While nothing succeeds, operations one after the other on one breaker together make at most failureThreshold calls beyond their first ones |
| RetryPolicy.InterleavedOutageBounded | packages/rpc/src/retry-policy.ts:133-164 | The same however the consultations of operations that run at the same time interleave |
| RetryPolicy.CircuitBreaker.Decide | packages/rpc/src/retry-policy.ts:133-164 | The method changes the three fields and answers as the model does |
| RetryPolicy.CircuitBreaker.RetryLoop | packages/sdk/src/soroban-resurrect.ts:479-533 | The loop with this breaker as its policy behaves as the model |
| DeadlineRetry.RunFacts | packages/rpc/src/retry.ts:27-51 | Every retry follows a retryable failure after its Retry-After or else the policy delay, within limit and budget; the run stops exactly at the first attempt that did not fail retryably, used up the limit, or whose wait would end past the budget; and it succeeds exactly when that attempt does |
| DeadlineRetry.WithinLimits | packages/rpc/src/retry.ts:36-48 | At most maxRetries + 1 attempts, and no retry starts after startedAt + deadlineMs |
| DeadlineRetry.WithRetry | packages/rpc/src/retry.ts:27-51 | The loop with its clock and sleeps makes exactly the attempts of the model |
| XdrDiagnostics.Describe | packages/rpc/src/xdr-diagnostics.ts:38-93 | Valid exactly for padded base64 text of section 4 of RFC 4648, with the length of what it decodes to; otherwise the least offending index and the byte where its group starts, or truncation |
| XdrDiagnostics.CodecRoundTrip | packages/rpc/src/xdr-diagnostics.ts:85-92 | The reference codec is sound: what is encoded is well formed and decodes to itself |
| XdrDiagnostics.DescribeEncoded | packages/rpc/src/xdr-diagnostics.ts:85-92 | The encoding of every non-empty byte string is found valid, with its length |
| XdrDiagnostics.WellFormedIff | packages/rpc/src/xdr-diagnostics.ts:52-83 | Well-formedness by quanta is the character-by-character test |
| XdrDiagnostics.TruncatedOffset | packages/rpc/src/xdr-diagnostics.ts:74-83 | The offset reported for truncated text is the number of decodable bytes exactly without padding, or with one padding character and a length one over a multiple of four |
| XdrDiagnostics.TruncatedOffsetExample | packages/rpc/src/xdr-diagnostics.ts:74-83 | A text of allowed characters for which two bytes are reported and one decodes |
| AuthEntries.WalkFindsCalls | packages/sdk/src/auth-entry-restoration.ts:43-69 | The walk lists exactly the contracts called somewhere in the invocation tree |
| AuthEntries.WalkCounts | packages/sdk/src/auth-entry-restoration.ts:47-67 | It lists every call as often as it occurs, the root first |
| AuthEntries.WalkAllInOrder | packages/sdk/src/auth-entry-restoration.ts:47-67 | The walks of the sub-invocations follow one another in their order |
| AuthEntries.WalkInto | packages/sdk/src/auth-entry-restoration.ts:47-67 | The recursive walk pushes that list, a call before its sub-calls |
| AuthEntries.DetectPartitions | packages/sdk/src/auth-entry-restoration.ts:78-99 | The scan splits the entries in two, in order, by whether an archived contract is called |
| AuthEntries.DetectConserves | packages/sdk/src/auth-entry-restoration.ts:87-96 | Each entry ends up on one side, as often as it was given |
| AuthEntries.ScanCarries | packages/sdk/src/auth-entry-restoration.ts:84-96 | A valid entry comes with every contract called in it, none archived; an expired one with those that are archived |
| AuthEntries.DetectLoop | packages/sdk/src/auth-entry-restoration.ts:78-99 | The loop computes the scan |
| AuthEntries.KeysExact | packages/sdk/src/auth-entry-restoration.ts:105-120 | The keys to restore are listed once each and are exactly the archived contracts called somewhere in some entry |
| AuthEntries.RestoreIsFixpoint | packages/sdk/src/auth-entry-restoration.ts:101-120 | With those keys no longer archived a second scan finds every entry valid |
| AuthEntries.KeysToRestoreLoop | packages/sdk/src/auth-entry-restoration.ts:105-120 | The loop with its seen set computes those keys |
| EventDeduplicator.PruningInvisible | packages/sdk/src/event-deduplicator.ts:35-63 | With a clock that does not go back, every answer is that of a reference that never prunes |
| EventDeduplicator.EmissionsApart | packages/sdk/src/event-deduplicator.ts:41-50 | Two events of one sequence that the pruned map lets through are at least a window apart |
| EventDeduplicator.SuppressionNearEmission | packages/sdk/src/event-deduplicator.ts:39-46 | Every event the pruned map suppresses is within a window of one it let through, so suppressing does not extend the window |
| EventDeduplicator.EventDeduplicator.IsDuplicate | packages/sdk/src/event-deduplicator.ts:35-51 | Answer and new map are those of the model |
| EventDeduplicator.EventDeduplicator.PruneOldEntries | packages/sdk/src/event-deduplicator.ts:57-63 | Deleting while iterating removes exactly the entries out of their window |

## Left out

- XDR parsing and encoding, transaction builders, signing, hashing and fee-bump wrapping: foreign code; a transaction is a footprint, a sequence number and whether it can be rebuilt.
- HTTP, WebSockets, timers, logging, telemetry and error texts.
- `detectArchivedKeys` and `simulateDiff` of the SDK, whose text does not parse; detection follows the core package.
- The helpers that the core package calls without defining them, and the fee ceiling that only tests mention.
- RestoreRounds.AtMostOnce: a footprint that takes effect without a confirmation counts as lost, because the code does not establish whether it did; SUBMISSION_AMBIGUOUS errors are not recognised as ambiguous by it.
- A submission without a confirmation that takes effect only later, after further submissions: it takes effect at once or not at all.
- GreedyBatching.BatchKeysOptimal: the fee estimate is a function of the count that never falls as the count grows; with dynamic estimation two calls may differ, which this does not cover.
- InFlightSubmissions: the executors submit without going through it, so two equal transactions in one call are two submissions in their models.
- Account reads return the current sequence number of the ledger or fail; a lagging read is not modelled.
- LedgerReadCoalescer.FreshIff: for an entry that comes back after it was replaced, an answer can agree with a later read by coincidence; the condition is then sufficient only.
- RestoreClient.RestoreClient.SubmitSignedTransaction: signing, repeated sends, polling and reconciliation are one step whose result the network model decides.
- CacheReadThrough.HitIff: a lookup and the fill after a miss happen at one time, while the client waits for the network between them, so overlapping simulations are not covered.
- Network ordering of concurrent submissions from one account: the outcome of each submission is given, because the code does not order them.
- ConcurrentRestore: a signing callback or submission that never settles; every submission is taken to end.
- LedgerReadCoalescer.GetLedgerEntries: a fetcher that throws before it returns a promise, and the caller's own encodings, which are taken to be right.
- The cache-key hash: keys are opaque, and nothing is claimed about the transactions behind them.
- SimulationCache.Get: the clock is read once per operation, and access counts and times are kept but not part of the abstraction; statistics percentages are not modelled.
- `FootprintCache`, whose eviction is in a library.
- `keepTtlWithSibling`, which nothing calls, `groupKeysByPriority`, and `createBatches` with a negative maximum.
- ContractPacking.AtMostTwice: groups that all fit in one batch; an oversized group closes the open batch, so the bound needs a term for each of them.
- `buildRestoreTransaction`, which takes the first batch only, and `executeRestoreThenOriginalBatches`, which passes no source account.
- The stateless backoff policies: their delays are expressions, one of them random; a delay is a parameter here.
- The sub-type of asset-contract keys, which does not influence order or batching.
- The range check in the constructors of the limiter and the failover manager is a precondition.
- Framework bindings, wallet adapters, dependency injection, translations, code modifications and the WebAssembly wrapper: glue.
