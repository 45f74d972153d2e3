# Verified model of the block-indexing pipeline

The indexer turns out-of-order, duplicated fetch results into an ordered, gap-free, persisted chain of blocks. This project
models that path in Dafny and proves what it keeps: scheduling (`TailFollow`, `Fetcher`), the reordering `Sequencer`, the
parent-hash check and reorg handling of the processor, the `AsyncWriter`, the sliding-window limiter, the orchestrator's
command machine, the weighted node choice and the hot buffer. `dafny verify dfyconfig.toml` checks all of it.

Components that the program updates in place are classes whose methods carry the program's branches and loops; each method is
proved equal to a function on an explicit state, or against a direct statement of its result. The theorems about whole runs are
lemmas about those functions. `Sequencer.dfy` is the sequencer object, `SequencerModel.dfy` its step functions, and
`SequencerDrain`, `SequencerOrder`, `SequencerLedger`, `SequencerGuard`, `SequencerLimit` and `ParentCheck` prove properties of its
runs. `SequencerEffects`, `ParentDecision` and `AsyncWriterEffects` state on fields and literal limits alone what the steps of the
sequencer, the parent check and the writer do. `TailFollow.dfy` is the tail follower for given ticks, `ChainFollow.dfy` feeds it from the orchestrator's command machine.
`Pipeline.dfy` composes scheduler, workers, channel and sequencer over every interleaving, `PipelineRuns.dfy` builds particular runs,
`PauseGate.dfy` is about liveness, `EndToEnd.dfy` adds the writer, and `Durability.dfy` reads the outcome off jobs and logs.

## Modelling choices

- The processor is an oracle that may consult the whole history of calls made to it and answers with success, failure or a
  reorg. A reorg is always about the block it was given: without a block the program would dereference nil, so the model
  reads that answer as a failure.
- A processor "that accepts everything" also accepts a result that is handled singly and still has no block because the node did not
  answer; the program would dereference nil there (`internal/engine/processor_block_part1.go:33`). The theorems with such a processor
  are about runs in which that does not happen; `Decides`, which spells out the real verdict, accepts no result without a block.
- The RPC answers the sequencer may ask for while handling one result (`BlockByNumber`, `FilterLogs`) come with that result.
- A statement of the flush transaction that the server refuses makes the commit fail; one that fails before it is sent does not.
- The sequencer keeps a ledger: one entry per delivered height, one per skipped interval, in order.
- Block numbers are unbounded integers; heights and orchestrator counters are natural numbers; the decimal-string buffer keys
  are the integers they spell. The conversions to `int64` in `Schedule` and in the tail follower are modelled (saturating and
  wrapping). Hashes are numbers, so the two text comparisons (case-folding or exact) are equality.
- Clock readings are inputs that never go back. Stall checks get the idle time as an input. Cancellation, backpressure depths,
  database faults and transaction faults are inputs too.
- Receiving a job and passing the pause gate are two steps of a worker; the second is possible only while the sequencer's pause
  is off. Nobody else pauses or resumes the fetcher.
- Sequencer operations are atomic steps, and so is one turn of the writer's loop.

## Where the code falls short, and the exact condition

- Four kinds of move take the expected block past a buffered height and leave it behind: a committed run over it, a range signal over
  it, a direct delivery of the expected height while another result for it is still buffered, and a forced skip of such a height
  (`CommitStrandsIff`, `OneStrandsIff`, `CheckStrandsIff`: each exactly then; `RunLeavesStaleKey` for the batched path alone). A run
  with no such move keeps every buffered height ahead (`RunsStayAhead`). A height left behind makes a later overflow skip go
  backwards and blocks be delivered twice: deliveries and skips partition what was passed if and only if the buffer limit was
  never exceeded in a state with a buffered height below its expected block (`AccountingIffGuarded`), and `OverflowCanRewind` gives a
  run of error-free results that does it.
- A reorg met while draining the buffer is swallowed, its block is put back as the next one to deliver, and the pause of the
  fetcher is lifted at once unless 200 results remain (`DrainReorgKeepsBlock`); one met directly rolls back completely
  (`DirectReorgRollsBack`). When handling a result reported a reorg, nothing is left at or above its height if and only if the
  outcome says so (`RolledBackIffOutcome`).
- A worker that has received a job waits at the pause gate while the fetcher is paused, and the pause is lifted only by a drain that
  leaves fewer than 200 results. With two workers or more the pipeline always delivers start..end if and only if no fetcher is
  attached or the range has at most 2000 blocks beyond its start, which off chain 31337 it always has (`FinishesIff`). On
  chain 31337 a worker that holds the first job can be overtaken by results that fill the buffer past 2000 and then waits for ever
  (`CanDeadlock`; without any refetch as soon as 2002 blocks lie beyond the first job, `DeadlockWithoutRefetch`). Those two states,
  rest and this deadlock, are the only ones in which nothing is left to do (`StuckIff`).
- The batched path makes no parent check (`BatchIsNotChecked`); blocks delivered singly are hash-linked (`DeliveredBlocksAreLinked`).
  It does not move the hash cache either: a single block after a batch is only compared with the stored row (`SingleIsJudgedByRow`), and
  when that row is not written yet a broken link passes (`SingleAfterBatchIsNotChecked`).
- The tail follower moves its cursor over the whole request although `Schedule` may have cut it at the latest height: the jobs tile
  what the cursor passed if and only if the latest height that `Schedule` read had reached the end of every accepted request, and a
  stopped request had sent no job (`JobsTileIffReached`). The orchestrator moves the target height at once but the latest height only
  at the next merge, and publishes that only with the next command: with blocks up to 95 merged, start block 90 and a new tip 100,
  a tick before the merge requests 90..100, jobs are queued for 90..95, and no job of the follower ever covers 96..100
  (`FirstTickLosesBlocks`). The same happens at any moment of any run, whatever follows, unless a request that was stopped on
  the way had already sent a job for them (`TickBeforeMergeLosesBlocks`; `TruncationLeavesGap` for any cut request).
- A flush that fails drops its tasks, and a block insert that fails before it is sent leaves a commit without rows, because errors of
  the statements are only logged. Rows are complete up to the checkpoint if and only if no flush up to the last commit failed or
  was committed without its rows (`CheckpointSound`); `LostFlushLeavesHole` is a run in which one was.
- `ProcessBatch` passes over results without a block, and the fetcher does not fetch the blocks of heights without logs. Every
  height of a range gets its row if and only if every delivered result carried its block (`RangeBecomesDurable`), and every run
  delivers every block if and only if each height of each job has logs or ends its job (`CarriesIffFetched`); a job without logs that
  arrives as one batch loses rows (`QuietJobLosesRows`).
- The rollback of a deep reorg always writes the checkpoint of chain 1, whatever the configured chain is, and deletes nothing when the newest height
  itself is common, so rows above it stay (`HandleDeepReorg`, `DeepReorgRestoresAgreement`). Height 0 is never accepted as an ancestor.
- `Wait` on a limiter with limit 0 would index an empty ring; the model requires a positive limit there. A hot buffer of size
  below 10 never evicts. A request counter that has overflowed to negative always picks the first node.

## Model

| member | source | states |
|---|---|---|
| SequencerDrain.DrainDelivers | internal/engine/sequencer_process.go:23-35 | whatever the processor answers, the drain delivers a contiguous run of buffered heights from the expected one, maximal up to the first missing or refused height; a failing block is back with nothing else lost |
| SequencerDrain.DirectReorgRollsBack | internal/engine/sequencer_process.go:44-64 | a reorg reported while handling the expected block leaves no key at or above it, the expected block equal to it, and the fetcher paused |
| SequencerDrain.DrainReorgKeepsBlock | internal/engine/sequencer_process.go:31-41 | a reorg met in the drain leaves the offending block as the top buffered key and the next one to deliver, and the fetcher paused iff 200 results remain |
| SequencerDrain.RolledBackIffOutcome | internal/engine/sequencer_process.go:10-64 | when handling a result reported a reorg, no key at or above its height is buffered iff the outcome is a reorg; otherwise it is success |
| SequencerOrder.OrderIndependence | internal/engine/sequencer_batch.go:190-206 | for every arrival sequence with duplicates: no skip happens iff the pending heights stay within the limit, and then the expected block is the least height not received, deliveries are start.. up to it once each, and the buffer is the received rest |
| SequencerOrder.ArrivalOrderIsIrrelevant | internal/engine/sequencer_process.go:10-35 | two arrival sequences with the same heights end with the same deliveries, expected block and buffered heights |
| SequencerOrder.FastPathRefines | internal/engine/sequencer_batch.go:43-141 | from any state the batched path and the one-by-one path deliver the same heights and agree on expected block and live keys, unless one of them skipped |
| SequencerOrder.FastPathRefinesBelowLimit | internal/engine/sequencer_batch.go:43-141 | the same with a condition on the inputs alone: buffered and new heights together within the limit |
| SequencerOrder.HandleBatchTracks | internal/engine/sequencer_batch.go:43-132 | a batch leads from a state that has seen some heights to one that has also seen those of the batch, the rest of the batch being handled after the run and the part before it last |
| SequencerOrder.HandleBatchFits | internal/engine/sequencer_batch.go:251-274 | while all buffered and new heights lie in a set no larger than the limit, a batch causes no overflow skip |
| SequencerOrder.HandleAllTracks | internal/engine/sequencer_batch.go:109-132 | results handled one by one lead to the state that has seen exactly their heights besides, in any order |
| SequencerOrder.RunLeavesStaleKey | internal/engine/sequencer_batch.go:99-105 | a buffered height inside the committed run stays in the buffer below the expected block |
| SequencerLedger.SkipAccounting | internal/engine/sequencer_core.go:121-204 | over every run of arrivals, batches, teleports, stalls and overflows with any processor, every move of the expected block is entered, deliveries match what the processor accepted, and deliveries and skips partition [start, expected) iff no overflow entry goes backwards |
| SequencerLedger.ExpectedNeverDecreases | internal/engine/sequencer_core.go:180-196 | over every stretch of a run without a rewinding overflow the expected block does not decrease |
| SequencerGuard.AccountingIffGuarded | internal/engine/sequencer_batch.go:251-274 | over every run with any processor, deliveries and skips partition [start, expected) iff at no visited state the buffer limit was exceeded while a height below the expected block was buffered |
| SequencerGuard.GuardedNeverDecreases | internal/engine/sequencer_core.go:180-196 | over every stretch of a run in which that guard holds the expected block does not decrease |
| SequencerGuard.OneStrandsIff | internal/engine/sequencer_batch.go:151-223 | with every buffered height ahead, handling one result leaves a height behind iff it is a range signal over a buffered height or delivers the expected height while another result for it is buffered |
| SequencerGuard.CommitStrandsIff | internal/engine/sequencer_batch.go:88-105 | committing a run leaves a height behind iff the run covers a buffered height |
| SequencerGuard.CheckStrandsIff | internal/engine/sequencer_core.go:121-204 | a stall check leaves a height behind iff it force-skips a buffered one |
| SequencerGuard.RunsStayAhead | internal/engine/sequencer_batch.go:14-274 | a run none of whose moves passes over a buffered height keeps every buffered height at or above the expected block and the guard at every move |
| SequencerGuard.NonePassedAccounts | internal/engine/sequencer_core.go:138-197 | so such a run from a fresh sequencer has exact accounting |
| SequencerLedger.OverflowDirection | internal/engine/sequencer_batch.go:257-271 | an overflow skip goes backwards iff a key below the expected block is buffered |
| SequencerLedger.CoverBalance | internal/engine/sequencer_core.go:138-197 | for each height, entries covering it minus rewinds over it equal its membership in [start, expected) |
| SequencerLedger.RunAccounts | internal/engine/sequencer_batch.go:14-274 | every run keeps the buffer keyed by height, chains the ledger and records each accepted block exactly once |
| SequencerEffects.SignalMoves | internal/engine/sequencer_batch.go:213-223 | a range signal moves the expected block behind its range and drains, or changes nothing when the range is already passed |
| SequencerEffects.UnusableIsDropped | internal/engine/sequencer_batch.go:225-249 | a failed result for which the node does not give both block and logs, and one without any height, changes nothing |
| SequencerEffects.FailedQueryChangesNothing | internal/engine/sequencer_batch.go:225-249 | the error result of a failed log query leaves the sequencer as it was unless the node answers for block and logs; then it is handled as an error-free result with both |
| SequencerEffects.PlacedAway | internal/engine/sequencer_batch.go:151-206 | any other result, completed with the node's block, and logs after a fetch error, is dropped below the expected block and buffered above it; only past 1000 (chain 31337: 50000) results the expected block becomes the least height |
| SequencerEffects.PlacedNext | internal/engine/sequencer_batch.go:172-199 | at the expected block it is delivered as completed, or fails, by the processor's answer about exactly that data |
| SequencerEffects.DrainResumes | internal/engine/sequencer_process.go:36-41 | a drain lifts a pause iff a fetcher is attached and fewer than 200 results remain |
| SequencerEffects.FirstErrorStops | internal/engine/sequencer_batch.go:109-132 | the first result of a batch that is not handled successfully ends it with that outcome |
| SequencerEffects.BatchInOrder | internal/engine/sequencer_batch.go:14-143 | the maximal run of consecutive error-free results from the expected block is committed as one, then the buffer is drained, then what follows and last what precedes it is handled; a run of one comes first |
| SequencerEffects.BatchWithoutRun | internal/engine/sequencer_batch.go:30-41 | without a result for the expected block the batch is handled as it comes; before that more than 2000 buffered results pause the fetcher |
| SequencerEffects.SinglesCarryBlocks | internal/engine/sequencer_batch.go:172-184 | in every run in which the node answers, whatever is delivered outside a batch carries its block |
| SequencerEffects.HandleBatchKeeps | internal/engine/sequencer_batch.go:14-143 | no batch asks for blocks again; the count of gap fills is 0 after a batch that delivered something, else it stays |
| SequencerEffects.StallDoes | internal/engine/sequencer_core.go:121-204 | within 55 seconds nothing happens; later one refetch of the gap (at most three), one jump to the least buffered height, or one height passed over |
| SequencerEffects.RefetchesAreGaps | internal/engine/sequencer_core.go:138-170 | over every run each refetch was asked for by one stall check and is exactly the interval from the expected block of that moment to the last height missing in the buffer |
| SequencerEffects.BypassAfterThree | internal/engine/sequencer_core.go:138-197 | with a fetcher a gap is only jumped over after three refetches with no delivery in between |
| SequencerLimit.BufferStaysBounded | internal/engine/sequencer_batch.go:251-274 | with a processor that accepts everything the buffer never exceeds its limit in any run, and off chain 31337 the fetcher is never paused |
| SequencerLimit.OverflowCanRewind | internal/engine/sequencer_batch.go:257-271 | a concrete run of error-free results after which height 1 is delivered twice around a backward skip |
| Sequencing.Sequencer.constructor | internal/engine/sequencer_core.go:41-52 | a fresh sequencer expects the start block and has an empty buffer |
| Sequencing.Sequencer.HandleBatch | internal/engine/sequencer_batch.go:14-143 | the object's whole new state and result are those of the batch step |
| Sequencing.Sequencer.HandleBlock | internal/engine/sequencer_batch.go:151-249 | the object's whole new state and result are those of the single-result step, including teleport, refetch after a fetch error and hydration |
| Sequencing.Sequencer.FindRun | internal/engine/sequencer_batch.go:43-81 | the first error-free result for the expected block, and the results before it |
| Sequencing.Sequencer.CollectRun | internal/engine/sequencer_batch.go:51-75 | the maximal run of consecutive error-free results from there and the height after it |
| Sequencing.Sequencer.HandleCollected | internal/engine/sequencer_batch.go:88-132 | a run of two or more is processed as one batch and committed before the drain, a refused one changes nothing else; then the rest, last the results before the run |
| Sequencing.Sequencer.TeleportProgress | internal/engine/sequencer_batch.go:213-223 | a range end at or above the expected block moves it past the range and drains |
| Sequencing.Sequencer.MinBuffered | internal/engine/sequencer_core.go:128-135 | the least buffered key, none for an empty buffer |
| Sequencing.Sequencer.EnforceBufferLimit | internal/engine/sequencer_batch.go:251-274 | above the limit the expected block becomes the least buffered key and the buffer is drained |
| Sequencing.Sequencer.ProcessBufferContinuations | internal/engine/sequencer_process.go:23-42 | the loop computes the recursive drain and the resume test |
| Sequencing.Sequencer.ProcessSequential | internal/engine/sequencer_process.go:10-21 | delivery, failure or rollback by the processor's verdict |
| Sequencing.Sequencer.HandleReorg | internal/engine/sequencer_process.go:44-64 | the deletion loop removes exactly the keys at or above the reorg height |
| Sequencing.Sequencer.HandleStall | internal/engine/sequencer_core.go:121-204 | refetch request, gap bypass or forced skip, without draining |
| Sequencing.Sequencer.ResetExpectedBlock | internal/engine/sequencer_core.go:280-287 | only the expected block changes |
| Sequencing.Sequencer.ClearBuffer | internal/engine/sequencer_core.go:290-297 | only the buffer changes, to empty |
| ParentCheck.Processor.ProcessBlock | internal/engine/processor_block_part1.go:27-84 | a block is accepted iff its parent fits the cache, else the stored row; acceptance adds its task and caches its hash, anything else changes neither; the verdict is the one the history of calls determines, and the history stays checked |
| ParentDecision.FieldsHoldLastAlone | internal/engine/processor_block_part1.go:95-128 | off chain 31337 the cached height and hash are those of the last block accepted singly, whatever batches came after it; otherwise, and on 31337, nothing is cached |
| ParentDecision.AcceptedIffLinked | internal/engine/processor_block_part1.go:88-117 | off chain 31337, in every run: the successor of the last block delivered singly is accepted iff its parent is that block's hash, whatever row is stored; any other next block iff a stored row, if there is one, has the parent's hash |
| ParentDecision.LocalChainAccepts | internal/engine/processor_block_part1.go:88-92 | on chain 31337 every next block is accepted |
| ParentDecision.BlocklessFails | internal/engine/processor_block_part1.go:27-33 | a next result without a block is not accepted on any chain |
| ParentCheck.Processor.HandleReorgReadOnly | internal/engine/processor_block_part1.go:88-117 | a reorg is reported iff the parent hash differs from the cached, else the stored, hash of the height below, and never on chain 31337 |
| ParentCheck.Processor.UpdateReorgCache | internal/engine/processor_block_part1.go:120-128 | the cache holds the last accepted block, off chain 31337 |
| ParentCheck.Processor.ProcessBatch | internal/engine/processor_batch.go:19-84 | a batch is accepted whatever it holds; each error-free result with a block adds its task, at the place that those before it leave, and the cache stays as it was |
| ParentCheck.AcceptedRunsAreLinked | internal/engine/processor_block_part1.go:94-108 | in every history of checked calls, blocks accepted singly in succession at consecutive heights are hash-linked |
| ParentCheck.ProcessorHistoryIsLinked | internal/engine/processor_block_part1.go:88-128 | so are the blocks any processor object has accepted, at every moment |
| ParentCheck.DeliveredBlocksAreLinked | internal/engine/sequencer_process.go:10-21 | so are blocks the sequencer delivered singly in succession, in every run with any batches, skips and failures around them, when its processor decides as ProcessBlock does, for every block table |
| ParentCheck.BatchIsNotChecked | internal/engine/processor_batch.go:19-84 | from any state, a committed run with a broken parent link is delivered with that broken link at consecutive heights |
| ParentCheck.SingleIsJudgedByRow | internal/engine/processor_block_part1.go:110-116 | a single block whose predecessor is not the cached one, as after a batch, is accepted iff the stored row, if there is one, fits |
| ParentCheck.SingleAfterBatchIsNotChecked | internal/engine/processor_block_part1.go:101-116 | after a batch, without a stored row, a single block with a broken link is delivered right behind it |
| Reorganising.Store.FindCommonAncestor | internal/engine/processor_reorg.go:15-63 | the backward search stops at the greatest height in the window that matches or whose lookup fails, with the heights above it to delete |
| Reorganising.AncestorSearchExact | internal/engine/processor_reorg.go:22-62 | with successful lookups it succeeds iff some height from max(1, n-1000) to n matches, returns the greatest, and lists exactly the heights above it |
| Reorganising.LookbackEnds | internal/engine/processor_reorg.go:21-24 | a common height exactly 1000 below is found when none is common above it, one 1001 below is not |
| Reorganising.FailedLookupEnds | internal/engine/processor_reorg.go:28-43 | the first lookup of node or database that fails, with no common height above it, ends the search with its error |
| Reorganising.SearchUnique | internal/engine/processor_reorg.go:22-62 | the specification of the search admits one answer only |
| Reorganising.Store.HandleDeepReorg | internal/engine/processor_reorg.go:67-128 | on success exactly the rows up to the ancestor stay (all rows if nothing differed), unchanged, and checkpoint and cursor are the ancestor; on any error blocks, checkpoint and cursor are unchanged |
| Reorganising.DeepReorgRestoresAgreement | internal/engine/processor_reorg.go:87-101 | with hash-linked rows and chain every remaining row up to the ancestor is the chain's block, and a row above it remains only when nothing differed |
| Reorganising.AgreementDescends | internal/engine/processor_reorg.go:45-52 | agreement of hashes at one height makes every stored row below it the chain's block |
| Fetching.Fetcher.Schedule | internal/engine/fetcher_schedule.go:14-116 | a successful call's jobs tile [start, min(end, latest height)]; a stopped one's tile what 51 blocks per send reach, every job but the last having 51 blocks; the refusals by height, the two queues at 90% and the buffer at 2000, each exactly when, queue nothing |
| Fetching.Fetcher.SendJobs | internal/engine/fetcher_schedule.go:84-110 | the loop's jobs tile the range, or the part that 51 blocks per send reach when it is stopped |
| Fetching.TilesCoverOnce | internal/engine/fetcher_schedule.go:88-110 | tiling jobs cover exactly their range and no block twice |
| Fetching.Fetcher.FetchRangeWithLogs | internal/engine/fetcher_block.go:18-162 | the results sent are the range's items in order, or a prefix when cancelled, or, when the query failed, at most one result: an error for the first height, with neither block nor logs |
| Fetching.Fetcher.GroupByBlock | internal/engine/fetcher_block.go:97-101 | the map holds each block's logs in their original order |
| Fetching.Fetcher.SendRange | internal/engine/fetcher_block.go:105-157 | one item per height in ascending order until the range or the sends end |
| Fetching.Fetcher.BuildItem | internal/engine/fetcher_block.go:106-151 | an item carries its height's logs, its block if one was fetched, and the error of that fetch |
| Fetching.EmissionAscends | internal/engine/fetcher_block.go:103-157 | every height once, ascending, with exactly its own logs in order; items with logs and the last one carry the fetched block, others none; errors only for refused blocks |
| Fetching.LogsKeepOrder | internal/engine/fetcher_block.go:97-101 | each log of a block comes after as many as there are of that block before it in the query's answer |
| Fetching.LogsConserved | internal/engine/fetcher_block.go:97-157 | the items together carry exactly the logs in range with their multiplicities |
| TailFollowing.ContinuousTailFollow | cmd/indexer/main_services.go:163-206 | over every run of ticks the cursor is the one the ticks determine, and the queued jobs are those of the attempts the ticks determine |
| TailFollowing.Request | cmd/indexer/main_services.go:193-200 | jobs are queued up to where Schedule gets, and the cursor moves over the whole request iff Schedule had room and sent them all, else it stays |
| TailFollowing.AttemptsExplained | cmd/indexer/main_services.go:176-194 | one attempt, in order, for exactly each tick whose target height is ahead of the cursor while tip and latest height have reached the next block and no queue or buffer is over its watermark; it begins after the cursor, ends at the smaller of tip and target height plus 10 (chain 31337: 100), and an accepted one reaches the smaller of its end and that tick's latest height |
| TailFollowing.Int64Wraps | cmd/indexer/main_services.go:183 | the target height is taken as it is up to the greatest int64 and wraps modulo 2^64 beyond |
| TailFollowing.FollowTiles | cmd/indexer/main_services.go:164-194 | the accepted requests tile [startBlock, lastScheduled] without gap or overlap |
| TailFollowing.NeverPastTheTip | cmd/indexer/main_services.go:186-189 | cursor, requests and jobs never pass the highest tip reported |
| TailFollowing.JobsTileIffReached | cmd/indexer/main_services.go:186-194 | the jobs tile everything the cursor passed iff the tick's latest height had reached the end of every accepted request and no stopped one had sent a job |
| TailFollowing.TruncationLeavesGap | internal/engine/fetcher_schedule.go:26-30 | a height of an accepted request above that tick's latest height lies behind the cursor, and only a job of a stopped request can cover it |
| ChainFollowing.TickBeforeMergeLosesBlocks | internal/engine/orchestrator_loop.go:106-118 | at any moment of any run, a tick between the command for a higher tip and its merge makes the cursor pass the heights above the merged one up to the request's end, and in every continuation a job covers one of them iff a stopped request had reached it |
| ChainFollowing.FirstTickLosesBlocks | internal/engine/orchestrator_loop.go:106-118 | on the first tick with a fresh orchestrator: for every start block up to a merged height and every higher tip, in every continuation without a stopped request, no job covers a height above the merged one |
| ChainFollowing.PublishedTipsTile | internal/engine/orchestrator_loop.go:202-220 | while every tip the follower is told is at most the published latest height, and no request is stopped between two jobs, its jobs tile everything the cursor passes |
| Pipeline.PipelineDelivers | internal/engine/sequencer_batch.go:14-207 | every interleaving of workers, every cut into batches in any order, with refetches: the deliveries are always a gap-free prefix of start..end, and exactly start..end once nothing is under way |
| PauseGate.PipelineFinishes | internal/engine/fetcher_core.go:249-299 | with at least one worker, from every reached state: continuations that fetch nothing again are bounded in length, nothing is left to do only at rest or in a deadlock at the pause gate, and while no pause is possible one continuation comes to rest and every state with nothing left to do has delivered exactly start..end |
| PauseGate.FinishesIff | internal/engine/fetcher_core.go:265-272 | with two workers or more, every state with nothing left to do has delivered exactly start..end iff no fetcher is attached or the range has at most 2000 blocks beyond its start |
| PauseGate.StuckIff | internal/engine/fetcher_core.go:253-272 | nothing but a refetch is possible iff everything is at rest, or the fetcher is paused with the channel empty, nobody sending and a job held at the gate |
| PauseGate.BatchNeverPauses | internal/engine/sequencer_batch.go:30-34 | with an accepting processor only a batch that finds more than 2000 results buffered pauses the fetcher |
| PauseGate.CanDeadlock | internal/engine/sequencer_batch.go:30-34 | with more than 2000 blocks beyond the start some run, with refetches, ends in that deadlock with nothing delivered |
| PauseGate.DeadlockWithoutRefetch | internal/engine/fetcher_core.go:265-272 | without any refetch too, as soon as 2002 blocks lie beyond the first job |
| Pipeline.StepKeeps | internal/engine/fetcher_core.go:249-299 | each step of scheduler, worker or sequencer keeps every height received or still under way |
| Pipeline.FetchedJobEmitsAll | internal/engine/fetcher_block.go:103-157 | a job whose queries succeed emits what the pipeline expects of a worker |
| EndToEnd.RangeBecomesDurable | internal/engine/processor_batch.go:24-76 | every height of the range gets its row iff every delivered result carried its block, and then checkpoint and watermark are the end |
| EndToEnd.TaskHeights | internal/engine/processor_batch.go:24-75 | a delivered height has a persist task iff its result carried a block |
| EndToEnd.WriterHolds | internal/engine/async_writer_flush.go:44-74 | a writer that accepted and committed all tasks of the deliveries holds all rows iff every delivery carried its block |
| EndToEnd.QuietJobLosesRows | internal/engine/processor_batch.go:25-27 | a job without logs received as one batch is delivered in full and its first height gets no task |
| Durability.CarriesIffFetched | internal/engine/fetcher_block.go:106-125 | every run that comes to rest delivers every height with its block iff each height of each job has logs or ends its job |
| Durability.FetchedIsCarried | internal/engine/fetcher_block.go:106-125 | with every block of every job fetched, also of those fetched again, everything delivered carries its block at every moment |
| Durability.FetchedRangeIsDurable | internal/engine/processor_batch.go:24-76 | then every height gets its row, and checkpoint and watermark are the end |
| Durability.UnfetchedIsLost | internal/engine/processor_batch.go:25-27 | a height without logs that does not end its job is delivered without its block in some run |
| AsyncWriting.AsyncWriter.RunLoop | internal/engine/async_writer_core.go:38-76 | the loop's state after any events is that of the event function |
| AsyncWriting.AsyncWriter.OnTask | internal/engine/async_writer_core.go:51-68 | a received task is batched, flushed with the batch, or flushed before an emergency drain |
| AsyncWriting.AsyncWriter.Enqueue | internal/engine/async_writer_core.go:79-86 | a task is queued at the end iff the queue is not full |
| AsyncWriting.AsyncWriter.FlushBatch | internal/engine/async_writer_flush.go:13-87 | one transaction or none: rows first-write-wins, checkpoint and watermark the batch's greatest height; a failure changes none of them, an insert that is never sent only keeps the rows out |
| AsyncWriting.AsyncWriter.InsertBlocks | internal/engine/bulk_inserter.go:149-159 | rows are inserted in order and a height that has one keeps it |
| AsyncWriting.AsyncWriter.HighestOf | internal/engine/async_writer_flush.go:44-51 | the loop finds the batch's greatest height |
| AsyncWriting.AsyncWriter.DrainQueue | internal/engine/async_writer_flush.go:113-144 | the oldest tasks above half the capacity are flushed at once, unless cooling down |
| AsyncWriterEffects.EventsDo | internal/engine/async_writer_core.go:44-86 | each event of each run, field by field: offered tasks are queued while there is room; received ones batched, flushed at the batch size, or above 75% flushed with everything over 50% of the capacity, oldest first; the timer flushes the batch; first write wins, and checkpoint, watermark and reported height are the greatest height flushed |
| AsyncWriterEffects.TimerPersists | internal/engine/async_writer_core.go:69-73 | after a timer event without a fault, in any run, the batch is empty, every height of it has a row, and watermark and checkpoint are its greatest height |
| AsyncWriterEffects.BatchStaysShort | internal/engine/async_writer_core.go:64-68 | at every moment of every run the batch is shorter than the batch size |
| AsyncWriterEffects.OverfullDrains | internal/engine/async_writer_flush.go:113-144 | a task received above 75% of the capacity leaves no batch and at most half of it queued, unless such a task came before with no cooldown over since |
| AsyncWriterEffects.CoolingOnlyReceives | internal/engine/async_writer_flush.go:114-116 | until that cooldown is over such a task takes only itself out of the queue |
| AsyncWriterEffects.CoolingIff | internal/engine/async_writer_flush.go:114-121 | the writer cools down iff a task was received above 75% and no cooldown has ended since |
| AsyncWriterEffects.AcceptedIsPersisted | internal/engine/async_writer_core.go:44-86 | in a run without faults that ends with an empty queue and the timer firing, every accepted task has its row, the block of the first task for its height |
| AsyncWriterModel.RunConserves | internal/engine/async_writer_core.go:44-75 | at every moment of every run, slices passed to flush, then the batch, then the queue are the accepted tasks in order, and tables and checkpoint are those of the committed flushes |
| AsyncWriterModel.CheckpointSound | internal/engine/async_writer_flush.go:13-75 | with consecutive accepted heights checkpoint and watermark agree, and every height up to it has the block accepted for it iff no flush up to the last commit failed or was committed without its rows |
| AsyncWriterModel.LostIsMissing | internal/engine/async_writer_flush.go:27-31 | a height of a flush whose rows were not committed is in no flush whose rows were |
| AsyncWriterModel.LostFlushLeavesHole | internal/engine/async_writer_flush.go:27-31 | a run of four events after which the checkpoint is the second height and the first, accepted, has no row |
| SlidingWindow.SlidingWindowLimiter.Allow | internal/limiter/sliding_window.go:59-68 | admits iff fewer than limit admissions lie in the window ending now |
| SlidingWindow.SlidingWindowLimiter.Wait | internal/limiter/sliding_window.go:72-99 | the first attempt that finds room admits, the first whose context ends while a delay remains is cancelled, and nothing else is recorded |
| SlidingWindow.WaitDecided | internal/limiter/sliding_window.go:72-99 | the first attempt with fewer than limit admissions in its window, or at which the context ends while the oldest of them has not left it, decides: it admits at its recording time, or is cancelled and records nothing; otherwise the request still waits |
| SlidingWindow.SlidingWindowLimiter.TryOnce | internal/limiter/sliding_window.go:74-97 | one pass admits iff fewer than limit admissions lie in the window, and is cancelled iff there is none, the oldest admission of the window has not left it yet and the context ends |
| SlidingWindow.SlidingWindowLimiter.Evict | internal/limiter/sliding_window.go:200-206 | exactly the expired admissions leave the ring |
| SlidingWindow.SlidingWindowLimiter.Record | internal/limiter/sliding_window.go:210-214 | the ring read from head for count slots stays the chronological suffix of the history |
| SlidingWindow.WindowBound | internal/limiter/sliding_window.go:59-98 | every closed interval of the window's length contains at most limit admissions of the whole history |
| SlidingWindow.LimiterBound | internal/limiter/sliding_window.go:19-31 | that bound holds for every limiter at every moment |
| Orchestrating.Orchestrator.Process | internal/engine/orchestrator_loop.go:48-173 | each command changes the state as its handler says and publishes it; the merge timer publishes nothing |
| Orchestrating.Orchestrator.FlushPendingHeightUpdate | internal/engine/orchestrator_loop.go:268-276 | the pending height is merged into the latest one and cleared |
| Orchestrating.RunsStayGood | internal/engine/orchestrator_loop.go:106-173 | over every run 1 <= SafetyBuffer <= 20, the target is at most the latest or pending height, heights never decrease, the cursor only on a reset |
| Orchestrating.CursorIsGreatestCommit | internal/engine/orchestrator_loop.go:161-173 | after any run the cursor is the greatest height committed since the last reset, or where that reset put it if that is greater |
| Orchestrating.FetchedIsGreatestNotice | internal/engine/orchestrator_loop.go:137-142 | the fetched height is the greatest one notified |
| Orchestrating.HeightWaits | internal/engine/orchestrator_loop.go:106-117 | a new chain height stays pending until the next merge while the target is already behind it by the safety buffer of that moment |
| Orchestrating.HeightMerges | internal/engine/orchestrator_loop.go:268-276 | and the last pending height, even one below an earlier pending height, becomes the latest at the merge, which changes nothing else |
| Orchestrating.RaisedByNotFounds | internal/engine/orchestrator_loop.go:119-127 | without a success in between, k not-found failures raise the safety buffer s to min(20, s + k) |
| Orchestrating.LoweredBySuccesses | internal/engine/orchestrator_loop.go:129-135 | without such a failure every 50 successes lower it by exactly 1, down to 1 |
| Orchestrating.SnapshotIsLastCommand | internal/engine/orchestrator_loop.go:202-220 | what others read is the state after the last command; a later merge is not seen |
| Orchestrating.LoweredAtMostEveryFifty | internal/engine/orchestrator_loop.go:129-135 | every stretch of a run lowers the safety buffer at most once per 50 success messages |
| NodePool.EnhancedRPCClientPool.GetNextHealthyNode | internal/engine/rpc_pool_requests.go:16-58 | exactly the healthy nodes and those whose retry time has passed are collected in order, the counter advances with 64-bit wrap-around, and the node whose share contains the counter's remainder is chosen |
| NodePool.Choose | internal/engine/rpc_pool_requests.go:45-57 | the search always ends inside the list, so the fallback is unreachable |
| NodePool.ExactShare | internal/engine/rpc_pool_requests.go:42-55 | among any totalWeight consecutive counter values each eligible node is chosen exactly its weight times, a weight of 0 or less counting as 1 |
| NodePool.PicksOne | internal/engine/rpc_pool_requests.go:45-55 | a counter value chooses one node only |
| HotBuffers.HotBuffer.Add | internal/engine/hot_buffer.go:35-41 | the pool stays a suffix of everything added, within its size from size 10 on; past its size exactly the oldest tenth goes |
| HotBuffers.HotBuffer.WriteTransfers | internal/engine/hot_buffer.go:45-52 | the transfers are added in order |
| HotBuffers.HotBuffer.GetLatest | internal/engine/hot_buffer.go:62-85 | the newest-first suffix of the full history, complete for limits up to maxSize - maxSize/10 + 1 |

## Left out

- Sequencer.collectBatch: the sort of a batch is a library call; the theorems hold for every cut into batches and every order inside a batch.
- The unlocked middle of the batched path: operations are atomic steps, so watchdog calls landing there are not modelled, and resets and clearings are outside the accounting theorem.
- Errors inside the order and refinement theorems: they are about error-free results and a processor that accepts; accounting, drain and linking cover errors.
- Liveness after a stall bypass, which moves the expected block without draining.
- The retries of log and block queries in the fetcher, its rate limiters and recorder, and the jobs channel's blocking: a query is one answer, a send happens unless cancelled.
- Transfers: extraction of activities from logs and transactions, their table, synthetic transfers, gas leaderboards and events.
- The retries of one block in ProcessBlockWithRetry, which repeat the same call, and the retry worker, to which nothing is sent.
- Pauses by the lazy manager, and stopping the fetcher; a single worker on a range of more than 2000 blocks beyond its start.
- Shutdown of the writer and tasks refused by a full queue or a full command channel; new tasks arriving while an emergency drain runs.
- The sync_status row, base fees and other columns of a block row: a row is the block it stores.
- SQL drivers, HTTP, WebSocket, metrics, logging, wall-clock precision, the adaptive throttle modes of the limiter, eco mode, progress percentage and system state.
- The calls that overwrite the orchestrator's heights from outside its command loop (`ForceSetCursors`, `SnapToReality`, resets).
- The transfer counter, log entry and user-activity commands of the orchestrator, which touch none of the modelled fields.
