# Verification of the lead/lag engine's queues, ledgers and statistics

A Dafny model of the stateful core of `hft-lead-lag`, with proofs of what that core is for: nothing a
producer hands over is lost or duplicated on its way to the database, to the execution venue or to the
screener; snapshots never go backwards; flushes end and mean what they can mean; the kill switch bounds the
rate of timeouts; exactly when a signal tick loses a check, and that it loses none otherwise; portfolios never share a symbol; the paper ledger
balances; and statistics kept while the process runs are the ones a restart recomputes.

`dafny verify dfyconfig.toml` checks everything.

## How the model is laid out

| part | modules |
|---|---|
| machine integers, bags, first-seen order, closed trades | `Numbers`, `Multisets`, `FirstSeenOrder`, `FleetTrades` |
| the database writer: worker, five-tier pipeline, invariants, promises, the flush gap | `WriterWorker`, `WriterPipeline`, `PipelineInvariants`, `PipelineLines`, `PipelineTheorems`, `PipelinePromises`, `WriterTable`, `PayloadPromises`, `PipelineShutdown`, `EnqueueOrder`, `FlushGap`, `FlushDurability`, `FlushGapExact`, `FlushGapRun`, `FlushGuarantee` |
| the keep-latest lane and its two users | `KeepLatestLane`, `LaneOrder`, `KillSwitch`, `ExecutionQueue`, `ControlPlane` |
| the signal backlog | `PendingSymbols`, `SignalTick`, `TickOrder`, `SignalRuns` |
| fast forms of simple computations | `ClockOffset`, `Coalescing`, `StrategyBatches` |
| portfolios and their ledger | `Ranking`, `Allocation`, `GuardMachine`, `PortfolioEngine`, `PaperLedger`, `PortfolioRuntime`, `PortfolioRuns` |
| drained trades and candidate statistics | `DrainedTrades`, `CandidateEvents`, `RestartTransparency` |

Two forms recur. Code that runs concurrently is a transition system: a state, a datatype of events, when an
event is `Enabled` and what it does (`Apply`), and theorems range over every sequence of events. Every access to
state on which another thread's next step depends is an event of its own: each try of a channel, each load and
compare-exchange of the high-water mark, each step of the depth counter, the admission check, the worker's recovery
check, its verdict on an intent and the end of the awaited send. Code that changes an object step by step is a class whose methods
are proved equal to a function of the old state, and the theorems are about that function. Clock readings, the
outcome of every database write, the outcome of every send and the interleaving are inputs. Clocks may step back
except where a row says otherwise.

Things worth knowing before reading:

* **What a flush waits for.** The documentation of `flush_all` (`hft-lead-lag/src/infrastructure/db.rs:1041-1043`)
  promises that a flush waits for every batch enqueued before it, those staged in the overflow, retry, spillover
  and backpressure channels included. The code waits for the largest sequence number only. The model follows the
  code. `FlushGapExact.FlushWaitsForAllExactly` proves that the documented promise holds for a flush if and only if,
  when the flush begins, the four outer channels and the four forwarders are empty (a primary channel of a single slot
  allows one exception, which the theorem includes). The theorem counts every accepted command, snapshot-only ones
  included. `FlushGapRun.GapIsReachable` gives, for channels of any capacities, a run of trade batches in which it
  fails. `PipelinePromises.AnswerMeansDurable` and `FlushGuarantee.FlushCoversReturnedSends` are what an answer does
  mean, always; `FlushDurability.FlushedBatchesAreStored` is what it means for the trades handed in when nothing is
  staged.
* **Who gets a slot.** A bounded channel serves those who wait for room in the order they came, and a slot that
  comes free is promised to the first of them that has none promised. A `try_send` therefore needs a slot beyond
  those promised, and is refused although the channel is not full when every free slot is. The pipeline models the
  lines of waiters with that rule.
* **When a signal check is lost.** `pop_first` does not look again at the bits of the cursor's own word below the
  cursor, so it can report an empty set that is not empty and forget the count. `PendingSymbols.PopFailsExactly`
  gives the exact condition for a pop, `TickOrder.TickExact` for a tick, in terms of the state before it: all pending
  ids lie in the cursor's word, one of them below the cursor, and the word's last id is not pending.
  `SignalRuns.NoCheckIsLostExactly` carries it to whole runs, for ids of any size. `SignalRuns.LosingRun` is a run that
  loses a check: 257 ids are marked, a tick checks 256 of them, one of those is marked again. With ids below 256 the
  condition never arises between ticks (`SignalRuns.FreshRunChecksEverything`).
* **When a restart shows.** Statistics kept in process and those recomputed from the trades table are equal if and
  only if no group of trades with one symbol and one exit time arrives in two different drains
  (`RestartTransparency.RestartIsInvisibleExactly`); `RestartTransparency.SplitGroupShows` gives two drains after which
  they differ. Two trades with the same natural key are in the same group, so the condition already makes natural keys
  distinct across drains.
* **Arithmetic.** Prices, profits and rates are `real`. Integer widths are written out where the code saturates or
  truncates: the u32 accumulators and the `as u32` of the history query, the u64 paper counters, the u32 timeout
  streak, the i64 timestamps of guards, rebalances and the kill switch.

## Model

| member | source | states |
|---|---|---|
| `FleetTrades.InsertStores` | hft-lead-lag/src/infrastructure/db.rs:1340-1370 | `INSERT OR IGNORE` under the unique natural-key index: every key of the batch ends up stored, no stored row is replaced, and every new row is a row of the batch |
| `WriterWorker.WriterTask.FlushTradeBuffer` | hft-lead-lag/src/infrastructure/db.rs:1126-1133 | the buffer is written and cleared, or kept whole when the write fails |
| `WriterWorker.WriterTask.CompleteReadyFlushes` | hft-lead-lag/src/infrastructure/db.rs:1135-1148 | the in-place `swap_remove` loop computes the sweep that `SweepExact` characterizes, for every list of waiting callers |
| `WriterWorker.WriterTask.OnCommand` | hft-lead-lag/src/infrastructure/db.rs:1223-1306 | each of the four receive arms takes the whole worker state to `Handle` of it, stale snapshots and failed writes included |
| `WriterWorker.WriterTask.OnTick` | hft-lead-lag/src/infrastructure/db.rs:1308-1311 | the interval arm takes the whole worker state to `Tick` of it |
| `WriterWorker.WriterTask.OnClosed` | hft-lead-lag/src/infrastructure/db.rs:1313-1325 | at shutdown the buffer is written or lost and every waiting caller released |
| `WriterWorker.SweepExact` | hft-lead-lag/src/infrastructure/db.rs:1135-1148 | whatever order `swap_remove` leaves, exactly the callers whose target is reached are answered, exactly the others kept, each once |
| `WriterWorker.CompleteReadyExact` | hft-lead-lag/src/infrastructure/db.rs:1135-1148 | a sweep changes only who waits and who was answered, takes back no answer and leaves nobody waiting who could be answered |
| `WriterWorker.HandleConsistent` | hft-lead-lag/src/infrastructure/db.rs:1223-1306 | after every command, whether or not its writes succeed: the observed maximum is that of the log, nobody waits for a reached target, every caller is waiting or answered exactly once, the snapshot sequence is that of the stored snapshot and never decreases |
| `WriterWorker.HandleDurable` | hft-lead-lag/src/infrastructure/db.rs:1234-1296 | with successful writes every observed trade is stored or buffered, those of stale combined commands too, and the stored snapshot is that of the largest sequence number observed |
| `WriterWorker.HandleAnswers` | hft-lead-lag/src/infrastructure/db.rs:1225-1304 | whichever receive arm answers a caller, the buffer is then empty and the caller's target observed |
| `WriterWorker.TickKeeps` | hft-lead-lag/src/infrastructure/db.rs:1308-1311 | a timer tick keeps all of that and finds nobody to answer |
| `WriterWorker.NewestSnapshotIsLargest` | hft-lead-lag/src/infrastructure/db.rs:1243-1259 | the reference notion of the newest snapshot is the snapshot-bearing command with the largest sequence number |
| `WriterTable.FirstRowWins` | hft-lead-lag/src/infrastructure/db.rs:1340-1370 | under every key stands the row that was there before or, if there was none, the first trade of the batch with that key |
| `WriterTable.HandleTable` | hft-lead-lag/src/infrastructure/db.rs:1223-1306 | while writes succeed, whichever receive arm runs, table and buffer together stay what inserting every trade observed so far, one after another, would have left |
| `WriterTable.TickStores` | hft-lead-lag/src/infrastructure/db.rs:1308-1311 | a tick whose write succeeds stores every buffered trade and empties the buffer; one whose write fails changes nothing |
| `WriterTable.FailedWritesChangeNothing` | hft-lead-lag/src/infrastructure/db.rs:1126-1133 | when its writes fail, no command, tick or exit changes anything stored, and no command loses anything buffered |
| `WriterPipeline.ApplyShape` | hft-lead-lag/src/infrastructure/db.rs:1151-1157 | no step of producers, forwarders or worker pushes a channel past its capacity |
| `PipelineInvariants.ConservedKept` | hft-lead-lag/src/infrastructure/db.rs:847-991 | no step loses or duplicates a command: for every command, the copies dropped, observed, queued, in a forwarder's hand and with a producer add up to those issued or sent |
| `PipelineInvariants.NumberedKept` | hft-lead-lag/src/infrastructure/db.rs:994-1037 | the k-th allocated command carries sequence number k |
| `PipelineInvariants.CascadeKept` | hft-lead-lag/src/infrastructure/db.rs:1159-1202 | a forwarder or worker that stopped has an empty channel behind it and no sender left on it, so no live producer or forwarder ever finds its channel closed |
| `PipelineInvariants.FifoKept` | hft-lead-lag/src/infrastructure/db.rs:1223-1224 | the worker observes the primary channel's commands in the order they entered it |
| `PipelineLines.OrderlyKept` | hft-lead-lag/src/infrastructure/db.rs:1164-1202 | under every interleaving everyone in the line of a channel waits for that channel and stands there once: the forwarder that feeds it or, for the primary channel, a caller of a flush |
| `PipelineTheorems.ExactlyOnePlace` | hft-lead-lag/src/infrastructure/db.rs:847-991 | every allocated sequence number is in exactly one of: dropped and counted, observed, queued, in hand, with its producer |
| `PipelineTheorems.NoStrangers` | hft-lead-lag/src/infrastructure/db.rs:904-991 | nothing is anywhere that was not allocated or sent |
| `PipelineTheorems.LandedKept` | hft-lead-lag/src/infrastructure/db.rs:1164-1202 | a command that a channel accepted is never dropped afterwards |
| `PipelineTheorems.MarkedKept` | hft-lead-lag/src/infrastructure/db.rs:888-902 | under every interleaving of the compare-exchange loops the high-water mark is the number of a command some channel accepted |
| `PipelineTheorems.HighWaterMark` | hft-lead-lag/src/infrastructure/db.rs:888-902 | the high-water mark is at most the observed maximum, or its command is still on its way |
| `PipelineTheorems.DrainedMeansAnswered` | hft-lead-lag/src/infrastructure/db.rs:1297-1304 | with nothing on its way to the worker, nobody waits |
| `PipelineTheorems.ClosedPrimaryMeansDrained` | hft-lead-lag/src/infrastructure/db.rs:1159-1202 | the worker can see a closed primary channel only when all five channels and all four hands are empty |
| `PipelineTheorems.InvKept` | hft-lead-lag/src/infrastructure/db.rs:1151-1328 | every step keeps the whole invariant, takes back no answer and never lowers the snapshot sequence |
| `PipelineTheorems.InvRun` | hft-lead-lag/src/infrastructure/db.rs:1151-1328 | the same over every run |
| `PipelinePromises.ReachableConserves` | hft-lead-lag/src/infrastructure/db.rs:847-991 | in every state reachable from an empty pipeline each allocated number is in exactly one place and no channel is over capacity |
| `PipelinePromises.ExitStoresEverything` | hft-lead-lag/src/infrastructure/db.rs:1305-1325 | after exit every command that was not dropped was observed, nobody is left waiting and, if the writes succeeded, every natural key of its trades is in the table |
| `PayloadPromises.SendCarries` | hft-lead-lag/src/infrastructure/db.rs:994-1037 | a call of any of the three sends takes the next number and sends a command that carries exactly the trades and the snapshot handed in |
| `PayloadPromises.ReachableCarries` | hft-lead-lag/src/infrastructure/db.rs:994-1037 | in every reachable state the commands issued are those of the calls made, in order: number k + 1 carries what the k-th call handed in |
| `PayloadPromises.EveryTradeHandedInIsStored` | hft-lead-lag/src/infrastructure/db.rs:1305-1325 | after exit with successful writes every trade of every call whose number was not dropped has its natural key in the table |
| `PayloadPromises.TableIsWhatWasHandedIn` | hft-lead-lag/src/infrastructure/db.rs:1223-1325 | after exit with successful writes the table holds exactly the keys of the trades handed in by calls whose numbers were not dropped; the row under a key is the first such trade in the order of observation |
| `PayloadPromises.LastSnapshotIsStored` | hft-lead-lag/src/infrastructure/db.rs:1234-1296 | after exit with successful writes the stored snapshot is the one handed in by the last call that handed one in and was not dropped; none only if there was none |
| `PipelineShutdown.ShutdownEnds` | hft-lead-lag/src/infrastructure/db.rs:1159-1202 | once every handle is dropped, under every schedule: a bounded number of steps is left, one is possible until the worker has ended, and then nothing is queued, in hand, buffered or waiting |
| `PipelinePromises.InternalStepLowersLoad` | hft-lead-lag/src/infrastructure/db.rs:1044-1060 | every step of a forwarder, of the worker or of a caller entering its flush or joining the line lowers a tier-weighted load |
| `PipelinePromises.SomeStepIsEnabled` | hft-lead-lag/src/infrastructure/db.rs:1164-1224 | while anything is on its way, a flush that waits for room included, some such step is possible: tiers and lines cannot deadlock |
| `PipelinePromises.FlushesAreAnswered` | hft-lead-lag/src/infrastructure/db.rs:1044-1060 | no flush waits forever: every schedule of such steps takes at most as many as the load lost, can go on until it is zero, and then every flush is answered, those included that were not yet in the primary channel |
| `PipelinePromises.AnswerMeansDurable` | hft-lead-lag/src/infrastructure/db.rs:1126-1148 | if writes succeed, at every answer the buffer is empty, the target observed, every trade of every observed command stored, and everything ahead of the flush in the primary channel observed |
| `PipelinePromises.SnapshotNeverRollsBack` | hft-lead-lag/src/infrastructure/db.rs:1234-1296 | over every run the stored snapshot's sequence never decreases and, if writes succeed, is the largest among all snapshot-bearing commands observed |
| `EnqueueOrder.TryInOrder` | hft-lead-lag/src/infrastructure/db.rs:847-885 | a send that nobody disturbs puts its command into the first of the five channels that has a slot promised to nobody, and drops and counts it only if none has |
| `EnqueueOrder.SendInOrder` | hft-lead-lag/src/infrastructure/db.rs:904-1001 | a whole undisturbed send: the next number is taken, and a command with that number that carries what was handed in ends up at the end of the first of the five channels with room, or dropped and counted |
| `FlushGuarantee.CoveredKept` | hft-lead-lag/src/infrastructure/db.rs:888-902 | under every interleaving each accepted command is covered by the high-water mark or by a producer that still has to raise it: racing compare-exchange loops lose no number |
| `FlushGuarantee.ReachedKept` | hft-lead-lag/src/infrastructure/db.rs:1135-1148 | nobody is ever answered, at shutdown either, before the target is observed |
| `FlushGuarantee.FlushCoversReturnedSends` | hft-lead-lag/src/infrastructure/db.rs:1044-1060 | an answered flush means the worker observed a number at least as large as that of every command whose send had returned when the flush began |
| `FlushGuarantee.ReturnedFlushCovers` | hft-lead-lag/src/infrastructure/db.rs:1044-1060 | a flush returns only with its answer, so the same holds of every flush that returns |
| `FlushGuarantee.ReachableGuarantees` | hft-lead-lag/src/infrastructure/db.rs:888-902 | every state reachable from an empty pipeline has those guarantees |
| `FlushGapExact.FlushWaitsForAllExactly` | hft-lead-lag/src/infrastructure/db.rs:1039-1060 | the documented promise of a flush holds for every schedule if and only if nothing is staged outside the primary channel when it begins; but for the one command that is next in line for a primary channel of a single slot |
| `FlushGapExact.FlushWaitsForAllWithSlots` | hft-lead-lag/src/infrastructure/db.rs:1039-1060 | with more than one slot in the primary channel, as shipped: if and only if nothing is staged outside it |
| `FlushGapExact.WaitsForTheHand` | hft-lead-lag/src/infrastructure/db.rs:1164-1172 | with a single slot, the command the forwarder holds in line for it enters before any later flush, under every schedule |
| `FlushGap.WaitsWhenNothingStaged` | hft-lead-lag/src/infrastructure/db.rs:1044-1060 | with nothing staged, an answered flush means every command accepted before it is observed, whatever is sent meanwhile |
| `FlushGap.StagedBreaksThePromise` | hft-lead-lag/src/infrastructure/db.rs:1297-1304 | with anything staged, some schedule answers the flush while a command accepted before it is unobserved |
| `FlushDurability.FlushedPrimaryIsStored` | hft-lead-lag/src/infrastructure/db.rs:1297-1304 | when a flush is answered and writes succeeded, every trade of every command that had entered the primary channel when it began is in the table, under every schedule |
| `FlushDurability.FlushedBatchesAreStored` | hft-lead-lag/src/infrastructure/db.rs:1039-1060 | from the calls to the table: if the flush began with nothing staged, every trade handed in by every call accepted by then is in the table, whatever is sent meanwhile |
| `FlushGapRun.GapIsReachable` | hft-lead-lag/src/infrastructure/db.rs:1039-1060 | for channels of any capacities, a run from an empty pipeline after which a flush does not wait for everything: trade batches are sent until the primary channel is full, and one more |
| `FlushGapRun.GapIsReachableAsShipped` | hft-lead-lag/src/infrastructure/db.rs:29-37 | the same with the capacities the writer is started with |
| `KeepLatestLane.ConservedKept` | hft-lead-lag/src/event_loop_execution.rs:154-208 | no step of any producer or of the worker loses or duplicates a message; a replaced overflow entry is the one counted as dropped |
| `KeepLatestLane.DepthKept` | hft-lead-lag/src/event_loop_execution.rs:166-207 | the depth counter stays the channel length plus unresolved reservations plus the message received and not yet subtracted |
| `KeepLatestLane.DecrementNeverClips` | hft-lead-lag/src/event_loop_execution.rs:134-143 | the saturating decrement is never reached at zero, with any number of producers |
| `KeepLatestLane.InvKept` | hft-lead-lag/src/event_loop_control.rs:42-84 | conservation, the exact depth and the capacity hold after every step |
| `LaneOrder.ChannelIsFifo` | hft-lead-lag/src/event_loop_execution.rs:166-208 | over every run with any number of producers the worker receives the messages of the channel in the order their sends succeeded |
| `LaneOrder.NewestIsKept` | hft-lead-lag/src/event_loop_execution.rs:180-195 | over every run the overflow map holds, per key, the message that entered it last and was not handed on since, and that is the one handed on |
| `LaneOrder.EnqueueExact` | hft-lead-lag/src/event_loop_execution.rs:165-208 | a call nobody disturbs: with room the message goes to the end of the channel and the depth up by one; with a full channel it takes its key's overflow slot and what it replaces is counted as dropped; with a closed one it is counted as dropped |
| `ExecutionQueue.IntentsConserved` | hft-lead-lag/src/event_loop_execution.rs:244-304 | in every reachable state, whatever the clock does and wherever the worker stands in its iteration: offered = sent + timed out + dropped by worker + dropped by producers + queued + in overflow + in hand + in a call, intent by intent |
| `ExecutionQueue.DepthAndFlagExact` | hft-lead-lag/src/event_loop_execution.rs:258-303 | in every reachable state, whatever the clock does, the depth is exact, the channel within capacity and the shared flag up exactly while a recovery time is set |
| `ExecutionQueue.NoSendWhileActive` | hft-lead-lag/src/event_loop_execution.rs:345-366 | from the verdict to the end of every awaited send the flag is down and producers are admitted, and no intent older than the configured age is sent |
| `ExecutionQueue.TimeoutRateBound` | hft-lead-lag/src/event_loop_execution.rs:384-402 | in every reachable state whose clock never stepped back: of the timeouts since the last successful send, the j-th after a trip came at least j cooldowns after it |
| `ExecutionQueue.RecoveryExact` | hft-lead-lag/src/event_loop_execution.rs:323-335 | in every reachable state, whatever the clock did: a check or metrics tick at or past the recovery time lowers the flag and clears the time; an earlier one, or one with none set, changes nothing |
| `ExecutionQueue.JudgeExact` | hft-lead-lag/src/event_loop_execution.rs:337-366 | in every reachable state whose clock did not step back an intent is dropped while the cooldown of the last of enough timeouts runs, else dropped if older than the configured age, else its send begins with the flag down |
| `ExecutionQueue.AdmissionExact` | hft-lead-lag/src/event_loop_execution.rs:155-164 | in every reachable state a call is admitted if and only if no recovery time is set and blocked if and only if one is, which takes enough timeouts since the last successful send |
| `ExecutionQueue.InvKept` | hft-lead-lag/src/event_loop_execution.rs:337-404 | with the recovery check, the verdict and the end of the send as separate steps among those of the producers, the worker's switch stays that of its own iterations run one after the other, and the iterations recorded are those that sent, timed out and dropped the intents |
| `KillSwitch.ExecutionWorker.MaybeRecoverKillSwitch` | hft-lead-lag/src/event_loop_execution.rs:323-335 | at or past the recovery time the flag goes down and the time is cleared; otherwise nothing changes |
| `KillSwitch.ExecutionWorker.ProcessIntent` | hft-lead-lag/src/event_loop_execution.rs:337-404 | dropped if and only if the flag is up and its recovery time has not come, else dropped if and only if too old, else sent or timed out as the send ends; the new state is that of the run theorems, and exactly the counter the verdict names goes up |
| `KillSwitch.RunAgrees` | hft-lead-lag/src/event_loop_execution.rs:323-404 | after every run, whatever the clock does: flag up if and only if a recovery time is set, the counter counts the timeouts since the last send, and no trip before the threshold |
| `KillSwitch.RunCools` | hft-lead-lag/src/event_loop_execution.rs:323-404 | after every run with a monotone clock: timeouts at or past the threshold are a cooldown apart, and the cooldown of the last one is running or over |
| `KillSwitch.RateBound` | hft-lead-lag/src/event_loop_execution.rs:384-402 | without a successful send in between, the j-th timeout after a trip comes at least j cooldowns after it, recoveries notwithstanding |
| `KillSwitch.TickExact` | hft-lead-lag/src/event_loop_execution.rs:323-335 | after every run with a monotone clock a metrics tick leaves the flag up if and only if there were enough timeouts since the last successful send and the last one is less than `cooldown_ms * 1_000_000` ns ago, saturated |
| `KillSwitch.VerdictExact` | hft-lead-lag/src/event_loop_execution.rs:337-404 | after every run with a monotone clock the verdict on the next intent, from the times of the timeouts: dropped while such a cooldown runs, else dropped if older than `max_intent_age_ms * 1_000_000` ns, else sent or timed out |
| `ControlPlane.UpdatesConserved` | hft-lead-lag/src/event_loop_control.rs:144-235 | in every reachable state: offered = applied + replaced while pending + dropped + queued + in overflow + pending + in hand + in a call, update by update |
| `ControlPlane.InvKept` | hft-lead-lag/src/event_loop_control.rs:178-240 | every step of the worker loop keeps that balance |
| `ControlPlane.PendingIsBounded` | hft-lead-lag/src/event_loop_control.rs:193-234 | between turns of the worker fewer updates than a batch are pending, and a worker that has ended has left none |
| `ControlPlane.UpdateTurn` | hft-lead-lag/src/event_loop_control.rs:193-223 | a turn with an update: it takes its key's place among the pending ones, overflow entries take theirs after it, and all are applied if and only if they make a batch |
| `ControlPlane.ForcedTurn` | hft-lead-lag/src/event_loop_control.rs:194-235 | a timer tick or the end of the channel applies everything pending and everything in the overflow map, the newest per key |
| `ControlPlane.PendingUpdates.QueuePendingUpdate` | hft-lead-lag/src/event_loop_control.rs:160-166 | the newest update takes its key's slot and the return value tells whether it replaced one |
| `ControlPlane.PendingUpdates.DrainOverflowUpdates` | hft-lead-lag/src/event_loop_control.rs:144-158 | overflow entries override pending ones in whatever order the map yields them; the count is that of the overridden entries |
| `ControlPlane.PendingUpdates.FlushPendingUpdates` | hft-lead-lag/src/event_loop_control.rs:168-176 | every pending update is handed on exactly once and none stays |
| `PendingSymbols.PendingSymbolSet.Add` | hft-lead-lag/src/event_loop_core.rs:76-90 | inserting changes the words, the count and nothing else, as `Include` says |
| `PendingSymbols.PendingSymbolSet.PopFromWord` | hft-lead-lag/src/event_loop_core.rs:55-70 | the lowest bit the mask lets through is taken; nothing changes when there is none |
| `PendingSymbols.PendingSymbolSet.PopFirst` | hft-lead-lag/src/event_loop_core.rs:92-128 | the three word scans compute `Pop` on every state, the losing ones included |
| `PendingSymbols.IncludeExact` | hft-lead-lag/src/event_loop_core.rs:76-90 | inserting adds exactly that id to the set, keeps count and cursor right and grows the words only as far as needed |
| `PendingSymbols.PopTakesNearest` | hft-lead-lag/src/event_loop_core.rs:92-122 | a successful pop removes exactly one id, the pending one cyclically nearest the cursor, and moves the cursor just past it |
| `PendingSymbols.PopFailsExactly` | hft-lead-lag/src/event_loop_core.rs:92-128 | a pop returns nothing if and only if every pending id lies in the cursor's word below the cursor |
| `PendingSymbols.LosingPop` | hft-lead-lag/src/event_loop_core.rs:99-128 | insert 5, pop, insert 3, pop: nothing is returned, the count is reset and bit 3 stays set |
| `PendingSymbols.BypassBound` | hft-lead-lag/src/event_loop_core.rs:62-68 | over every stretch of successful pops a pending id is bypassed fewer times than the final capacity has bits, however other ids are put back |
| `SignalTick.EventLoop.MarkPendingSignalSymbols` | hft-lead-lag/src/event_loop_core.rs:637-641 | every updated id is inserted |
| `SignalTick.EventLoop.HandleSignalTick` | hft-lead-lag/src/event_loop_core.rs:726-733 | the popping loop and its budget compute `Tick`: the ids checked in order and the set left |
| `TickOrder.DrainExact` | hft-lead-lag/src/event_loop_core.rs:730-733 | from any state with a right count and for any budget, a drain is a sequence of pops of the nearest id, ended by the budget or by a pop that finds nothing |
| `TickOrder.PopsLead` | hft-lead-lag/src/event_loop_core.rs:92-122 | such pops take the first of the pending ids in cyclic order from the cursor, and no others |
| `TickOrder.StuckMeansLoses` | hft-lead-lag/src/event_loop_core.rs:99-128 | pops that get stuck with ids left started with all pending ids in the cursor's word, one below the cursor, the word's last id not pending |
| `TickOrder.LosingPops` | hft-lead-lag/src/event_loop_core.rs:99-128 | from such a state the pops take exactly the ids at or past the cursor and never the others |
| `TickOrder.TickExact` | hft-lead-lag/src/event_loop_core.rs:720-776 | from any state with a right count and for ids of any size: the ids checked lead the pending ones in cyclic order from the cursor; ids are left behind uncounted if and only if the state is such, and then exactly those below the cursor; otherwise as many are checked as there are, up to 256, and the count stays right |
| `SignalRuns.NoCheckIsLostExactly` | hft-lead-lag/src/event_loop_core.rs:637-641 | over every run of marks and ticks, for ids of any size: every tick checks all that is outstanding, up to 256, if and only if no tick starts in such a state |
| `SignalRuns.BacklogIsOutstanding` | hft-lead-lag/src/event_loop_core.rs:637-641 | as long as that is so, the backlog holds exactly the ids marked and not yet checked, rightly counted |
| `SignalRuns.MarkingAgainDoesNotHelp` | hft-lead-lag/src/event_loop_core.rs:84-87 | an id left behind is not counted when it is marked again, and the next tick does not check it |
| `SignalRuns.LosingRun` | hft-lead-lag/src/event_loop_core.rs:720-776 | a run from an empty backlog that loses the check of id 256: mark 1 to 257, tick, mark 256, tick |
| `SignalRuns.FreshRunChecksEverything` | hft-lead-lag/src/main.rs:104 | corollary for ids below the budget of 256: over every run from an empty backlog each tick checks exactly the ids marked since the previous one, in ascending order |
| `ClockOffset.ClockOffsetEstimator.RecomputeMedian` | hft-lead-lag/src/application/services/lead_lag.rs:61-69 | the cached value becomes the upper median of the window, 0 for an empty one |
| `ClockOffset.ClockOffsetEstimator.Observe` | hft-lead-lag/src/application/services/lead_lag.rs:36-55 | rejected samples change nothing; accepted ones slide the window and refresh the cache as `Observed` says |
| `ClockOffset.UpperMedianExact` | hft-lead-lag/src/application/services/lead_lag.rs:66-68 | the value at half the sorted length is a sample with at most half of the samples below it and more than half not above it |
| `ClockOffset.EstimatorClosedForm` | hft-lead-lag/src/domain/screener/clock_offset.rs:25-63 | after every run of observations the window is the last accepted samples (256 or 512) and the cache the upper median of the window as of accepted sample 1 + 64 * floor((k - 1) / 64) |
| `ClockOffset.CacheIsFreshAndBounded` | hft-lead-lag/src/application/services/lead_lag.rs:36-59 | the cache is at most 63 accepted samples stale and always within six hours |
| `ClockOffset.BothEstimators` | hft-lead-lag/src/domain/screener/clock_offset.rs:3-5 | the closed form and the six-hour bound for the two estimators in use: 256 samples in nanoseconds, 512 in milliseconds |
| `ClockOffset.SamplesInNumbers` | hft-lead-lag/src/application/services/lead_lag.rs:36-46 | a sample is local minus exchange time, and counts if and only if both times are positive and they are at most 21,600 s apart, in nanoseconds for one estimator and milliseconds for the other |
| `FirstSeenOrder.FirstSeenExact` | hft-lead-lag/src/domain/strategy_symbol_ids.rs:23-37 | the deduplicated list has the same elements, each once |
| `FirstSeenOrder.FirstSeenPrefix` | hft-lead-lag/src/domain/strategy_symbol_ids.rs:23-37 | what a prefix yields is a prefix of what the whole yields: the order is that of first appearance |
| `Coalescing.BuildStrategySymbolIdPairs` | hft-lead-lag/src/domain/strategy_symbol_ids.rs:16-40 | ids are dense and given in first-seen order; the universe is refused exactly when it has more than 65,536 distinct symbols |
| `Coalescing.BuildStrategySymbolIdMap` | hft-lead-lag/src/domain/strategy_symbol_ids.rs:42-51 | every symbol of the universe has an id, nothing else has, and no two share one |
| `Coalescing.CoalesceLastWins` | hft-lead-lag/src/event_loop_ingest.rs:64-95 | the batch's result has one entry per key, in first-seen order, each the last of its key; the screener's batch loop is the same |
| `Coalescing.ResolvedExact` | hft-lead-lag/src/event_loop_ingest.rs:64-95 | of a batch exactly the tickers that carry an id are taken, in order, under that id |
| `Coalescing.CoalescingPreservesBooks` | hft-lead-lag/src/application/services/lead_lag.rs:211-224 | applying the coalesced updates leaves the same book map as applying all of them in order |
| `Coalescing.BatchPreservesBooks` | hft-lead-lag/src/event_loop_ingest.rs:64-95 | the same for a batch of tickers, some without an id, whose ids come from an injective assignment |
| `StrategyBatches.StrategyBooks.EnqueueStrategyUpdates` | hft-lead-lag/src/event_loop_core.rs:696-705 | the updates are appended in order, each with its side, and nothing else changes |
| `StrategyBatches.StrategyBooks.FlushStrategyUpdates` | hft-lead-lag/src/event_loop_core.rs:707-718 | the queue is emptied first in, first out, each side into the book of its role |
| `StrategyBatches.StrategyBooks.QueueBatch` | hft-lead-lag/src/event_loop_runtime.rs:20-34 | a batch is coalesced, last ticker per id, and what is left of it queued for its side |
| `StrategyBatches.FlushedBooksAreExact` | hft-lead-lag/src/event_loop_runtime.rs:11-42 | over any number of batches from both exchanges with flushes in between, the flushed primary and hedge books are those that applying every resolved ticker of their exchange in order would have left |
| `Ranking.StringOrder` | hft-lead-lag/src/domain/screener/portfolio_runtime.rs:172 | the order of symbols is total, antisymmetric and transitive |
| `Ranking.StringOrderExact` | hft-lead-lag/src/domain/screener/portfolio_runtime.rs:172 | symbols compare as in a dictionary: at the first difference the shorter or the one with the smaller character comes first |
| `Ranking.RankIsTotal` | hft-lead-lag/src/domain/screener/portfolio_runtime.rs:161-173 | the five-key comparator is total and transitive, and ranks two candidates alike only if they have one symbol |
| `Ranking.EligibleExact` | hft-lead-lag/src/domain/screener/portfolio_runtime.rs:129-145 | a symbol is eligible if and only if it is at least 6 minutes old, has at least 6 closed trades, at least three winners in ten and no mean loss |
| `Ranking.RankExact` | hft-lead-lag/src/domain/screener/portfolio_runtime.rs:147-151 | ranking orders the candidates and keeps them all |
| `Ranking.BestFirst` | hft-lead-lag/src/domain/screener/portfolio_runtime.rs:147-173 | of two ranked candidates the first has the higher win rate (cross-multiplied counts, zero without trades) or, if equal, the larger winners minus losers, then mean profit, then closed trades, then the symbol that comes first |
| `Ranking.RankIgnoresOrder` | hft-lead-lag/src/domain/screener/portfolio_runtime.rs:147-173 | with distinct symbols the ranking does not depend on the order the candidates come in |
| `Allocation.TrimExact` | hft-lead-lag/src/domain/screener/portfolio_runtime.rs:113 | trimming takes off Unicode white space at both ends and nothing else |
| `Allocation.NamedExact` | hft-lead-lag/src/domain/screener/portfolio_runtime.rs:110-127 | the ids that are left are exactly those not blank, trimmed |
| `Allocation.NormalizePortfolioIds` | hft-lead-lag/src/domain/screener/portfolio_runtime.rs:110-127 | ids are trimmed, blank ones dropped, the first of each kept in place; never empty, never repeated |
| `Allocation.BuildShortlistsNoOverlap` | hft-lead-lag/src/domain/screener/portfolio_runtime.rs:301-339 | dealing round by round with its early exits computes the closed form for every pool and every list of distinct ids |
| `Allocation.DealRound` | hft-lead-lag/src/domain/screener/portfolio_runtime.rs:315-336 | one round deals one row of the pool and reports progress only if it dealt something |
| `Allocation.PickPass` | hft-lead-lag/src/domain/screener/portfolio_runtime.rs:353-375 | one pass gives each portfolio with room its next shortlist symbol; progress is reported at most four times |
| `Allocation.AssignActiveSymbolsNoOverlap` | hft-lead-lag/src/domain/screener/portfolio_runtime.rs:341-381 | the unbounded loop ends, and every portfolio's active symbols are the first four of its shortlist |
| `Allocation.ShortlistClosedForm` | hft-lead-lag/src/domain/screener/portfolio_runtime.rs:314-336 | entry r of shortlist i is pool entry r * P + i, and exists if and only if r < 5 and the pool reaches that far |
| `Allocation.DealtWithoutOverlap` | hft-lead-lag/src/domain/screener/portfolio_runtime.rs:301-339 | shortlists dealt from a pool without repetition share no symbol |
| `Allocation.NoneLeftOut` | hft-lead-lag/src/domain/screener/portfolio_runtime.rs:314-336 | while any shortlist has room, every pool symbol is in some shortlist |
| `PortfolioEngine.Engine.SetPortfolioIds` | hft-lead-lag/src/domain/screener/portfolio_runtime.rs:191-193 | the engine's ids become the normalized ones |
| `PortfolioEngine.Engine.RecordClosedTrade` | hft-lead-lag/src/domain/screener/portfolio_runtime.rs:221-258 | only that symbol's guard moves, one step of the guard machine, and the result says whether it triggered |
| `PortfolioEngine.Engine.ReplaceGuardStates` | hft-lead-lag/src/domain/screener/portfolio_runtime.rs:285-288 | after it a symbol has a guard exactly if some row names it, that of the last such row |
| `PortfolioEngine.Engine.GuardStates` | hft-lead-lag/src/domain/screener/portfolio_runtime.rs:275-283 | every guard in one row, in the order of the symbols |
| `PortfolioEngine.ReplacedByItsRows` | hft-lead-lag/src/domain/screener/portfolio_runtime.rs:275-288 | writing the guards out as rows and replacing them by those rows, in whatever order, changes nothing |
| `PortfolioEngine.Engine.AssignWithoutOverlap` | hft-lead-lag/src/domain/screener/portfolio_runtime.rs:195-219 | pool, shortlists and active symbols together compute the closed form `Assign` |
| `PortfolioEngine.PoolExact` | hft-lead-lag/src/domain/screener/portfolio_runtime.rs:260-299 | the pool is exactly the eligible candidates that are out of cooldown, without repetition |
| `PortfolioEngine.PoolMembers` | hft-lead-lag/src/domain/screener/portfolio_runtime.rs:260-299 | a candidate is in the pool if and only if it is at least 6 minutes old with at least 6 closed trades, three winners in ten and no mean loss, and its guard has no cooldown that ends later than now |
| `PortfolioEngine.PoolBestFirst` | hft-lead-lag/src/domain/screener/portfolio_runtime.rs:147-173 | of two pooled symbols the candidate dealt first may lead the other by those counts |
| `PortfolioEngine.DealtBestFirst` | hft-lead-lag/src/domain/screener/portfolio_runtime.rs:301-339 | shortlist places are dealt best first: all first places in the order of the portfolios, then all second places, and so on |
| `PortfolioEngine.AssignIgnoresOrder` | hft-lead-lag/src/domain/screener/portfolio_runtime.rs:195-219 | the assignment does not depend on the order of the candidates |
| `PortfolioEngine.AssignExact` | hft-lead-lag/src/domain/screener/portfolio_runtime.rs:195-219 | a listed symbol is that of an eligible candidate out of cooldown and is listed by no other portfolio |
| `PortfolioEngine.GuardsAreIndependent` | hft-lead-lag/src/domain/screener/portfolio_runtime.rs:221-258 | from any guards, restored ones included, each symbol's guard is the fold over that symbol's own trades |
| `PortfolioEngine.CooldownKeepsOut` | hft-lead-lag/src/domain/screener/portfolio_runtime.rs:260-299 | with non-decreasing timestamps, and from any guards put in place before, a triggered symbol is in no shortlist and not active in any assignment made before trigger time + 300,000 ms, whatever is traded in between |
| `GuardMachine.GuardIsFold` | hft-lead-lag/src/domain/screener/portfolio_runtime.rs:221-258 | the stored streak counts the stop-losses since the last win or trigger, is at most five, its first timestamp is that of the first of them, and the cooldown is that of the last trigger |
| `GuardMachine.SixStopsTrigger` | hft-lead-lag/src/domain/screener/portfolio_runtime.rs:246-256 | any six stop-losses with no win between them contain a trigger |
| `GuardMachine.StopsInNumbers` | hft-lead-lag/src/domain/screener/portfolio_runtime.rs:236-257 | of stop-losses alone the fifth triggers if and only if it comes at most 120,000 ms after the first, else the sixth does; the cooldown ends 300,000 ms after the trigger |
| `GuardMachine.OtherTrades` | hft-lead-lag/src/domain/screener/portfolio_runtime.rs:228-235 | a win ends the streak and leaves the cooldown; a loss that is no stop-loss changes nothing |
| `GuardMachine.TriggersAgree` | hft-lead-lag/src/domain/screener/portfolio_runtime.rs:221-258 | from an empty guard the machine triggers at exactly the trades the history says |
| `GuardMachine.CooldownHolds` | hft-lead-lag/src/domain/screener/portfolio_runtime.rs:249-254 | from any guard, with non-decreasing timestamps, a cooldown never ends earlier than it was set to |
| `PaperLedger.SlotRepairIsNoOp` | hft-lead-lag/src/domain/screener/mod.rs:337-345 | in every sound state repairing the account slots changes nothing |
| `PaperLedger.OwnersHaveAccounts` | hft-lead-lag/src/domain/screener/mod.rs:678-697 | the owner a trade is credited to always has an account, so the lookup that panics cannot fail |
| `PaperLedger.DrainBalances` | hft-lead-lag/src/domain/screener/mod.rs:666-697 | a drain moves the total realized profit by exactly the profit of the trades that have an owner, each credited once |
| `PaperLedger.AccountsTally` | hft-lead-lag/src/domain/screener/portfolio_runtime.rs:60-78 | a drain moves each account by exactly the trades credited to it: their number, wins, losses, profit and latest time |
| `PaperLedger.RebalanceKeeps` | hft-lead-lag/src/domain/screener/mod.rs:735-766 | rebalancing keeps the invariant and touches no account |
| `PaperLedger.CreditFollowsRebalance` | hft-lead-lag/src/domain/screener/mod.rs:762-764 | after a rebalance, trades entered from then on are credited to the owner the new assignment names |
| `PaperLedger.EntryOwnerExact` | hft-lead-lag/src/domain/screener/mod.rs:364-380 | the owner at entry is named by a snapshot taken by then, and no later such snapshot names anybody |
| `PaperLedger.OwnerExact` | hft-lead-lag/src/domain/screener/mod.rs:347-358 | the owner has the symbol active and of all portfolios that have the id that comes first; there is none only if nobody has it active |
| `PaperLedger.EarnsExact` | hft-lead-lag/src/domain/screener/mod.rs:677-697 | the account credited is that of the owner named by the last snapshot taken by the entry time that names one, whoever owns the symbol now, and that of the present owner if and only if no such snapshot names one |
| `PaperLedger.CreditExact` | hft-lead-lag/src/domain/screener/portfolio_runtime.rs:60-78 | a trade moves that account, by one dollar per percent, one closed trade, one win or loss by the sign and the later time, and no other account |
| `PaperLedger.RecordedExact` | hft-lead-lag/src/domain/screener/mod.rs:382-398 | the newest 64 snapshots are kept in order; one of the same time gives way to the new one |
| `PaperLedger.RebalanceWaits` | hft-lead-lag/src/domain/screener/mod.rs:735-766 | less than 120,000 ms after the last rebalance nothing changes; otherwise there is one, recorded as the latest snapshot |
| `PaperLedger.SetIdsExact` | hft-lead-lag/src/domain/screener/mod.rs:401-416 | every portfolio of the new set has an account with 10,000 dollars and nothing traded and no symbols; history is empty and guards stay |
| `PortfolioRuntime.RuntimeState.EnsurePortfolioPaperStateSlots` | hft-lead-lag/src/domain/screener/mod.rs:337-345 | slots are kept when they match the ids, else all reopened |
| `PortfolioRuntime.RuntimeState.OwnerFromAssignment` | hft-lead-lag/src/domain/screener/mod.rs:347-358 | the owner is the first portfolio, in id order, with the symbol active |
| `PortfolioRuntime.RuntimeState.OwnerAtEntry` | hft-lead-lag/src/domain/screener/mod.rs:364-380 | the owner at entry is that of the latest snapshot, taken by then, that has one |
| `PortfolioRuntime.RuntimeState.ObserveTrade` | hft-lead-lag/src/domain/screener/mod.rs:666-697 | one trade moves its guard and the account that earns it (the owner named last by entry, else the present owner), and leaves every other account as it was |
| `PortfolioRuntime.RuntimeState.HandleDrainedTrades` | hft-lead-lag/src/domain/screener/mod.rs:658-698 | a drain is its trades credited in order, and the invariant holds after it |
| `PortfolioRuntime.RuntimeState.HandleDrainedFleetTrades` | hft-lead-lag/src/domain/screener/mod.rs:633-703 | a drain as it arrives is sorted, deduplicated and filtered, and exactly what is left is credited, in the order of the sort |
| `PortfolioRuntime.RuntimeState.RecordAssignmentSnapshot` | hft-lead-lag/src/domain/screener/mod.rs:382-398 | the snapshot is appended, or overwrites one of the same time; only the last 64 are kept |
| `PortfolioRuntime.RuntimeState.MaybeRebalance` | hft-lead-lag/src/domain/screener/mod.rs:735-766 | at most one rebalance per two minutes, and the whole new state when there is one |
| `PortfolioRuntime.RuntimeState.SetPortfolioIds` | hft-lead-lag/src/domain/screener/mod.rs:401-416 | the ledger starts over with one opening account per normalized id |
| `PortfolioRuns.LedgerStaysSound` | hft-lead-lag/src/domain/screener/portfolio_runtime.rs:61-78 | from any sound state, the defaults included, over every run of drains, rebalances and id changes: equity - realized = 10,000, wins and losses do not exceed closed trades, and slot repair stays a no-op |
| `PortfolioRuns.LedgerBalances` | hft-lead-lag/src/domain/screener/mod.rs:633-722 | between id changes total realized profit grows by exactly the profit of the trades that had an owner when drained |
| `PortfolioRuns.LedgerFromDefaults` | hft-lead-lag/src/domain/screener/mod.rs:633-766 | from the defaults, over every run without a change of the portfolio set, total realized profit is that of the trades with an owner, each credited once |
| `PortfolioRuns.DrainCreditsEachKeyOnce` | hft-lead-lag/src/domain/screener/mod.rs:633-703 | a drain in any order and with trades repeated moves each account by exactly the trades of the active run that it owns, each natural key once, with the values drained first |
| `PortfolioRuns.RunGuards` | hft-lead-lag/src/domain/screener/mod.rs:633-766 | over every run of drains, rebalances and id changes the guards are those of the run's trades |
| `PortfolioRuns.HistoryExact` | hft-lead-lag/src/domain/screener/mod.rs:666-673 | a guard is told of every trade of its symbol in the drain, in order: profit, whether it was a stop-loss, exit time |
| `PortfolioRuns.CooldownKeepsOutOfRuns` | hft-lead-lag/src/domain/screener/mod.rs:735-766 | over every such run, from any sound state with any guards: a rebalance before a triggered symbol's cooldown is over leaves the symbol out of every shortlist and active list |
| `PortfolioRuns.DrainIsChronological` | hft-lead-lag/src/domain/screener/mod.rs:633-698 | the trades of a symbol reach its guard out of one drain, however it arrives, in the order of their exit times |
| `PortfolioRuns.RunIsChronological` | hft-lead-lag/src/domain/screener/mod.rs:633-698 | over a run whose drains follow one another in time no symbol's history goes back |
| `PortfolioRuns.CooldownKeepsOutOfDrains` | hft-lead-lag/src/domain/screener/mod.rs:735-766 | so for such runs without any assumption on the order within drains: a symbol whose trade triggered is left out by every rebalance less than 300,000 ms after it |
| `DrainedTrades.SameKey` | hft-lead-lag/src/domain/screener/drained_trades.rs:13-21 | the sort order is total, and ties are exactly trades with the same natural key |
| `DrainedTrades.BeforeTransitive` | hft-lead-lag/src/domain/screener/drained_trades.rs:13-21 | the four-key sort order is transitive |
| `DrainedTrades.SortDrainExact` | hft-lead-lag/src/domain/screener/drained_trades.rs:13-21 | sorting orders the drain, keeps its trades and keeps trades of one natural key in their order |
| `DrainedTrades.SortedIsChronological` | hft-lead-lag/src/domain/screener/drained_trades.rs:13-21 | in a sorted drain a symbol's trades stand together, in the order of their exit times |
| `DrainedTrades.DedupeDrainedTrades` | hft-lead-lag/src/domain/screener/drained_trades.rs:23-44 | the loop keeps a trade unless its key is that of the one before it, short inputs included, and keeps the order of a sorted drain |
| `DrainedTrades.DedupeSorted` | hft-lead-lag/src/domain/screener/drained_trades.rs:23-44 | on a sorted drain, removing adjacent repetitions leaves exactly one trade per natural key, the first |
| `DrainedTrades.CleanedExact` | hft-lead-lag/src/domain/screener/mod.rs:638-640 | sort and dedupe keep exactly one trade per natural key of the drain, the one drained first |
| `DrainedTrades.CleanedInOrder` | hft-lead-lag/src/domain/screener/drained_trades.rs:13-44 | for every drain, what is kept comes by symbol, then exit time, then entry time, then configuration, strictly |
| `DrainedTrades.FilterInOrder` | hft-lead-lag/src/domain/screener/drained_trades.rs:46-58 | the filter keeps the order |
| `DrainedTrades.NoRunKeepsAll` | hft-lead-lag/src/domain/screener/drained_trades.rs:46-58 | without an active run the filter keeps everything |
| `DrainedTrades.FilterKeepsDistinct` | hft-lead-lag/src/domain/screener/drained_trades.rs:46-58 | the filter keeps exactly the trades of the active run and repeats no key |
| `CandidateEvents.CollapseCandidateEvents` | hft-lead-lag/src/domain/screener/drained_trades.rs:60-89 | the map loop yields each of its groups once |
| `CandidateEvents.CollapseExact` | hft-lead-lag/src/infrastructure/db.rs:749-757 | on distinct keys the events are those of the SQL grouping: per symbol and exit time the mean profit and the earliest entry |
| `CandidateEvents.ObservedUnion` | hft-lead-lag/src/domain/screener/mod.rs:105-118 | accumulating two disjoint sets of events one after the other equals accumulating their union; the order of events does not matter |
| `CandidateEvents.CandidateStats.ObserveDrain` | hft-lead-lag/src/domain/screener/mod.rs:638-651 | sort, dedupe, filter, collapse and accumulate together fold exactly the drain's events into the accumulators |
| `CandidateEvents.CandidateStats.RestoreHistory` | hft-lead-lag/src/domain/screener/mod.rs:506-526 | the accumulators become those of the rows, empty rows skipped and counters clamped |
| `CandidateEvents.RestoredIsClamped` | hft-lead-lag/src/domain/screener/mod.rs:506-526 | whatever the rows say, restored wins and losses are at most the closed events and no symbol has none; all else is the row's |
| `RestartTransparency.IncrementalIsAggregate` | hft-lead-lag/src/infrastructure/db.rs:758-767 | one event at a time, the accumulators reach COUNT, the conditional counts, SUM and MIN of all the events |
| `RestartTransparency.RestoreIsAggregate` | hft-lead-lag/src/domain/screener/mod.rs:506-526 | restoring the query's answer, in whatever row order, yields the same aggregate |
| `RestartTransparency.UnsplitFolds` | hft-lead-lag/src/infrastructure/db.rs:749-767 | with no group split across drains, drain by drain and from the table the same events are seen |
| `RestartTransparency.SplitIsOvercounted` | hft-lead-lag/src/domain/screener/mod.rs:645-651 | a split group makes the process count some symbol's events more than once |
| `RestartTransparency.RestartIsInvisibleExactly` | hft-lead-lag/src/domain/screener/mod.rs:506-526 | below u32 saturation the restored statistics equal the running ones if and only if no (symbol, exit time) group is split across drains |
| `RestartTransparency.QueryHasAnswer` | hft-lead-lag/src/infrastructure/db.rs:745-783 | whatever is stored, the history query has an answer |
| `RestartTransparency.SplitGroupShows` | hft-lead-lag/src/domain/screener/mod.rs:645-651 | two trades with one symbol and exit time in one drain each: the process counts two closed events, the restored statistics one |
| `RestartTransparency.HandleNextDrain` | hft-lead-lag/src/domain/screener/mod.rs:633-651 | the class, drain after drain, computes the fold the theorem is about |

## Left out

- HTTP and WebSocket servers, REST clients, exchange parsers, signing, templates, logging, file watching and configuration: input and output, not modelled.
- SQLite: the database is the keyed trades table, the last portfolio snapshot and the history query; whether a write succeeds is an input, and theorems that need success say so.
- Snapshot rows: their content is opaque, so the JSON encoding of symbol lists and the three-table replace are one step.
- Weak memory: every atomic access is one indivisible step, and the compare-exchange may fail spuriously; the effects of relaxed ordering between different atomics are not modelled.
- Widths of `next_seq`, `queue_depth` and the health counters: unbounded; a wrap of 64 bits is not modelled.
- Channel capacities: any positive numbers; 100,000, 8,192, 2,048, 8,192 and 512 are one choice.
- The process-wide watchdog maxima and the health backlog derived from them: `mark_enqueued_seq` returns before raising the process-wide maximum when its compare-exchange succeeds, so nothing is claimed about them.
- Failure of `open_db` in the worker and poisoned mutexes: a live worker and healthy locks are assumed.
- Order between the channel of a keep-latest lane and its overflow map: overflow entries overtake queued ones, so no order between the two is claimed.
- Which of the two sends the screener makes after a drain, and the snapshot rows it builds for it: what is handed to the writer is an input.
- Content of control-plane quotes, latency metrics, signal checking and `ShadowTrader`: closed trades, quotes and signals are inputs.
- Floating point: profits are reals, so rounding, the order of sums and NaN (ranked last by the code) are not modelled.
- Event order: the collapse map's key order is not modelled, since the accumulators do not depend on it.
- PaperLedger.AccountsTally: below u64 saturation of the closed counter.
- PortfolioRuns.LedgerStaysSound: wins and losses are bounded by closed trades only below u64 saturation of the closed counter, because past it the counters of wins and losses still grow.
- RestartTransparency.RestartIsInvisibleExactly: assumes no run filter and no pruning of the table, and fewer than 2^32 events per symbol, because past that the process saturates while the query truncates.
- ExecutionQueue.TimeoutRateBound: a cooldown that would end past the largest 64-bit timestamp ends there, as the code's saturating addition has it.
- Coalescing.CoalescingPreservesBooks: the books only; coalescing drops samples of the clock-offset estimator, which therefore does depend on it.
- PendingSymbols.PendingSymbolSet.PopFromWord: a 64-bit word is a sequence of 64 bits, with the mask and trailing-zero count written out on bits.
- Resolution of a ticker's strategy id while parsing: the id is part of the ticker, and the theorem assumes it is the one the id map assigns.
- Restoring the portfolio runtime from its stored rows, candidate statistics from accumulators, scoring, percentiles, fleet configuration and the optimizer: left out, easier than what is here.
