# Verified models of the Meshtastic–Matrix relay

Four parts of the relay keep state that several threads, crashes or failing operations can
disturb. Each is modelled here and its guarantees are proved for every run:

- **Database manager** (`DbRuntime`, `DbConnections`, `DbManager`): threads with nested operations, jobs in a
  thread pool, and a closer that shuts admission, waits, and closes every connection. A
  transition system over arbitrary interleavings, and a class whose methods are its events.
- **Message queue** (`QueueModel`, `QueueLifecycle`, `QueueLedger`, `QueueDrain`,
  `QueueRecords`, `QueueOutcomes`, `QueueRate`, `QueueCompletions`, `QueueSamples`,
  `QueueObject`): concurrent
  producers, the processor coroutine between its awaits, send functions in a thread pool, and
  start/stop with watchdogs and late cleanup. Separate invariants for the life cycle, the order
  and conservation of messages, `drain`, the sent history, what the answers of the send functions
  decide, the rate the processor sees and the sends that really took place; and a class that
  performs every event in place.
- **Tables** (`SchemaRepair`, `SchemaStore`; `NameCollector`, `SingleNameCollector`,
  `PairNameCollector`, `NameSync`; `MessageMap`): the crash-safe repair of the message map,
  the collectors of node names, the name tables behind a cache, and the retention of mappings.
- **Migration of files** (`FileSystem`, `DatabaseMove`, `DatabaseMigration`,
  `DatabaseRollback`, `LegacyArchive`, `WindowsHome`): moving, rolling back, archiving and
  relocating files on a disk where any operation may fail.

State machines are pure: a `State`, an `Event`, `Enabled` and `Apply`. Every class exposes a
`View()`; the contract of a method states the new state in terms of the old fields, and this is
proved to be what one event does, so the theorems about runs are theorems about interleavings of
its methods. Where an operation may fail, its contract speaks
of the state at the very moment of the failure; as each single operation may be the one that
fails without effect, this covers every intermediate state.

`dafny verify dfyconfig.toml` checks the whole project.

## What turned out not to hold

Each of these is stated as a lemma with the exact condition under which the code does meet the
expectation, and with a concrete run or input where it does not.

- **Two processors.** A finalizer of an earlier `stop()` that runs once more while a later stop is
  under way clears `_stopping` for both (`src/mmrelay/message_queue.py:228-251`, last call at line
  390). `StaleFinalizerBreaks`: it is the only event that can break the life cycle, and it always
  does. `StaleStartDoublesExactly`: a start right after it makes two processors live if and only if
  the stop under way still had one. `StaleStartReusesPool`, `StaleStartLosesPool`: no second pool is
  opened; the queue takes over the one that is being shut down. `StaleFinalizerAllowsTwoProcessors`
  is a complete run, and in `TwoProcessorsReorder` the second message is sent before the first. Runs
  without a stale finalizer are called orderly.
- **Running with the failed-stop latch set.** A watchdog tests and latches in two steps
  (`RunningWithFailedStop`). `NeverLatchedExactly`: it never happens in an orderly run if and only if
  no latch fires while the queue runs; `NeverLatchedBeforeNextStop`: not before the next stop if no
  seen timeout was pending at the start.
- **`drain` returning too early.** A coroutine cancelled on an event loop at rest can be driven later
  and lowers the flags of its successor (`DrainLies`). `DrainHonestExactly`: `drain` is right
  throughout an orderly run if and only if that never happens while the last message is in hand.
- **Rate across a stop.** A send function that is running when its coroutine is cancelled completes
  in the pool without moving `_last_send_mono` (lines 783-794, 872-882), so the next start may send
  at once (`RestartSendsTooEarly`). `CompletionsSpacedExactly`: all sends that took place keep the
  distance if and only if none follows such a lost one too early; `UndisturbedCallsAreSpaced`: they
  do as long as no coroutine goes away during a call.
- **Sent history.** A cancellation that arrives while the mapping of a sent message is being stored
  records that message a second time, as cancelled (lines 805 and 878; `SentAndCancelled`).
  `OneRecordEachExactly`: the history is one record per message, in order, if and only if no
  cancellation is caught by a coroutine that only remembers its message.
- **Two-field name collector.** It is order-independent up to two records per id and not beyond
  (`TwoRecordsIsTheLimit`): a contradicted field is reset and a third record refills it, although the
  comment at `src/mmrelay/db_utils.py:1576-1577` says that the order cannot matter.
- **Unchanged path of the name sync.** The tables equal the state's names if and only if ids without
  a name had no row (`ConfirmedIsExactIff`, `ConfirmedLeavesRow`).
- **Interrupted schema rebuild.** It changes which of two contradicting rows wins, exactly when the
  legacy table contradicts an earlier temporary (`InterruptionMattersExactlyOnClash`). No event id and
  no row of `message_map` is ever lost.
- **Database reached twice.** A database in a directory that the search visits twice, as with a root
  and its own `data` directory as a second root (`NestedRootsVisitTwice`, `NestedRootsFail`), is listed
  twice and its second turn finds nothing staged. `MigrateDatabase`: unless an operation fails for no
  reason, the newest database is moved if and only if it is sound, one visit leads to it, and no
  folder is in the way. Nothing is lost by the failure.
- **Rollback.** Migration and rollback are a round trip for the destination if and only if the main
  database existed there before (`RoundTrip`); deleted sources stay deleted (`SourcesStayDeleted`).
- **Failed relocation of a Windows home.** A unit saved as a file is restored if and only if the failed
  migration did not leave a folder in its place (`SourceIsBack`, `BlockedFileStaysLost`).

## Model

| member | source | states |
|---|---|---|
| DbRuntime.StepInv | src/mmrelay/db_runtime.py:301-322 | every event of every interleaving keeps the invariant: the counter is the sum of the nesting depths, the admission flag is up exactly inside an operation or a job, every job is where its fate says, every connection is tracked or closed |
| DbRuntime.CountStep | src/mmrelay/db_runtime.py:313-322 | `_active_sync_count` equals the number of open operations over all threads after any event |
| DbRuntime.ZeroMeansNobodyInside | src/mmrelay/db_runtime.py:533-535 | a counter at zero or below means that no thread is inside an operation |
| DbRuntime.ThreadStep | src/mmrelay/db_runtime.py:301-322 | flag, saved values and close phase of every thread stay consistent under every event |
| DbRuntime.JobsStep | src/mmrelay/db_runtime.py:407-444 | queue, worker threads and job fates keep telling the same story: no job is lost, doubled or run twice |
| DbRuntime.ConnectionsStep | src/mmrelay/db_runtime.py:256-298 | every connection ever created stays tracked or has been closed |
| DbRuntime.RunInv | src/mmrelay/db_runtime.py:301-322 | the invariant holds after every run |
| DbRuntime.CloseExcludesWork | src/mmrelay/db_runtime.py:515-551 | when the connections are closed, no thread is inside an operation and every job ever submitted has finished or was withdrawn; afterwards no connection is open |
| DbRuntime.ClosedForever | src/mmrelay/db_runtime.py:515-551 | and whatever happens later, nobody gets in, no job is accepted and no connection is created |
| DbRuntime.AdmissionRule | src/mmrelay/db_runtime.py:307-311 | an operation is refused exactly while closing, on a thread that is neither inside an operation nor running a job; an open manager admits everyone |
| DbRuntime.ExitUndoesEnter | src/mmrelay/db_runtime.py:301-322 | leaving an operation restores the state entering it found, at any nesting |
| DbRuntime.PendingNeverGrows | src/mmrelay/db_runtime.py:521-535 | once admission is shut, queued jobs plus admitted threads never increase |
| DbRuntime.HelpfulStepsShrinkWaiting | src/mmrelay/db_runtime.py:521-535 | each step by which work runs out brings the closer strictly nearer |
| DbRuntime.CloserNeverStuck | src/mmrelay/db_runtime.py:521-535 | from every reachable state the remaining work can run out within a computed number of steps so that the closer proceeds |
| DbConnections.OwnedStep | src/mmrelay/db_runtime.py:287-298 | every event keeps it so that no two threads share a connection and, until the close, every open registered one belongs to a thread |
| DbConnections.OneOpenConnectionPerThread | src/mmrelay/db_runtime.py:272-298 | over every run, until the connections are closed: each registered connection that nobody closed is the one of exactly one thread, so there are never more open ones than threads |
| DbConnections.ConnectionKept | src/mmrelay/db_runtime.py:287-298 | a thread keeps its connection over every run in which nobody closes it |
| DbManager.DatabaseManager.constructor | src/mmrelay/db_runtime.py:143-195 | a new manager has one tracked connection and satisfies the invariant |
| DbManager.DatabaseManager.EnterActivity | src/mmrelay/db_runtime.py:301-317 | raises, changing nothing, exactly while closing on a thread that is not at work; otherwise counts the operation and saves the flag it found |
| DbManager.DatabaseManager.ExitActivity | src/mmrelay/db_runtime.py:318-322 | takes the operation off the count and puts back the innermost saved flag |
| DbManager.DatabaseManager.GetConnection | src/mmrelay/db_runtime.py:272-298 | if nobody closed the connection of the thread, returns that one and changes nothing; otherwise forgets it and registers a new one for the thread, or none if the connect fails |
| DbManager.DatabaseManager.SubmitJob | src/mmrelay/db_runtime.py:407-444 | raises, changing nothing, exactly while closing; otherwise the new job is last in the queue |
| DbManager.DatabaseManager.BeginJob | src/mmrelay/db_runtime.py:424-427 | the worker takes the oldest job, which is then running there, and is admitted |
| DbManager.DatabaseManager.EndJob | src/mmrelay/db_runtime.py:426-429 | the job of the worker is finished and the worker no longer admitted |
| DbManager.DatabaseManager.ShutAdmission | src/mmrelay/db_runtime.py:521-528 | raises, changing nothing, exactly on a thread that is at work; otherwise nothing is accepted any more |
| DbManager.DatabaseManager.AwaitExecutor | src/mmrelay/db_runtime.py:530-531 | the closer has seen the executor empty |
| DbManager.DatabaseManager.CloseTracked | src/mmrelay/db_runtime.py:533-544 | empties the registry and closes every connection that was in it, at a moment when nobody works; afterwards none is open |
| DbManager.DatabaseManager.ReplaceThreadLocals | src/mmrelay/db_runtime.py:546-551 | every thread loses its connection and its admission, and nothing else |
| QueueLifecycle.LifeStep | src/mmrelay/message_queue.py:127-392 | every event but a stale finalizer keeps the life cycle: one live coroutine and one live pool at most, owned by the running queue or by the one open stop |
| QueueLifecycle.StaleFinalizerBreaks | src/mmrelay/message_queue.py:228-251 | an event breaks the invariant of the life cycle if and only if it is a stale finalizer |
| QueueLifecycle.StaleStartDoublesExactly | src/mmrelay/message_queue.py:228-251 | a start right after a stale finalizer makes two processors live if and only if the stop under way still had a live one |
| QueueLifecycle.StaleStartReusesPool | src/mmrelay/message_queue.py:165-170 | such a start opens no second pool but takes over the registered one, which is open if and only if the stop under way has not shut it down yet |
| QueueLifecycle.StaleStartLosesPool | src/mmrelay/message_queue.py:355-374 | when that stop then shuts it down, the running queue is left on a closed pool |
| QueueLifecycle.FinalizeOpenLife | src/mmrelay/message_queue.py:228-251 | the finalizer of the open stop, with coroutine and pool gone, leads back to the stopped queue with all flags clear |
| QueueLifecycle.FinalizeAgainLife | src/mmrelay/message_queue.py:228-251 | any other finalizer that is not stale changes at most the failed-stop latch |
| QueueLifecycle.ClearIsHarmless | src/mmrelay/message_queue.py:103-125 | outside a finalizer, clearing a failed stop changes nothing but the latch |
| QueueLifecycle.LifeRun | src/mmrelay/message_queue.py:127-392 | the life cycle is kept over every orderly run |
| QueueLifecycle.NeverTwo | src/mmrelay/message_queue.py:127-392 | at no time of an orderly run are two processors alive or two pools open |
| QueueLifecycle.StartWaitsForCleanup | src/mmrelay/message_queue.py:139-193 | a start that activates a stopped queue happens only after every earlier coroutine has ended or can never go on, every pool is shut down, and every stop is complete |
| QueueLifecycle.LatchedExactlyByLatch | src/mmrelay/message_queue.py:220-226 | one event sets the failed-stop latch on a running queue if and only if it is a latch that fires while the queue runs |
| QueueLifecycle.NeverLatchedExactly | src/mmrelay/message_queue.py:220-226 | over an orderly run the queue never runs latched if and only if no latch fires while it runs |
| QueueLifecycle.NeverLatchedBeforeNextStop | src/mmrelay/message_queue.py:127-193 | a queue that runs with no seen timeout pending is not latched before the next stop |
| QueueLifecycle.RunningWithFailedStop | src/mmrelay/message_queue.py:220-222 | a concrete orderly run after which the queue runs with the failed-stop latch set |
| QueueLifecycle.StaleFinalizerAllowsTwoProcessors | src/mmrelay/message_queue.py:228-251 | a concrete run in which a stale finalizer lets two processors run side by side |
| QueueLedger.LedgerStep | src/mmrelay/message_queue.py:671-887 | every event but a stale finalizer keeps order, conservation, the bound, the drop counter, the attempt order and the visibility to `drain` |
| QueueLedger.RequeueAddsUp | src/mmrelay/message_queue.py:528-552 | putting a message back at the front, or dropping it when full, keeps the accepted order |
| QueueLedger.SendEndsAddsUp | src/mmrelay/message_queue.py:792-870 | whatever a send ends with, its message is settled or back at the front |
| QueueLedger.AcceptLedger | src/mmrelay/message_queue.py:502-509 | an accepted message joins the ledger and the queue at the same place |
| QueueLedger.NothingLostOrReordered | src/mmrelay/message_queue.py:449-887 | at every moment of every orderly run settled, held and queued messages are together the accepted sequence in order; the queue bound holds; the drop counter is exactly the refused plus the unreturnable messages |
| QueueLedger.HeldIsNext | src/mmrelay/message_queue.py:696-703 | what the only live processor holds is the first unsettled message, with its place in the accepted order |
| QueueLedger.AttemptsInOrder | src/mmrelay/message_queue.py:759-790 | over every orderly run each call of a send function hands over an accepted message; the places never go back, and once a later message was tried the earlier one is settled |
| QueueLedger.TwoProcessorsReorder | src/mmrelay/message_queue.py:680-790 | a concrete run with a stale finalizer in which the second message is sent before the first |
| QueueDrain.HonestMeansSettled | src/mmrelay/message_queue.py:630-647 | what `drain` sees is right if and only if, when it sees nothing, every accepted message is settled |
| QueueDrain.SightLostExactly | src/mmrelay/message_queue.py:872-882 | one event deceives `drain` if and only if it is the late cancellation of a doomed coroutine while the last message is in another hand |
| QueueDrain.DrainHonestExactly | src/mmrelay/message_queue.py:630-647 | over an orderly run `drain` is right throughout if and only if no such event happens |
| QueueDrain.DrainedMeansSettled | src/mmrelay/message_queue.py:630-647 | without such an event, when `drain` sees the queue and both flags clear, every accepted message is settled |
| QueueDrain.DrainLies | src/mmrelay/message_queue.py:872-882 | a concrete orderly run after which `drain` returns true with an accepted message unsettled |
| QueueRecords.ExcessGrowsExactly | src/mmrelay/message_queue.py:889-910 | in any run, an event leaves one record too many if and only if it is a cancellation caught by a coroutine that only remembers its message |
| QueueRecords.OneRecordEachExactly | src/mmrelay/message_queue.py:889-910 | after any run the sent history is one record per sent, failed or cancelled message, in order, if and only if no such cancellation happened |
| QueueRecords.SentAndCancelled | src/mmrelay/message_queue.py:805-878 | a concrete run that records one message as sent and as cancelled |
| QueueOutcomes.AnswersDecideFates | src/mmrelay/message_queue.py:792-870 | over every run, orderly or not, with the answers read off its events: a settled message was sent, gave no result or failed, and has the record of that name, exactly if the last answer heard for it was a delivery, an empty one or a rejection; every answer but a lost connection settles its message |
| QueueOutcomes.RejectedIsError | src/mmrelay/message_queue.py:862-870 | a rejected message has left the queue as failed, with that record, and both flags fall |
| QueueOutcomes.EmptyIsNoResult | src/mmrelay/message_queue.py:792-803 | an empty answer is recorded as no result and moves the time of the last send |
| QueueOutcomes.DeliveredIsSent | src/mmrelay/message_queue.py:804-831 | a delivery is recorded as sent and moves the time of the last send; the flags stay up only while a mapping is stored |
| QueueOutcomes.LostGoesBack | src/mmrelay/message_queue.py:834-861 | after a connection error the message heads the queue again, or is counted as dropped if the queue is full |
| QueueOutcomes.LostExactlyWhenPutBack | src/mmrelay/message_queue.py:834-861 | a call was answered by a connection error if and only if its message then heads the queue again or was counted as dropped from a full one |
| QueueOutcomes.OutcomeStep | src/mmrelay/message_queue.py:671-887 | every event of every run keeps it so that fates and records follow the last answers |
| QueueOutcomes.NothingLostOrDoubled | src/mmrelay/message_queue.py:449-887 | over every run, even with two processors side by side, every accepted message is queued, in one hand or settled, and in one of these places only |
| QueueRate.PaceStep | src/mmrelay/message_queue.py:717-744 | every event keeps what each coroutine knows about its waiting time |
| QueueRate.AttemptsWait | src/mmrelay/message_queue.py:717-773 | a send function is called only when every send the processor saw completed lies at least the current delay and the message's own minimum in the past |
| QueueRate.SendsAreSpaced | src/mmrelay/message_queue.py:717-794 | over every orderly run, the sends the processor saw completed are at least the smallest configured delay apart, across restarts |
| QueueRate.CountIsBounded | src/mmrelay/message_queue.py:717-794 | n sends in a window span at least n - 1 delays |
| QueueRate.WindowIsBounded | src/mmrelay/message_queue.py:717-794 | over every orderly run, a window of length W holds at most floor(W / d) + 1 of the sends the processor saw completed |
| QueueCompletions.CompStep | src/mmrelay/message_queue.py:771-882 | every event keeps the relation between the sends that took place, what became of their messages and the mark of the rate limit |
| QueueCompletions.FarWhileCalling | src/mmrelay/message_queue.py:717-790 | while a call is running, the last completion that was not lost lies at least the delay back |
| QueueCompletions.CompletionsSpacedExactly | src/mmrelay/message_queue.py:717-882 | over every orderly run all sends that took place are d apart if and only if none follows, within d, one whose message was given up in flight |
| QueueCompletions.UndisturbedCallsAreSpaced | src/mmrelay/message_queue.py:717-882 | as long as no coroutine goes away during a call, all sends that took place are d apart |
| QueueCompletions.RestartSendsTooEarly | src/mmrelay/message_queue.py:783-794 | a concrete orderly run with two sends at the same moment across a stop, with a delay of 2.5 seconds |
| QueueObject.MessageQueue.constructor | src/mmrelay/message_queue.py:68-101 | a new queue is stopped and empty |
| QueueObject.MessageQueue.ClearFailedStop | src/mmrelay/message_queue.py:103-125 | clears the latch, the stopping flag and the finished coroutine exactly if the queue is stopped, its coroutine has ended and its pool is gone |
| QueueObject.MessageQueue.Start | src/mmrelay/message_queue.py:127-193 | activates the queue exactly if it is neither running nor stopping and nothing is left of a failed stop, and then finds no live coroutine and no open pool; sets the delay and opens a pool and a coroutine as needed; otherwise changes nothing |
| QueueObject.MessageQueue.EnsureProcessorStarted | src/mmrelay/message_queue.py:649-669 | a missing or finished coroutine is replaced if the queue runs, is not latched and has a loop, and forgotten otherwise; a live one is left alone |
| QueueObject.MessageQueue.BeginStop | src/mmrelay/message_queue.py:195-218 | a running queue stops accepting and a new stop is recorded; a stopped one is left alone |
| QueueObject.MessageQueue.FinalizeStopState | src/mmrelay/message_queue.py:228-251 | a complete stop gives up the coroutine, pool and flags that are still its own and ends the stopping, or the failed stop once nothing is left of it; keeps the state reachable unless the call is stale |
| QueueObject.MessageQueue.CancelAndCleanup | src/mmrelay/message_queue.py:259-278 | cancels the coroutine of a stop unless it has ended, which the stop then notes |
| QueueObject.MessageQueue.ShutDownExecutor | src/mmrelay/message_queue.py:355-374 | the pool of a stop is shut down and the stop knows |
| QueueObject.MessageQueue.MarkStopFailed | src/mmrelay/message_queue.py:220-226 | latches a timeout seen earlier |
| QueueObject.MessageQueue.ResetFailedStopState | src/mmrelay/message_queue.py:563-583 | reports true, with the latch cleared, exactly when the queue is not stopping and nothing is left of a failed stop |
| QueueObject.MessageQueue.EnqueueTurn | src/mmrelay/message_queue.py:434-517 | one turn of the enqueue loop: takes the message, at the end and with the next place, exactly if the queue runs, is not stopping or latched, and is below the bound; on a full queue asks for another turn or counts a drop |
| QueueObject.MessageQueue.RequeueMessage | src/mmrelay/message_queue.py:528-552 | the message is first in the queue again, or counted as dropped when the queue is full |
| QueueObject.MessageQueue.TestLoop | src/mmrelay/message_queue.py:680-683 | the loop goes on while running; otherwise the coroutine ends and a held message is abandoned |
| QueueObject.MessageQueue.TakeNext | src/mmrelay/message_queue.py:696-703 | takes the oldest message, which is the first unsettled one of the accepted order |
| QueueObject.MessageQueue.CheckConnection | src/mmrelay/message_queue.py:705-714 | keeps the message in hand while the connection is down |
| QueueObject.MessageQueue.ComparePace | src/mmrelay/message_queue.py:717-730 | rests exactly if the larger of the two delays has not passed since the last send, and until it has |
| QueueObject.MessageQueue.AfterRest | src/mmrelay/message_queue.py:731-744 | puts the message back if the connection dropped during the rest |
| QueueObject.MessageQueue.BeginSend | src/mmrelay/message_queue.py:759-790 | calls with the first unsettled message, and only when every send seen completed lies the effective delay in the past |
| QueueObject.MessageQueue.SendCompleted | src/mmrelay/message_queue.py:792-870 | rejected: settled and recorded as failed; empty: as no result; delivered: as sent, both at this time; connection lost: first in the queue again, or dropped and counted if it is full; with the flags of each case |
| QueueObject.MessageQueue.MappingDone | src/mmrelay/message_queue.py:866-870 | the flags fall after the mapping is stored |
| QueueObject.MessageQueue.DeliverCancellation | src/mmrelay/message_queue.py:872-882 | before its first step and in the pause after an error a cancelled coroutine loses its message unrecorded; elsewhere it is recorded as cancelled and the flags fall; what is settled stays a prefix of what was accepted |
| QueueObject.MessageQueue.IsDrained | src/mmrelay/message_queue.py:630-647 | when it succeeds and no event has deceived `drain`, every accepted message is settled |
| QueueObject.MessageQueue.AdvanceClock | src/mmrelay/message_queue.py:717-744 | time passes |
| QueueObject.MessageQueue.ReturnFromSend | src/mmrelay/message_queue.py:783-790 | the coroutine has this answer to hear; a completed send is logged with its message |
| QueueObject.MessageQueue.ReturnUnheard | src/mmrelay/message_queue.py:783-790 | a send function returns for which nobody waits any more |
| QueueObject.MessageQueue.WakeFromBackoff | src/mmrelay/message_queue.py:883-887 | the pause after an unexpected error ends |
| QueueObject.MessageQueue.CancelFromOutside | src/mmrelay/message_queue.py:872-882 | somebody else cancels the coroutine |
| QueueObject.MessageQueue.CloseLoop | src/mmrelay/message_queue.py:280-282 | the event loop of the coroutine is closed under it |
| QueueObject.MessageQueue.NoteTaskDone | src/mmrelay/message_queue.py:271-276 | a stop learns that its coroutine has ended |
| QueueObject.MessageQueue.NoteClosedLoop | src/mmrelay/message_queue.py:280-282 | a stop finds the loop of its coroutine closed |
| QueueObject.MessageQueue.DriveToEnd | src/mmrelay/message_queue.py:337-347 | a stop drives its coroutine to the end on a loop at rest, or gives it up |
| QueueObject.MessageQueue.SeeTimeout | src/mmrelay/message_queue.py:300-302 | a watchdog sees a timeout |
| SchemaRepair.FinalHasEveryId | src/mmrelay/db_utils.py:800-998 | the row an uninterrupted run leaves exists for exactly the event ids of the four tables |
| SchemaRepair.FinalPrecedence | src/mmrelay/db_utils.py:846-998 | which table wins for an id: the map, then the temporaries, then the legacy table, which comes before the temporaries in a rebuild; of the temporaries the stale one first if only it has meshnets |
| SchemaRepair.MergedRows | src/mmrelay/db_utils.py:258-315 | an INSERT OR IGNORE adds the missing rows with room, text and meshnet, and changes none |
| SchemaRepair.MergeIntoTempProgress | src/mmrelay/db_utils.py:846-882 | merging the stale temporary into the other loses nothing, before and after the drop |
| SchemaRepair.MergeIntoMapProgress | src/mmrelay/db_utils.py:846-882 | the same when only the stale temporary knows meshnets and is merged into the map |
| SchemaRepair.AbsorbProgress | src/mmrelay/db_utils.py:890-926 | moving a side table into a TEXT map loses nothing, before and after the drop |
| SchemaRepair.RenamedStage | src/mmrelay/db_utils.py:928-939 | between the rename and the copy of a rebuild every row is still in a table |
| SchemaRepair.CopiedStage | src/mmrelay/db_utils.py:940-996 | from the copy of a rebuild to its end nothing is lost at any point |
| SchemaRepair.HistoryIsProgress | src/mmrelay/db_utils.py:800-998 | any number of runs, interrupted anywhere, keep ids and protected rows |
| SchemaRepair.InterruptedRunsLoseNothing | src/mmrelay/db_utils.py:800-998 | after any number of interrupted runs and a completed one, the map has exactly the original event ids; rows of the map are intact, all others come from one of the tables, and without a contradiction they are those of an uninterrupted run |
| SchemaRepair.InterruptionMattersExactlyOnClash | src/mmrelay/db_utils.py:928-996 | an interruption between setting aside and copying back changes the outcome for an id if and only if the legacy table contradicts the temporary about it |
| SchemaStore.Database.Execute | src/mmrelay/db_utils.py:800-998 | one statement takes effect as a whole or not at all; an error without a fault of SQLite has its reason in the tables |
| SchemaStore.Database.Prepare | src/mmrelay/db_utils.py:811-830 | creates the table and the meshnet column, changing no row |
| SchemaStore.Database.MergeStale | src/mmrelay/db_utils.py:846-882 | reconciles the two temporaries |
| SchemaStore.Database.AbsorbTemp | src/mmrelay/db_utils.py:890-906 | brings the temporary into a TEXT map, where the map's rows win |
| SchemaStore.Database.AbsorbLegacy | src/mmrelay/db_utils.py:914-926 | brings the legacy table into a TEXT map, where the map's rows win |
| SchemaStore.Database.CopyIntoFreshTable | src/mmrelay/db_utils.py:928-953 | sets the old table aside and copies all its rows into a TEXT one |
| SchemaStore.Database.AbsorbLegacyIntoFresh | src/mmrelay/db_utils.py:954-972 | adds the legacy rows and drops the old table |
| SchemaStore.Database.MergeBackStale | src/mmrelay/db_utils.py:973-996 | merges the preserved temporary back; without a fault of SQLite this fails, which is reported, exactly if it has no column for the node id |
| SchemaStore.Database.Rebuild | src/mmrelay/db_utils.py:928-996 | turns a non-TEXT table into a TEXT one with the final row for every id |
| SchemaStore.Database.Initialize | src/mmrelay/db_utils.py:800-998 | from any state, at any exit, no id and no protected row is lost; a completed run leaves a TEXT id column, no side table and the final rows; without faults it completes if and only if every table there is has a column for the node id; a second run changes nothing |
| NameCollector.MergeExtendsJoin | src/mmrelay/db_utils.py:1635-1651 | merging two names gives the join of all records so far, or detects that they contradict each other |
| SingleNameCollector.CollectSingleName | src/mmrelay/db_utils.py:1966-2052 | names, ids and completeness equal a closed form: the unique name, no name, or no entry on a contradiction |
| SingleNameCollector.OrderDoesNotMatter | src/mmrelay/db_utils.py:1966-2052 | any two listings with the same records, in any order and with any repetitions, give the same result |
| PairNameCollector.CollectNodeNameSnapshot | src/mmrelay/db_utils.py:1490-1632 | the collecting loop computes the fold; no dictionary gives an empty, incomplete snapshot |
| PairNameCollector.CollectKnows | src/mmrelay/db_utils.py:1510-1632 | ids are those mentioned, entries of uncontradicted ids are joins, completeness means that everything was readable and uncontradicted |
| PairNameCollector.IdsAndCompletenessIgnoreOrder | src/mmrelay/db_utils.py:1510-1632 | ids and completeness are the same for every order of the records |
| PairNameCollector.TameIdsIgnoreOrder | src/mmrelay/db_utils.py:1576-1620 | an id with at most two records, or without contradictions, gets the same names in every order |
| PairNameCollector.CompleteMeansJoined | src/mmrelay/db_utils.py:1510-1632 | a complete snapshot has an entry for exactly the mentioned ids, each field the join of its records |
| PairNameCollector.ThreeRecordsDependOnOrder | src/mmrelay/db_utils.py:1608-1620 | three records of one node whose order decides whether a name survives |
| PairNameCollector.TwoRecordsIsTheLimit | src/mmrelay/db_utils.py:1608-1620 | order-independence holds for every snapshot with at most n records per id if and only if n is at most two |
| NameSync.NameStore.DeleteStaleNames | src/mmrelay/db_utils.py:2167-2218 | deleting in chunks leaves exactly the rows of the current ids |
| NameSync.NameStore.WriteField | src/mmrelay/db_utils.py:1654-1714 | writes known names and, from a complete snapshot only, deletes the rows of unknown ones |
| NameSync.NameStore.SyncAtomic | src/mmrelay/db_utils.py:1654-1761 | both tables become the state's names (complete) or are overridden by them (incomplete), or nothing changes |
| NameSync.NameStore.PruneAtomic | src/mmrelay/db_utils.py:1764-1786 | both tables lose exactly the rows of ids outside the snapshot, or nothing changes |
| NameSync.NameStore.ReadNames | src/mmrelay/db_utils.py:1359-1422 | reads the rows of the asked ids in chunks, empty names as absent |
| NameSync.NameStore.TableMatches | src/mmrelay/db_utils.py:1425-1464 | succeeds if and only if the table has every name the state expects, none of them empty |
| NameSync.NameStore.TablesMatch | src/mmrelay/db_utils.py:1467-1487 | succeeds only if both tables match, and without a read error fails only if one does not |
| NameSync.NameStore.SyncIfChanged | src/mmrelay/db_utils.py:1803-1918 | ends in one of four ways, each with the exact tables and the exact state returned; it fails only with an error of SQLite |
| NameSync.NameStore.UpdateNames | src/mmrelay/db_utils.py:1921-2068 | on success every listed id has its row as the snapshot wants it and, if complete, no other rows remain; on failure, which takes an error of SQLite, every row is as before or as wanted |
| NameSync.SuccessAgrees | src/mmrelay/db_utils.py:1823-1918 | a successful call leaves every name of the returned state in both tables and, from a complete snapshot, no row of another id; a failed one returns the previous state and has at most removed rows |
| NameSync.SnapshotReachesTables | src/mmrelay/db_utils.py:1842-1918 | after a successful call both tables and the returned state have every name the snapshot gives, whatever the previous state said |
| NameSync.ResultFromSnapshot | src/mmrelay/db_utils.py:1842-1865 | the returned state is the snapshot's if that was complete; otherwise it has the ids of both, each field with the snapshot's name where it gives one and the previous name where it does not |
| NameSync.IgnoredExactly | src/mmrelay/db_utils.py:1823-1878 | a call is ignored if and only if there is no snapshot, an empty one, or an incomplete one that together with the previous state knows no id |
| NameSync.OutcomeExactly | src/mmrelay/db_utils.py:1902-1918 | without errors of SQLite a call that is not ignored takes the unchanged path if and only if the snapshot brings no news of any id and both tables have every known name, none of them empty; otherwise it writes |
| NameSync.CompleteSyncIsExact | src/mmrelay/db_utils.py:1681-1714 | after a sync from a complete snapshot each table is exactly the names of the state |
| NameSync.IncompleteSyncOverrides | src/mmrelay/db_utils.py:1681-1714 | after a sync from an incomplete snapshot known names are set and every other row is untouched |
| NameSync.ConfirmedIsExactIff | src/mmrelay/db_utils.py:1449-1464 | on the unchanged path a table is exactly the names of the state if and only if ids without a name had no row |
| NameSync.ConfirmedLeavesRow | src/mmrelay/db_utils.py:1449-1464 | a concrete call on the unchanged path that leaves a long name for a node without one |
| NameSync.CacheStaysCoherent | src/mmrelay/db_utils.py:1803-1918 | over any run the tables hold every name of the state returned last |
| NameSync.PartialRunsKeepNames | src/mmrelay/db_utils.py:1842-1876 | over any run of missing, empty or incomplete snapshots no named id disappears from the tables or the state |
| MessageMap.RowsFollowOperations | src/mmrelay/db_utils.py:222-230 | after any run the table has one row for each event present, in the order of their first insertion and with what was stored for it last; content and order are defined on the list of operations alone |
| MessageMap.PresentAreTheNewest | src/mmrelay/db_utils.py:2522-2537 | the events present are the last so many that were inserted |
| MessageMap.NewestSurvive | src/mmrelay/db_utils.py:2522-2537 | if every pruning keeps at least k, the last k created rows are present |
| MessageMap.PruneKeepsNewest | src/mmrelay/db_utils.py:2522-2537 | pruning keeps exactly the newest min(n, k) rows |
| MessageMap.MappingTable.StoreMessageMap | src/mmrelay/db_utils.py:2328-2356 | the row of this event has this content; all other rows and their order are as before, and a new event comes last |
| MessageMap.MappingTable.PruneMessageMap | src/mmrelay/db_utils.py:2522-2537 | the oldest surplus rows are gone and their number is returned; the others stay in order |
| FileSystem.TextIsInjective | src/mmrelay/migrate.py:917-933 | the names of the database files and of their timestamped backups never coincide as strings |
| FileSystem.BaseTextOfDatabase | src/mmrelay/migrate.py:392-398 | stripping a sidecar suffix gives the name of the main file |
| FileSystem.Disk.Copy | src/mmrelay/migrate.py:1615-1623 | a copy may fail and spoil only its destination; onto a folder it lands inside |
| FileSystem.Disk.Move | src/mmrelay/migrate.py:1656-1659 | a failed move keeps the content at one end, a file at its source |
| DatabaseMove.BackUp | src/mmrelay/migrate.py:1591-1613 | on success every existing destination file is backed up and listed, and nothing else changed |
| DatabaseMove.Stage | src/mmrelay/migrate.py:1615-1623 | on success every selected file is staged; only the staging area changed |
| DatabaseMove.Install | src/mmrelay/migrate.py:1643-1659 | on success each selected destination has what was staged, and no file was listed twice |
| DatabaseMove.DeleteSources | src/mmrelay/migrate.py:1661-1671 | removes at most selected sources and changes nothing |
| DatabaseMove.RemoveStale | src/mmrelay/migrate.py:1673-1688 | on success no old sidecar without a counterpart is left; selected files are untouched |
| DatabaseMove.MoveGroup | src/mmrelay/migrate.py:1578-1719 | at any exit each selected content is at source or destination and each old destination content is in place or backed up; on success the destination is exactly the group; unless an operation fails for no reason it succeeds if and only if the copy is sound, nothing is listed twice and only plain files are concerned |
| DatabaseMigration.CollectCandidates | src/mmrelay/migrate.py:1449-1500 | the candidates are the databases with their sidecars of every searched directory, once per visit and in order; the search ends early if and only if the only root is or holds the target |
| DatabaseMigration.CandidatesAreFound | src/mmrelay/migrate.py:1449-1500 | a path is a candidate if and only if it is an existing file of an existing database in a searched directory |
| DatabaseMigration.ListedPerVisit | src/mmrelay/migrate.py:1449-1500 | a file of a database is listed exactly as often as its directory is searched |
| DatabaseMigration.MostRecent | src/mmrelay/migrate.py:1027-1089 | returns the first of the most recently written groups, ignoring sidecars without a main file |
| DatabaseMigration.MostRecentIsNewest | src/mmrelay/migrate.py:1077-1089 | no candidate is newer than the newest file of the chosen group |
| DatabaseMigration.SelectGroup | src/mmrelay/migrate.py:1560-1576 | the group is exactly the existing files of the chosen database, without repetition if and only if no candidate of it was listed twice |
| DatabaseMigration.MigrateDatabase | src/mmrelay/migrate.py:1424-1719 | without force an existing database is untouched, a dry run touches nothing, and every other outcome keeps all contents; each action is returned in exactly its case; unless an operation fails for no reason, the newest database is moved if and only if it is sound, one visit leads to it and only plain files are concerned |
| DatabaseMigration.NestedRootsVisitTwice | src/mmrelay/migrate.py:1449-1500 | a root and its own data directory as another root visit that directory twice |
| DatabaseMigration.NestedRootsFail | src/mmrelay/migrate.py:1643-1659 | a concrete call with such roots that cannot succeed and loses nothing |
| DatabaseRollback.RestoreFromBackup | src/mmrelay/migrate.py:3435-3470 | on success the restored path has the backup's content; without a fault it fails only if there is no backup |
| DatabaseRollback.RollbackDatabase | src/mmrelay/migrate.py:3509-3586 | restores every backup, removes unbacked migrated files unless only sidecars had backups or a backup is not back, and never touches a backup; without faults it succeeds if and only if every backup is still there |
| DatabaseRollback.RoundTrip | src/mmrelay/migrate.py:3509-3586 | migration followed by an error-free rollback gives back the exact destination if and only if the main database was there before |
| DatabaseRollback.SourcesStayDeleted | src/mmrelay/migrate.py:3509-3586 | rollback leaves every source path as the migration left it |
| DatabaseRollback.MigrateAndRollBack | src/mmrelay/migrate.py:1424-1719 | the same for the two operations called one after the other on a disk; without faults the rollback of a finished migration succeeds |
| LegacyArchive.DestIsInjective | src/mmrelay/migrate.py:3053-3075 | two legacy files are never archived to the same path |
| LegacyArchive.Collect | src/mmrelay/migrate.py:3053-3075 | raises exactly if some legacy database file is a link or leads out of its root; otherwise lists exactly the legacy database files, each once, the active database apart |
| LegacyArchive.CopyAll | src/mmrelay/migrate.py:3113-3119 | on success every candidate has a compared copy; outside the archive nothing changed; into an unused archive it fails only with a fault |
| LegacyArchive.ArchiveLegacyDatabases | src/mmrelay/migrate.py:3044-3136 | applies exactly to a plain active database with something to archive and no link; at any exit every candidate is live or archived, nothing is removed before all are archived, the active database is untouched; without faults, with a sound active database and an unused archive, all are archived and none is live; a rehearsal without an active database plans exactly what a migration would leave over |
| WindowsHome.TakeSnapshot | src/mmrelay/migrate.py:3300-3318 | on success the snapshot holds every unit of the source and nothing else; both homes are unchanged; it fails only with a fault |
| WindowsHome.RestoreUnit | src/mmrelay/migrate.py:3329-3348 | moves a partial unit away from the target and puts the saved one back; it fails only with a fault |
| WindowsHome.RestoreAll | src/mmrelay/migrate.py:3328-3349 | without faults every unit is restored; the snapshot is never changed |
| WindowsHome.SourceIsBack | src/mmrelay/migrate.py:3336-3346 | a restored unit equals what it was if and only if no folder stood where a file was saved |
| WindowsHome.BlockedFileStaysLost | src/mmrelay/migrate.py:3344-3346 | a concrete failure after which the configuration file is not restored |
| WindowsHome.MigrateWindowsHome | src/mmrelay/migrate.py:3246-3363 | a refusal leaves both homes alone and without a fault has one of the listed reasons; a failure without faults puts back every unit that was not blocked and moves what stood at the target aside; the snapshot keeps the source whatever happens |

## Left out

- asyncio, threads, thread pools, SQLite and the file system themselves: they appear as atomic
  steps, maps and nondeterministic outcomes; logging, messages and permission bits do not appear.
- QueueObject.MessageQueue.EnqueueTurn: one turn of the waiting loop; the loop itself is a sequence
  of such events in a run, since an unlimited wait need not end.
- QueueLifecycle.NeverTwo: for runs without stale finalizers, the one event shown to break it.
- QueueLedger.NothingLostOrReordered: likewise for orderly runs, since two processors side by side can
  reorder messages.
- QueueRate.WindowIsBounded: likewise for orderly runs, since two processors side by side do not wait for
  each other.
- QueueRate.SendsAreSpaced: about the sends the processor saw completed; for all that took place see
  QueueCompletions.CompletionsSpacedExactly.
- Sleeping lasts at least as long as asked, and the monotonic clock is positive; the rate
  theorems rest on both.
- An event loop that starts elsewhere between `is_running()` and `run_until_complete()` in `stop()`,
  and exceptions other than cancellation raised there.
- Errors in storing message mappings after a send, delivery reactions and acknowledgements, the limit
  on the number of sent records that are kept, and queue statistics.
- DbRuntime.CloserNeverStuck: closing from inside a job is refused at once; in the original a job that
  calls `close()` while another closer holds `_executor_lock` in `shutdown(wait=True)`
  (`src/mmrelay/db_runtime.py:521`, 530-531) waits for it, and both wait for ever.
- The order of the two database locks: a write callback that enters the manager again takes them
  the other way round; progress of the closer is stated for steps that do not wait for a lock.
- SQLite's type affinity and NULL event ids: the cast of an id is a function and event ids are not
  null; the tables of plugin data are not part of the schema model.
- PairNameCollector.TwoRecordsIsTheLimit: the condition is a bound on the records of each id; which
  contradicted ids with three and more records are order-independent all the same is not characterised.
- PairNameCollector.CollectNodeNameSnapshot: the state is a map; the original keeps the same
  entries as a sorted tuple.
- `normalize_node_id` is an arbitrary function of the raw id.
- FileSystem.Disk.Move: folders are one content at their path, so a tree is moved or copied as a whole
  and paths inside one another are not modelled; symbolic links are not either.
- DatabaseMove.BackUp: backup names are fresh; two runs within the same second could share one.
- DatabaseMigration.MigrateDatabase: no legacy root is the staging directory itself, and no folder
  lies there; log texts and the paths in the report are not modelled.
- DatabaseRollback.RollbackDatabase: the search for any backup by name prefix, used when a step
  reports none, and the other steps of a rollback.
- LegacyArchive.Collect: whether a file is a link or leads out of its root is a property of its path,
  given from outside; the original asks again for each root it is found under.
- WindowsHome.MigrateWindowsHome: the inner migration is any change outside the snapshot; the lock
  file, the detection of Windows and of configured homes, and the clean-up of an active home.
- The other migration steps, the scan for legacy roots, service files, credentials and plugins:
  the same copy, verify and replace pattern with easier claims.
- Command line, configuration, Matrix and Meshtastic front ends.
