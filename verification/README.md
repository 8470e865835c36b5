# RFID gateway: verified model of the final runtime

The gateway drives one RFID reader over TCP on behalf of Odoo. Odoo sends START,
STOP and ABORT commands with revisions and may send them again. The worker keeps a
runtime record, a persistent reader connection, a background capture thread, a
session row and a queue of tag events; a delivery worker sends the events to Odoo,
and the success ACK of a STOP is held back until the session's events have been
delivered.

The project models three linked cores and proves what they promise together.

**Wire protocol.** `Crc` and `BitStrings` relate the byte-wise CRC loop to the
shift register of CRC-16/CCITT-FALSE (listed as CRC-16/IBM-3740 in the RevEng
catalogue, generator of section 2 of ITU-T Recommendation V.41).
`ReaderProtocol`, `FrameStream` and `ReaderTransport` are frames, the
resynchronising decoder and the receiving session; `TagData` is the tag payload.
`WireToBuffer` follows the bytes into the executor's buffer of tag frames.

**Durable delivery.** `Store` holds the rows. `QueuePolicy`, `DeliveryService` and
`FinalDeliveryCycle` are one event's attempts and a delivery cycle as objects
updated in place, each method against a function of the old rows; `DeliveryRuns`
interleaves any number of workers on stale selections, `CycleSchedules` shows each
cycle to be such a schedule, `DeliveryProgress` is about termination and the back-off
of one worker, `CycleMeaning` about what a cycle does to an event in terms of its
session, state and attempts, `DeliverySpacing` about exactly when back-off holds with several. `TagIngestion` and `IngestionUnion` store observations,
`IngestionSuccess` says exactly when a call succeeds,
`DeliveryBarrier` is the check in front of STOP's ACK, and `StoreEvolution` says
how the store may change at all.

**Session control.** `RuntimeState` and `SessionService` are the record and the
rows. `ReaderExecutor` and `CaptureService` are the connection and the capture
thread, as classes and as functions of what the socket delivers. `ControlMachine`
is the whole worker as a transition system: the control thread with one step per
effect, the capture thread with one step per point of its loop, delivery workers,
other readers, SIGTERM and crashes, where every call may fail and every action may
come at any time. A run is an arbitrary sequence of actions from an arbitrary lawful
database. `ControlInvariant`, `FrameCustody`, `StopGuarantee` and
`SessionContents` hold what every step keeps, `ControlOutcomes` what each effect
leaves behind, `ControlTheorems` the results over all runs, `StopLiveness` whether a
waiting STOP is acknowledged in the end, and `ControlWitness` a run that shows a limit. `RuntimeOrchestrator` and `FinalWorker` are the handlers
and the worker loop as they are written, over the executor, capture and database
objects; a ghost trace ties each of them to a run of the transition system, so
that the results about runs hold of them. `CaptureRefinement` does the same for
the capture loop.

Where the code and its descriptions differ, the code is modelled:

- The capture service keeps a failure "for the control thread to observe", but no
  step of STOP looks at it. `ControlTheorems.AckedStopDeliveredIff` has the exact
  condition under which an acknowledged STOP means that every captured tag is
  delivered: storing did not fail in the capture thread, or each frame that was not
  stored has the EPC of a row that was there at START or that another frame of the
  session has left. A receive that failed loses nothing. `require_capture_healthy`
  (no recorded error of either kind) is sufficient, `ControlTheorems.AckedStopDelivered`.
  `ControlWitness.AckedStopCanLoseFrame` is a run with frames as they come off the
  wire in which the tag E200 gets no row because of one failed database call. The
  worker stops its loop on a recorded error at both health checks of `run_once`
  (bridge_core/final_worker_cycle.py:176 and 222), so the failure has to fall between
  the first of them and the STOP command, while the heartbeat and the polling run.
- `run_final_delivery_cycle` does not check the retry settings.
  `DeliveryProgress.ProcessOnce` says exactly when an event is left INFLIGHT, and
  `DeliveryProgress.InflightIsStranded` that nothing picks it up again.
- The compare-and-set of a delivery attempt looks at the queue state only, not at the
  scheduled time. One worker keeps the back-off (`DeliveryProgress.BackoffHolds`);
  several keep it exactly if every start on a waiting event comes when it is due
  (`DeliverySpacing.StartKeepsSpacingIffDue`, `DeliverySpacing.ScheduleKeptIffTimely`),
  which a stale selection can break (`DeliverySpacing.TwoWorkersBreakSpacing`).
- A STOP behind the delivery barrier is acknowledged in the end exactly if no final
  event of its session was given up (`StopLiveness.StopAckedIffNothingStuck`); a
  REJECTED, DEAD or stranded INFLIGHT event keeps it waiting.
- A blank failure text makes `mark_degraded` raise in turn; the transition system
  follows the exception into shutdown instead of excluding it.

## Model

| member | source | states |
|---|---|---|
| `Crc.CalculateCrc` | bridge_core/reader_protocol.py:48-60 | The byte loop returns what the 16-bit shift register of x^16+x^12+x^5+1, preset to ones, holds after the message bits were clocked in most significant bit first |
| `Crc.ResidueZero` | bridge_core/reader_protocol.py:138-147 | Message plus two bytes leave a zero register exactly when those bytes are the CRC of the message, in both directions |
| `Crc.BurstChangesResidue` | bridge_core/reader_protocol.py:48-60 | Two messages of equal length that differ only inside one window of 16 bits leave different registers |
| `Crc.ChecksumParity` | bridge_core/reader_protocol.py:48-60 | The parity of the CRC bits is the parity of the message bits, for every message |
| `Crc.OddFlipsChangeResidue` | bridge_core/reader_protocol.py:48-60 | Flipping an odd number of bits always changes the register |
| `Crc.AdjacentBytesAreBurst` | bridge_core/reader_protocol.py:48-60 | Any change confined to two neighbouring bytes lies inside one 16-bit window |
| `ReaderProtocol.BuildThenParse` | bridge_core/reader_protocol.py:70-156 | build_frame succeeds exactly for fields in 0..255 and payloads up to 65526 bytes, and parse_frame then gives all fields back |
| `ReaderProtocol.ParseThenBuild` | bridge_core/reader_protocol.py:110-156 | Whatever parse_frame accepts is exactly what build_frame makes of the parsed fields |
| `ReaderProtocol.ParseIffEncodes` | bridge_core/reader_protocol.py:110-156 | parse_frame accepts exactly the byte strings that encode a frame: start byte, length, fields, payload and CRC, with every malformed case refused |
| `ReaderProtocol.BurstRejected` | bridge_core/reader_protocol.py:138-147 | A valid frame changed inside any 16-bit window, CRC included, is refused |
| `ReaderProtocol.AdjacentBytesRejected` | bridge_core/reader_protocol.py:138-147 | A valid frame with one byte or two neighbouring bytes changed is refused |
| `ReaderProtocol.OddFlipsRejected` | bridge_core/reader_protocol.py:138-147 | A valid frame with any odd number of bits flipped is refused |
| `FrameStream.FrameStreamDecoder.FindSof` | bridge_core/reader_protocol.py:300-308 | The search returns the first start byte, or -1 when there is none |
| `FrameStream.FrameStreamDecoder.Feed` | bridge_core/reader_protocol.py:292-340 | Feeding a chunk emits, and leaves buffered, what one scan of buffer and chunk gives |
| `FrameStream.ScanConcat` | bridge_core/reader_protocol.py:292-340 | Scanning in two goes, carrying the pending bytes over, equals scanning at once |
| `FrameStream.ChunksDoNotMatter` | bridge_core/reader_protocol.py:292-340 | However a stream is cut into chunks, the emitted frames and the pending bytes are those of one feed |
| `FrameStream.GreedyCoverUnique` | bridge_core/reader_protocol.py:310-340 | There is exactly one left-to-right cover of a stream by skipped bytes, frames and an incomplete rest |
| `FrameStream.ScanIsGreedy` | bridge_core/reader_protocol.py:310-340 | The decoder's result is that cover, stated by positions and without its buffer |
| `FrameStream.PendingShape` | bridge_core/reader_protocol.py:299-326 | Pending bytes are empty, or start with 0xFE and are at most 65534 |
| `FrameStream.StreamRoundTrip` | bridge_core/reader_protocol.py:292-340 | Built frames between stretches of noise without start bytes decode to exactly those frames with nothing pending, for any chunking |
| `ReaderTransport.TCPReaderSession.Receive` | bridge_core/reader_transport.py:123-179 | One call reads up to and including the first chunk that completes an expected frame, the chunk that closes the connection, the first timeout or error, or the last allowed read, and returns the expected frames of what it decoded or the error of that ending: receive failed, incomplete frame, or no response; invalid arguments touch nothing; an empty result only on a timeout in polling mode |
| `ReaderTransport.NoExpectedFrameLost` | bridge_core/reader_transport.py:145-179 | Over any sequence of calls that end in a return, the frames returned are the decoded stream filtered by the commands that every call expects, in order: a timeout loses none |
| `WireToBuffer.WaitOnStream` | bridge_core/final_reader_executor.py:115-188 | A wait loop on a byte stream buffers the tag frames of the decoded stream in front of the first deciding frame, and succeeds exactly if that frame is the accepted answer |
| `WireToBuffer.ChunksDoNotReachBuffer` | bridge_core/reader_transport.py:145-179 | Two ways of cutting one stream into chunks and calls leave the same buffer and the same answer |
| `WireToBuffer.PollsOnStream` | bridge_core/final_reader_executor.py:344-362 | Repeated polling returns, and on raising leaves pending, exactly the tag frames of the decoded stream in front of the first refused one; it raises exactly if there is one |
| `TagData.ParseTagData` | bridge_core/reader_protocol.py:197-281 | The offset-advancing parser equals the field-by-field reference |
| `TagData.EncodeThenParse` | bridge_core/reader_protocol.py:197-281 | For every mask with these optional fields, upper bits included, parsing the encoded payload gives the fields back, whatever follows them |
| `TagData.ParseThenEncode` | bridge_core/reader_protocol.py:197-281 | Whatever is accepted starts with the encoding of the fields that are returned |
| `TagData.ParseIffEncodes` | bridge_core/reader_protocol.py:197-281 | parse_tag_data accepts exactly the payloads that start with an announced, well-sized set of fields, with the tag that those describe: two upper-case hexadecimal digits for every EPC and TID byte, PC and count as big-endian two's complement |
| `TagData.HexIsHex` | bridge_core/reader_protocol.py:248-263 | The hexadecimal text has two digits for every byte, whose values, read off the characters, give the byte |
| `TagData.HexUnique` | bridge_core/reader_protocol.py:248-263 | Two texts are equal exactly if their bytes are: no two EPCs share a text |
| `TagData.EqualTagsEqualFields` | bridge_core/reader_protocol.py:197-281 | Payloads that parse to equal tags had equal field bytes |
| `QueuePolicy.TransitionTable` | bridge_core/queue_policy.py:4-48 | The whole transition table by the state that is entered; terminal states are exactly those without a way out; SENT is only entered from INFLIGHT, INFLIGHT only from QUEUED or RETRY |
| `QueuePolicy.RetryDelayShape` | bridge_core/queue_policy.py:51-70 | The delay lies between the initial and the maximum delay, starts at the initial one and doubles until it reaches the maximum |
| `QueuePolicy.RetryDelayIff` | bridge_core/queue_policy.py:51-70 | A delay exists exactly for positive attempt numbers and 1 <= initial <= maximum |
| `QueuePolicy.RetryDelayMonotone` | bridge_core/queue_policy.py:51-70 | The delay never decreases with the attempt number and stays at the maximum once there |
| `DeliveryService.StartDeliveryAttempt` | bridge_core/delivery_service.py:26-106 | Locks a row and does what StartEvent says, or changes nothing |
| `DeliveryService.CompleteDeliveryAttempt` | bridge_core/delivery_service.py:120-252 | Locks a row and does what CompleteEvent says, or changes nothing |
| `DeliveryService.TransitionEventQueueState` | bridge_core/queue_service.py:16-54 | Compare-and-set of the queue state: the new row, or an error and no change |
| `DeliveryService.StartKeepsLog` | bridge_core/delivery_service.py:37-105 | An attempt starts exactly if the expected state still holds, is QUEUED or RETRY, and attempts are left; it appends attempt n+1 and keeps the log invariant |
| `DeliveryService.CompleteKeepsLog` | bridge_core/delivery_service.py:154-252 | Exactly the one open attempt can be completed; the earlier ones stay, the retry time is completion plus the delay, the log invariant holds |
| `DeliveryService.SweepKeepsLog` | bridge_core/queue_service.py:22-54 | Dead-lettering from a stale expectation either applies to that very state or not at all, and keeps the log |
| `DeliveryService.LogInvariantMeans` | bridge_core/delivery_service.py:154-252 | INFLIGHT holds iff the last attempt is open, SENT iff the last attempt was sent, RETRY has a scheduled time, QUEUED and UNASSIGNED have no attempt, at most one attempt is open |
| `DeliveryRuns.StaleSnapshotsAreSafe` | bridge_core/delivery_cycle.py:64-107 | Any number of workers on arbitrarily old selections: the log invariant holds, an event is sent at most max_attempts times, changes state at most 2*max_attempts+2 times, and no two workers hold the same event |
| `DeliveryRuns.CompletedAttemptsAreFinal` | bridge_core/delivery_service.py:154-252 | Over any further schedule a completed attempt keeps its outcome and times, and a terminal event stays as it is |
| `FinalDeliveryCycle.DeadLetterCancelled` | bridge_core/final_delivery_cycle.py:105-154 | Exactly the queued and retrying final events of cancelled sessions of this reader become DEAD, and are counted |
| `FinalDeliveryCycle.DeadLetterExhausted` | bridge_core/final_delivery_cycle.py:157-219 | Exactly the final RETRY events of this reader with no attempt left become DEAD, and are counted |
| `FinalDeliveryCycle.ProcessDeliveryCandidate` | bridge_core/delivery_cycle.py:64-107 | Start, send, complete: the row afterwards for every reply of the sender, also when it raises in between |
| `FinalDeliveryCycle.ProcessBatch` | bridge_core/final_delivery_cycle.py:268-316 | The loop processes each selected row once, leaves the others alone, and its counters tally the outcomes |
| `FinalDeliveryCycle.RunFinalDeliveryCycle` | bridge_core/final_delivery_cycle.py:234-316 | The whole cycle row by row: both sweeps, selection, processing, with the error cases and what they leave behind |
| `FinalDeliveryCycle.TalliesAddUp` | bridge_core/final_delivery_cycle.py:268-316 | The five outcome counters add up to the number of selected events |
| `CycleMeaning.TurnsDeadIff` | bridge_core/final_delivery_cycle.py:105-219 | An event turns DEAD in a cycle exactly if its session was CANCELLED while it was QUEUED or in RETRY, or it was in RETRY with no attempt left, or it was tried and the outcome was DEAD; in the first two cases its attempts are unchanged |
| `CycleMeaning.CycleMeans` | bridge_core/final_delivery_cycle.py:234-316 | For every event: given up without a try, tried once with the state that the outcome asks for, or left as it is, by its session, state, attempts and the number of older events that may go |
| `CycleMeaning.ChosenIff` | bridge_core/final_delivery_cycle.py:76-101 | A cycle selects exactly the events that are due and not given up and have fewer than batch_size such events in front of them |
| `CycleMeaning.ChosenIsFull` | bridge_core/final_delivery_cycle.py:95-101 | The selection has as many events as may go, up to the batch size |
| `DeliveryProgress.ProcessOnce` | bridge_core/delivery_cycle.py:64-107 | One processed event gains one attempt; it is left INFLIGHT exactly if the sender returned no completion outcome, or a retry met invalid retry settings, which the cycle does not check |
| `DeliveryProgress.DeliveryTerminates` | bridge_core/final_delivery_cycle.py:28-102 | One worker, nothing inflight, cycles spaced by the maximum delay: after N*max_attempts+1 cycles all N final events are terminal, for any outcomes and any batch size of at least 1 |
| `DeliveryProgress.FinishedStaysForever` | bridge_core/final_delivery_cycle.py:234-316 | From then on every further cycle leaves no event live |
| `DeliveryProgress.InflightIsStranded` | bridge_core/final_delivery_cycle.py:76-101 | An event left INFLIGHT is not touched by any number of later cycles |
| `DeliveryProgress.BackoffHolds` | bridge_core/final_delivery_cycle.py:76-101 | With one worker and a clock that does not run backwards, every attempt starts no earlier than the delay after its predecessor was completed |
| `DeliverySpacing.StartKeepsSpacingIffDue` | bridge_core/delivery_service.py:44-68 | A start that succeeds keeps the back-off exactly if an event in RETRY is due, the guard that the start function does not have |
| `DeliverySpacing.SpacingIffTimely` | bridge_core/delivery_cycle.py:64-107 | From any safe state of any number of workers, an event is on schedule after a run exactly if every successful start on it in RETRY came at or after its scheduled time |
| `DeliverySpacing.ScheduleKeptIffTimely` | bridge_core/delivery_cycle.py:64-107 | The same for every run of the multi-worker model from its start |
| `DeliverySpacing.TwoWorkersBreakSpacing` | bridge_core/delivery_service.py:44-68 | A concrete run of two workers, each selecting the event when it was due, in which the stale start and nothing else breaks the back-off |
| `CycleSchedules.CycleIsSchedule` | bridge_core/final_delivery_cycle.py:234-316 | A delivery cycle is a schedule of one worker in the multi-worker model: sweeps, selection, and start, send and completion of each selected event |
| `CycleSchedules.CyclesAreSchedule` | bridge_core/final_delivery_cycle.py:234-316 | Repeated cycles are such a schedule, so what holds of all schedules holds of them |
| `RuntimeState.CarrierIffCommand` | bridge_core/final_runtime_state.py:38-107 | A payload is read as a command exactly if it carries that command, field by field, and the command is well formed; every other payload is refused |
| `RuntimeState.AcceptedIff` | bridge_core/final_runtime_state.py:129-269 | Exactly which commands are accepted in which record, and the record each one plans |
| `RuntimeState.RedeliveryIsDuplicate` | bridge_core/final_runtime_state.py:129-184 | After completion the same command is recognised as a duplicate, nothing else is, and older ones are refused |
| `RuntimeState.MarksMean` | bridge_core/final_runtime_state.py:272-347 | When the record can become READING, IDLE, DEGRADED or completed, and every field it then has; DEGRADED is refused exactly for a blank text |
| `RuntimeState.StripMeans` | bridge_core/final_runtime_state.py:331-347 | Stripping removes white space at both ends and nothing else |
| `SessionService.SynchronizeStartCommand` | bridge_core/final_session_service.py:69-161 | Creates, reuses or refuses the session row as the reference function says, and changes nothing on refusal |
| `SessionService.CloseLocalSession` | bridge_core/final_session_service.py:165-215 | Closes an ACTIVE row of this reader; closing twice is allowed; everything else is refused without a change |
| `SessionService.CancelLocalSession` | bridge_core/final_session_service.py:219-264 | The same for cancelling |
| `SessionService.SynchronizeFacts` | bridge_core/final_session_service.py:69-161 | Keeps at most one ACTIVE row per reader, reopens nothing, touches no other reader, and ends with this session ACTIVE |
| `SessionService.SynchronizeIff` | bridge_core/final_session_service.py:30-161 | Exactly when START gets its row, and the row that is created: ACTIVE, with the requested operation on a shared reader and the operation of the role otherwise |
| `SessionService.FinishFacts` | bridge_core/final_session_service.py:197-213 | Succeeds exactly for this reader's ACTIVE or already finished row; finished rows never change; other rows stay |
| `SessionService.CloseAndCancel` | bridge_core/final_session_service.py:165-264 | Exactly when closing and cancelling succeed, blank identities included, and the rows afterwards |
| `DeliveryBarrier.Inspect` | bridge_core/final_delivery_barrier.py:26-81 | The counts are the numbers of the session's final events on the reader: all, SENT, UNASSIGNED to RETRY as pending, REJECTED or DEAD as failed; no failed and no pending one exactly if all are SENT |
| `DeliveryBarrier.RequireDeliveryComplete` | bridge_core/final_delivery_barrier.py:84-108 | Passes exactly if both identities are given and every final event of the session on the reader is SENT; otherwise failed events are reported before pending ones |
| `TagIngestion.CreateRows` | bridge_core/ingestion.py:14-42 | The get_or_create loop adds one unassigned row per key that is not there yet |
| `TagIngestion.AssignNewRows` | bridge_core/session_assignment_cycle.py:17-44 | All new rows go to the reader's one ACTIVE session, or none does; the three counters say which |
| `TagIngestion.PersistRows` | bridge_core/final_tag_ingestion.py:188-215 | Creating and assigning either covers every new row or raises the error of the counter check |
| `TagIngestion.CheckRows` | bridge_core/final_tag_ingestion.py:217-244 | True exactly if each read's row has its EPC, this session and a live queue state |
| `TagIngestion.IngestFinalActiveTagFrames` | bridge_core/final_tag_ingestion.py:141-261 | One transaction: the new store and the counts, or an error and an unchanged store |
| `TagIngestion.QueuedCountIs` | bridge_core/final_tag_ingestion.py:246-250 | queued_count is the number of the session's QUEUED rows of the reader |
| `IngestionUnion.IngestOk` | bridge_core/final_tag_ingestion.py:159-244 | A successful call needs the ACTIVE session of this reader, only appends queued rows of it, and leaves a row with the right key and EPC for every frame |
| `IngestionSuccess.IngestSucceedsIff` | bridge_core/final_tag_ingestion.py:141-261 | A call succeeds exactly if the key has 1 to 128 characters, the reader is enabled and the session ACTIVE on it, every frame is an active-tag frame of this reader with status 0 and an EPC, a new EPC fits the role, no digest collides, and what the session has of these EPCs is QUEUED, INFLIGHT, RETRY or SENT |
| `IngestionUnion.KeyLayout` | bridge_core/final_tag_ingestion.py:52-63 | An event key is the final prefix, the digest of the session and the digest of the EPC, each in its place |
| `IngestionUnion.OneRowPerEpc` | bridge_core/final_tag_ingestion.py:52-63 | Two final rows of a session with the same EPC are the same row, for any digest |
| `IngestionUnion.IngestIsUnion` | bridge_core/final_tag_ingestion.py:159-261 | The session's EPCs become the union with the frames' EPCs, and `created` is the number of new ones |
| `IngestionUnion.RunsAreUnions` | bridge_core/final_tag_ingestion.py:141-261 | Over any run and any batching, interleaved with delivery and other sessions, the session's EPCs are the union of those of the successful calls and `created` adds up to them |
| `ReaderExecutor.OnFramesMeans` | bridge_core/final_reader_executor.py:102-113 | A batch buffers exactly the tag frames before the first frame that decides the wait |
| `ReaderExecutor.WaitMeans` | bridge_core/final_reader_executor.py:115-188 | The bounded wait loops buffer exactly the tag frames before the deciding frame of all they hear, and succeed exactly if that frame is an accepted answer from this reader |
| `ReaderExecutor.WhatDecides` | bridge_core/final_reader_executor.py:98-188 | START is accepted with status 0 or 0x99, STOP and verification with 0 alone; which frames end each wait and which are buffered |
| `ReaderExecutor.PersistentActiveReaderExecutor.HandleFrames` | bridge_core/final_reader_executor.py:129-148 | The inner loop equals the reference fold over the frames |
| `ReaderExecutor.PersistentActiveReaderExecutor.WaitForResponse` | bridge_core/final_reader_executor.py:115-188 | The outer loop of 32 receives equals the reference fold over the receptions |
| `ReaderExecutor.PersistentActiveReaderExecutor.Start` | bridge_core/final_reader_executor.py:249-305 | Refusals change and send nothing; for the running session there is nothing to do; otherwise the session is held under its key exactly if the link comes up and the reader accepts within 32 receives, no session is held if not, and the tags heard before the deciding frame are buffered |
| `ReaderExecutor.PersistentActiveReaderExecutor.Stop` | bridge_core/final_reader_executor.py:307-342 | Refusals change and send nothing; otherwise no session is held afterwards for every link and every reception, Ok exactly if the reader accepts, and the tags heard before the deciding frame are buffered |
| `ReaderExecutor.PersistentActiveReaderExecutor.VerifyIdle` | bridge_core/final_reader_executor.py:190-247 | Ok exactly if no session is held, the link comes up and a STOP answer with status 0 decides; no field changes |
| `ReaderExecutor.PersistentActiveReaderExecutor.PollTagFrames` | bridge_core/final_reader_executor.py:344-362 | Pending frames come first; without a session nothing is read; otherwise the tag frames of one receive are returned, or those in front of a refused frame stay pending |
| `ReaderExecutor.PersistentActiveReaderExecutor.TakePendingTagFrames` | bridge_core/final_reader_executor.py:364-367 | Returns all pending frames and empties the buffer |
| `CaptureService.FinalCaptureService.Start` | bridge_core/final_capture_service.py:82-140 | Starts only for the active connection's own session; a second start for the same session changes nothing; a thread that cannot be spawned stays behind unstarted |
| `CaptureService.FinalCaptureService.Stop` | bridge_core/final_capture_service.py:171-190 | Ok exactly if there was no thread or it has ended; then no thread and no key are left; a timeout keeps both; the stop flag is set and the error kept |
| `CaptureService.FinalCaptureService.Run` | bridge_core/final_capture_service.py:142-169 | The loop makes exactly the ingestor calls of the reference loop, records the error that ended it, and sets the stop flag in any case |
| `CaptureService.PollConserves` | bridge_core/final_reader_executor.py:344-362 | What was pending and what was received is what is returned and what is pending afterwards |
| `CaptureService.LoopConserves` | bridge_core/final_capture_service.py:142-169 | The thread hands every captured frame over once, in order, under its own key, or leaves it pending; only the last call can have failed |
| `CaptureService.StoppedMeansAlone` | bridge_core/final_worker_cycle.py:65-96 | Stopping succeeds only with no thread left and keeps the recorded error |
| `CaptureService.HookIff` | bridge_core/final_worker_cycle.py:65-96 | Stopping is refused exactly for another reader or another captured session, and otherwise comes out as the state of the thread says |
| `ControlInvariant.StepCore` | bridge_core/final_runtime_orchestrator.py:96-526 | Every action of the whole worker keeps runtime record, connection, capture thread and session row in agreement, and lets the store only evolve |
| `ControlInvariant.ThreadCore` | bridge_core/final_capture_service.py:142-169 | No step of the capture thread disturbs the agreement |
| `ControlOutcomes.ReceiveOutcome` | bridge_core/final_runtime_orchestrator.py:96-131 | A refused command changes nothing, a redelivered one leaves only its ACK to send, an accepted one has its planned record and starts its sequence |
| `ControlOutcomes.SyncOutcome` | bridge_core/final_runtime_orchestrator.py:210-223 | START's row: ACTIVE on this reader afterwards, or the command fails with store and reader untouched |
| `ControlOutcomes.OpenOutcome` | bridge_core/final_reader_executor.py:249-305 | START is sent on a fresh connection under its session, or no connection is held and the clean-up begins; what was sent is recorded |
| `ControlOutcomes.AwaitStartOutcome` | bridge_core/final_reader_executor.py:279-305 | START answered: READING under the key with the connection live; not answered: no connection, and the clean-up with that error |
| `ControlOutcomes.HookOutcome` | bridge_core/final_worker_cycle.py:51-63 | The capture thread runs for this session and START is remembered as completed, or the emergency stop begins with the row as it was |
| `ControlOutcomes.JoinOutcome` | bridge_core/final_worker_cycle.py:65-96 | The stop sequence goes on to the reader only with no capture thread left; a thread that is alive is told to stop and waited for |
| `ControlOutcomes.SendOutcome` | bridge_core/final_reader_executor.py:307-342 | STOP is sent on the running connection, which is kept, or by ABORT on one of its own; if that fails no connection is held, pending frames and rows are as before, and STOP and ABORT degrade with the text and their key |
| `ControlOutcomes.AwaitStopOutcome` | bridge_core/final_runtime_orchestrator.py:364-371 | A confirmed STOP leaves no connection, a quiet reader and a cleared record; an unconfirmed one leaves no connection and a degraded record that keeps the key |
| `ControlOutcomes.DrainOutcome` | bridge_core/final_worker_cycle.py:104-126 | Draining empties the buffer whether or not the frames could be stored, and hands over all of it; a failure degrades with its text |
| `ControlOutcomes.CloseOutcome` | bridge_core/final_runtime_orchestrator.py:379-414 | STOP ends with its row CLOSED and the command remembered as completed in an IDLE record, or degrades with the store as it was |
| `ControlOutcomes.CancelOutcome` | bridge_core/final_runtime_orchestrator.py:477-503 | ABORT ends with its ACTIVE row CANCELLED, any other row untouched and the command remembered, or degrades with the store as it was |
| `ControlOutcomes.CleanUpOutcome` | bridge_core/final_runtime_orchestrator.py:266-316 | A failed START cancels the row it created, leaves any other row alone and degrades with the composed text; a blank text leads to shutdown |
| `ControlOutcomes.InterruptOutcome` | bridge_core/management/commands/run_final_rfid_worker.py:269-290 | SIGTERM leads from the loop into a shutdown that knows the connected session, ends a startup or shutdown at once, and changes no row |
| `FrameCustody.StepKeeps` | bridge_core/final_runtime_orchestrator.py:357-382 | Every action keeps every captured frame handed over, in the thread's hands or buffered, in order, under the session it was captured in |
| `StopGuarantee.StepStored` | bridge_core/final_tag_ingestion.py:159-244 | Every frame that the ingestor accepted keeps its row, whatever happens later |
| `StopGuarantee.StepClean` | bridge_core/final_capture_service.py:163-168 | Since the last START frame every handed frame was stored exactly if the thread has recorded no failure to store |
| `SessionContents.StepContents` | bridge_core/final_tag_ingestion.py:159-261 | The EPCs of the owning session's rows are at every step those that were there at START together with those of the frames stored since |
| `ControlTheorems.StopAckFinality` | bridge_core/final_runtime_orchestrator.py:148-178 | In every interleaving, once a success ACK for STOP has been sent the session is CLOSED, all its final events on the reader are SENT, and no event is ever added to it |
| `ControlTheorems.EveryFrameAccounted` | bridge_core/final_capture_service.py:142-190 | In every run each captured frame was handed over exactly once under the session it was captured in, or is still held, at its place in the order |
| `ControlTheorems.StopStoresEverything` | bridge_core/final_runtime_orchestrator.py:357-382 | When STOP completes, all captured frames had been handed over while the row was still ACTIVE; every frame since START has its row exactly if storing did not fail or each unstored frame repeats an EPC that has a row |
| `ControlTheorems.AckedStopDeliveredIff` | bridge_core/final_delivery_barrier.py:44-108 | At the success ACK of STOP every tag captured since START is in a SENT event of the session exactly if storing did not fail in the capture thread, or each unstored frame repeats an EPC known at START or stored since |
| `ControlTheorems.AckedStopDelivered` | bridge_core/final_delivery_barrier.py:44-108 | In particular, with a healthy capture service every tag captured since START is in a SENT event of the session |
| `ControlWitness.AckedStopCanLoseFrame` | bridge_core/final_runtime_orchestrator.py:349-414 | From an empty database, with frames that the parser accepts, a run acknowledges STOP although the observation of tag E200 was never stored; the same run with a healthy database call stores it |
| `ControlTheorems.ExclusiveReader` | bridge_core/final_capture_service.py:82-190 | Control thread and capture thread never use the reader or its buffer at the same time, and the thread only comes to life on an answered START of the same session |
| `ControlTheorems.RuntimeAgrees` | bridge_core/final_runtime_orchestrator.py:210-526 | READING, IDLE and the connection's key mean what they say in every reachable state, and STARTING and STOPPING never outlive a command |
| `ControlTheorems.SessionsNeverReopen` | bridge_core/final_session_service.py:69-161 | CLOSED and CANCELLED are absorbing and each device has at most one ACTIVE session, in every run |
| `ControlTheorems.StartNeedsActiveRow` | bridge_core/final_runtime_orchestrator.py:216-228 | A START frame goes out only while the session's row is ACTIVE on this reader |
| `ControlTheorems.NoStartAfterFinish` | bridge_core/final_session_service.py:118-121 | No START frame is ever sent for a closed or cancelled session, whatever commands are replayed |
| `ControlTheorems.RedeliveryIsIdempotent` | bridge_core/final_runtime_orchestrator.py:180-208 | Redeliveries of a completed command, mixed with refused commands and everything other threads do, send nothing to the reader, change no row of it and leave the record equal |
| `ControlTheorems.RedeliveryAfterCompletion` | bridge_core/final_runtime_orchestrator.py:318-347 | The same from the moment any reachable command has completed |
| `StopLiveness.CycleIsRun` | bridge_core/final_delivery_cycle.py:234-316 | A delivery cycle is a run of queue actions of the whole worker |
| `StopLiveness.RedeliveredStop` | bridge_core/final_runtime_orchestrator.py:148-208 | A redelivered STOP is acknowledged exactly if all its session's final events are SENT, and changes nothing else |
| `StopLiveness.StopAckedIffNothingStuck` | bridge_core/final_runtime_orchestrator.py:148-208 | After as many cycles as delivery needs to finish, a redelivered STOP is acknowledged exactly if no final event of its session is REJECTED or DEAD |
| `StopLiveness.StopAckedWhenDelivered` | bridge_core/final_runtime_orchestrator.py:148-208 | If the session is not CANCELLED, its final events are SENT or wait with an attempt left, and the sender delivers, then the STOP is acknowledged after those cycles |
| `StopLiveness.StuckIsNeverAcked` | bridge_core/final_delivery_barrier.py:94-99 | Once a final event of the session is REJECTED or DEAD, no STOP for it is acknowledged as a success in any interleaving |
| `StopLiveness.InflightBlocksStop` | bridge_core/final_delivery_barrier.py:101-106 | An event left INFLIGHT keeps the STOP waiting over any number of cycles |
| `CaptureRefinement.LoopRefines` | bridge_core/final_capture_service.py:142-169 | The capture loop as written is a run of the transition system's thread: same executor, store, error and frames handed over |
| `RuntimeOrchestrator.FinalRuntimeOrchestrator.ProcessCommand` | bridge_core/final_runtime_orchestrator.py:96-131 | Refused and redelivered commands touch no object; a redelivery succeeds exactly if its ACK may go out and is accepted, an accepted command exactly if it is also remembered as completed, and it is exactly if all its effects come out well; every accepted one is a run of the transition system; no STARTING or STOPPING remains; success of STOP means the session is final |
| `RuntimeOrchestrator.FinalRuntimeOrchestrator.PollCommands` | bridge_core/final_runtime_orchestrator.py:80-94 | The commands received are those of the payloads for this reader, in their order, the others are skipped, with one result each; a malformed payload or an escaping exception ends the polling after the ones before it |
| `RuntimeOrchestrator.FinalRuntimeOrchestrator.ExecuteStart` | bridge_core/final_runtime_orchestrator.py:210-347 | START as written is a run of the transition system, failure branches included; it is remembered as completed, in READING, exactly if every effect comes out well, and ends DEGRADED otherwise |
| `RuntimeOrchestrator.FinalRuntimeOrchestrator.StartCleanedUp` | bridge_core/final_runtime_orchestrator.py:240-316 | The except branch: emergency stop only with an active connection, failing exactly if the thread does not end in time, the reader does not confirm or the pending frames cannot be stored; the created row CANCELLED unless that fails too and no other row changed; the record DEGRADED with the text composed of what failed |
| `RuntimeOrchestrator.FinalRuntimeOrchestrator.ExecuteStop` | bridge_core/final_runtime_orchestrator.py:349-439 | STOP as written is a run of the transition system, failure branches included; it is remembered as completed, in IDLE, exactly if the thread ends in time, the reader confirms, the frames pending at the drain can be stored and the row can be closed; otherwise it ends DEGRADED |
| `RuntimeOrchestrator.FinalRuntimeOrchestrator.ExecuteAbort` | bridge_core/final_runtime_orchestrator.py:441-526 | ABORT as written, with verification of the reader when no connection is active and a FinalSessionError passed over; remembered as completed under the same conditions as STOP, DEGRADED otherwise |
| `RuntimeOrchestrator.FinalRuntimeOrchestrator.SendCompletedSuccessAck` | bridge_core/final_runtime_orchestrator.py:148-178 | Ok exactly if Odoo accepts the ACK and, for a STOP, the barrier can be read and every final event of the session is SENT; the record does not change |
| `RuntimeOrchestrator.FinalRuntimeOrchestrator.MarkedDegraded` | bridge_core/final_runtime_orchestrator.py:293-316 | Degrading with the failure text, or the escape when the text is blank |
| `FinalWorker.FinalRfidWorker.Startup` | bridge_core/management/commands/run_final_rfid_worker.py:176-192 | The worker starts exactly if the reader confirms STOP, the rows can be read and no ACTIVE row is left on the reader; otherwise it is down with the store unchanged |
| `FinalWorker.FinalRfidWorker.RunOnce` | bridge_core/final_worker_cycle.py:168-232 | A cycle returns exactly if the capture is healthy before and after, the heartbeat succeeds, every payload is well formed and no exception escapes; it has then received the commands of the payloads for this reader in order, with one result each, and the record is settled |
| `FinalWorker.FinalRfidWorker.SafeShutdownReader` | bridge_core/management/commands/run_final_rfid_worker.py:319-368 | Ok exactly if the thread ends in time and, with a connection, the reader confirms STOP and the pending frames can be stored; true means that a reader was running, false that none was; no session row changes |
| `StoreEvolution.FinalIsForever` | bridge_core/final_delivery_barrier.py:44-55 | A closed session with everything SENT stays so under anything that any writer may do |
| `StoreEvolution.IngestEvolves` | bridge_core/final_tag_ingestion.py:164-177 | Ingestion only adds rows of a session that is ACTIVE on the reader, and keeps the constraints |
| `StoreEvolution.RowEvolves` | bridge_core/queue_policy.py:4-27 | A queue operation on one row keeps identities and constraints and never takes a terminal state back |

## Left out

- Views, forms, admin, middleware, templates, URLs and migrations: no protocol behaviour; only the uniqueness constraints and enumerations of the models are used.
- HTTP to Odoo: commands, ACK acceptance, heartbeats and the sender's replies are inputs that may fail in any way; how responses are classified is a flat case split.
- Sockets, clocks and operating-system threads: what a socket delivers, timeouts and times are inputs; threads are interleaved steps, atomic between effects.
- SHA-256 and the JSON payload of a raw event: the digest is an arbitrary function, collisions included; the payload text is not stored.
- Database identifiers: events are listed in creation order and identified by position, attempts by their number; each transaction is one atomic step.
- Exception texts that interpolate values are shortened; texts raised from outside are arbitrary strings, and which of them is reported is modelled.
- Text normalisation: keys arrive stripped as `from_payload` leaves them; `Strip` knows space, tab, line feed and carriage return.
- `run_batch_delivery_cycle` and the legacy worker, cached and one-shot reader clients: the same loop or easier variants of what is modelled.
- Frames that follow the START or STOP response in the same batch are not buffered by the code; conservation is stated over the frames that the executor appends.
- The health check between control cycles is part of `RunOnce`; in the transition system it is one of the reasons to leave the loop, and a run may also go on without it, which only adds runs.
- The ACK of a refused or failed command is not recorded: its failure is swallowed by the code and it changes no state.
- Whether a START or STOP frame whose sending raised reached the reader: it is counted as sent.
- Other writers on this reader while the worker is up: besides delivery and the worker itself only other readers' services act; an operator may finish a stale session while the worker is down.
- `StoreEvolution.StoreOk` asks of the initial database, besides its constraints, that existing final rows carry the key of their session and EPC, as every writer of such rows leaves them.
- RuntimeOrchestrator.FinalRuntimeOrchestrator.ProcessCommand: within one call nothing interferes except the capture thread while it is being joined; all other interleavings are in the transition system.
- CaptureService.FinalCaptureService.Stop: a successful join is a join of a thread that has ended; that the join waits is in the transition system.
- Termination of the capture thread and of the join is not claimed: a receive may block for good, which the join timeout answers.
- ReaderTransport.TCPReaderSession.Receive: connection set-up, keep-alive options and the receive size are not part of the model.
