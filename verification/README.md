# picoSD protocol and card model

A Dafny model of the portable core of picoSD: an SD card emulated over SPI whose sectors live in an
image file on a host, reached over USB CDC through a write-through sector cache. The model follows
the C++ code branch by branch; every class of the source whose methods change fields is a class
here, with the same fields, loops over the same buffers, and a contract that equates its new state
with a function of its old one. The theorems are about those functions and about runs of them.

**A. The cache over the session protocol.** `SessionClient`, `OperationCoordinator`, `RetryControl`,
`SectorBufferPool` and `WriteThroughBackend` are the firmware side, `SessionDispatcher` the host side;
`TextLines`, `Codec`, `Numerals`, `BlockResponse` and `Crc` are the text encoding both ends share;
`CodecLaws` and `NumeralLaws` say exactly which texts are accepted and as what, `CrcTheory` and
`CrcLaws` what the checksums are and detect.
`SessionSystem` joins the service (`BackendService`), the SD bridge, the host and a channel in which
a line, once sent, may arrive at any later time, any number of times, in any order, or never.
`Coherence` proves by induction over runs that every Ready buffer equals the host image; the key
invariant is that no Ready slot holds a sector that some write with an id above the host's last one
would still change. `Wire` and `WireReplies` show that the texts the two ends write are read back
whole, so the run theorems are about real lines. `AtMostOnce` is about the ids those lines carry and
`RetriedWrites` about the attempts of one write; `BoundedRetry` and `BoundedTransfer` bound requests
and time; `ServiceInvariant` covers ownership of requests and the service's timers, `LruGuarantee`
replacement. `FaithfulRun` is the other direction: over a channel that delivers, transfers complete.
`PendingWrites` says what a write that was queued is answered from then on. `CheckedTransfers` and
`HostCommands` hold over arbitrary lines, not only those the firmware writes: what is stored carries
its CRC32, and every refusal has its code. `ClientAnswers` says when the client refuses a call or a
line, and `MediumCommands` takes FLUSH and EJECT from request to answer. `RemoteErrors` follows a code through the firmware,
`RecoveredTransfers` a transfer that is asked for again, `RetryTiming` gives the tick of every retry,
and `FailedTransfers` says what a transfer that ends without an answer leaves behind. `BridgeMedia`
shows that the medium the SD side sees is the host's.

**B. The SPI card.** `SdSpiFramers`, `SdCardModel`, `SdRegisters`, `SdCommand` and `SdSpiCardEngine`
are the byte engine, `FixedRingQueue` and `SdSpiTargetWorker` the bounded worker around it.
`ArrayRefinement` compares the engine with a view that reads only the wire: the bytes in, the
releases, and the first byte of each answer. `CardSession` is its accepting half: commands and
blocks sent correctly are taken. `RefusedWrites` follows the blocks that are taken although their
command was refused. `CardInitialisation`, `EngineRuns` and `StreamIntegrity` hold the remaining run
properties. `CommandTable` is every command in every state, with what a stop, a reset and a release
end; `CardAnswers` the registers on the wire and the command CRC, which is checked exactly between
one CMD59 and the next; `DeferredIo` the transfers a backend defers; `WorkerCounters` the worker's
accounting. `WriteThroughCard` puts the card on top of part A.

**C. The copier.** `BlockBackendArbiter` and `BlockMediaCopier`, with every backend call guarded by a
precondition that the last event was a cancellation check answered false. Calls are logged with their
answers, and each result is returned exactly when the log is the one it stands for.

The environment enters as parameters: the clock and the answers of the USB stack are arguments, a
block backend follows a script of outcomes (`BlockDevice`), an observer follows a script of
cancellation answers, and an image file may fail any block operation of a request and leave anything
in the block it was writing (`ImageIo`). SD rules are those of the SD Physical Layer Simplified
Specification (sections 4.5, 5.3 and 7), base64 that of RFC 4648.

## Where the code and its documentation differ

The model follows the code in each case.

- `BlockBackend` promises that callers may retry a pending operation until it completes or fails
  (`shared/protocol/include/picosd/protocol/sd_card_state.hpp:20-22`). Over the CDC bridge neither
  operation keeps this. A read retried before its response arrives always fails
  (`WriteThroughCard.DeferredReadFails`); it completes exactly when its sector is Ready, is deferred
  exactly when a transfer can start, and fails otherwise (`WriteThroughCard.PendingWhen`).
  A retried write completes exactly when its transfer was acknowledged
  (`PendingWrites.QueuedWriteSettles`). Once that transfer has been given up (it failed, or it waits
  for a resume the service never makes) the bridge answers Pending until the connection is lost, and
  refuses every other write (`PendingWrites.StrandedForever`, `PendingWrites.StrandedStep`). Three
  timeouts are enough to get there (`PendingWrites.SilentHostStrandsWrite`), while a host that
  answers completes both operations (`FaithfulRun.FaithfulSession`).
- The SDSC register writes the multipliers 8 and 9 into a three-bit field, so the version 1 capacity
  decodes correctly exactly for requests below 1024 blocks (`SdRegisters.SdscCapacity`).
- Neither CSD nor CID ends in the CRC7 and end bit of sections 5.2 and 5.3
  (`CardAnswers.RegistersCarryNoCrc7`).
- A release does not end a CMD18 sequence (`CommandTable.ReleaseKeepsReading`); CMD12 and CMD0 do.
- The base64 decoder accepts non-zero unused bits in the last group: what comes back on encoding is
  the text with these bits cleared (`CodecLaws.DecodeReencodes`).
- After a single block with a bad CRC16 the card keeps receiving. A following write command is
  answered as illegal, and its data block is still stored, at the earlier address
  (`RefusedWrites.StrayBlockFromPowerUp`). A data block opens exactly after an accepted write
  command or on a card that is receiving already (`RefusedWrites.OpensDataBlockExactly`). A release
  or CMD0 ends this.

## Model

| member | source | states |
|---|---|---|
| `Coherence.CacheCoherent` | shared/protocol/include/picosd/protocol/cdc_write_through_backend.hpp:108-235 | in every run of service, bridge, host and a channel that loses, delays, duplicates and reorders lines, every Ready buffer equals the host image block at its LBA, also after timed-out, retried, cancelled and failed writes |
| `Coherence.StepKeeps` | shared/protocol/include/picosd/protocol/cdc_write_through_backend.hpp:108-235 | every step of firmware, host or channel keeps the system invariant: requests in the channel carry used ids and one message per id, responses are truthful, and no Ready buffer holds a sector some still executable write would change |
| `Coherence.RunKeeps` | shared/protocol/include/picosd/protocol/cdc_write_through_backend.hpp:108-235 | every run of the whole system keeps the system invariant |
| `Coherence.SendsKeeps` | shared/protocol/src/cdc_session_client.cpp:129-136 | putting one more request under the next id into the channel keeps the system invariant |
| `Coherence.CancelledKeeps` | firmware/src/cdc_backend_service.cpp:50-59 | a transfer whose line the USB stack refused may still travel; cancelling it keeps the system invariant |
| `Coherence.DisconnectKeeps` | shared/protocol/include/picosd/protocol/cdc_write_through_backend.hpp:259-265 | dropping the session, with a new dispatcher and an empty channel, keeps the system invariant |
| `Coherence.HandleKeeps` | host/terminal/src/session_dispatcher.cpp:44-110 | the host executing any request ever sent, with any image failure, keeps the system invariant |
| `Coherence.HandledCoherent` | host/terminal/src/session_dispatcher.cpp:89-108 | a write the host executes touches only a sector of which no Ready copy exists |
| `Coherence.CompletedTruth` | shared/protocol/include/picosd/protocol/cdc_write_through_backend.hpp:192-222 | when a response completes the active transfer, the block that becomes Ready is the one the host image holds and no write can still be executed |
| `Coherence.CompleteWriteIsOnHost` | firmware/src/cdc_sd_backend.cpp:42-63 | whenever the bridge reports a write Complete, the host image already holds exactly that block at that LBA, and the call itself changes nothing at the host |
| `Coherence.CompleteReadIsCurrent` | firmware/src/cdc_sd_backend.cpp:32-40 | whenever the bridge reports a read Complete, it returns the block the host image holds now |
| `WriteThroughCard.AcceptedMeansComplete` | shared/protocol/src/sd_model.cpp:187-219 | over the bridge the card answers Accepted exactly when it was receiving, the CRC16 matched and the bridge reported Complete |
| `WriteThroughCard.AcceptedBlockIsOnHost` | shared/protocol/src/sd_model.cpp:187-219 | after any run, an Accepted data response means the host image holds exactly that block at the addressed LBA |
| `WriteThroughCard.DeferredReadFails` | firmware/src/cdc_sd_backend.cpp:32-40 | a read the bridge has deferred cannot be completed by asking again before the response arrives: the second call always fails and sends nothing |
| `WriteThroughCard.ReadCompletesExactly` | firmware/src/cdc_sd_backend.cpp:32-40 | a read over the bridge, first or repeated, completes exactly when its sector is Ready, and is never queued while a transfer is active |
| `WriteThroughCard.PendingWhen` | firmware/src/cdc_sd_backend.cpp:32-40 | the whole answer of a read at a valid address: Complete when the sector is Ready, Pending exactly when it is not but the backend is idle on this medium, has a buffer and a free id, and the line was sent, Failed otherwise |
| `WriteThroughCard.WritePendingWhen` | firmware/src/cdc_sd_backend.cpp:42-63 | the first offer of a block to a writable bridge is Pending under exactly the same condition and otherwise Failed |
| `WriteThroughCard.AnswersInEveryRun` | firmware/src/cdc_sd_backend.cpp:32-63 | both characterisations hold after every run of the whole system |
| `PendingWrites.RepeatedWriteAnswer` | firmware/src/cdc_sd_backend.cpp:42-55 | the whole answer while a write is pending: Failed for another block or sector, a read-only bridge or an invalid address; otherwise Complete exactly when a Ready buffer holds the block and Pending else; nothing is sent |
| `PendingWrites.QueuedWriteSettles` | firmware/src/cdc_sd_backend.cpp:47-62 | after any run of the service and whatever happens until its transfer ends, a queued write asked again is Complete exactly when its transfer was acknowledged and Pending otherwise; after 780 000 ticks it is acknowledged or given up, and given up means stranded |
| `PendingWrites.StrandedStep` | firmware/src/cdc_sd_backend.cpp:47-53 | a stranded write stays stranded through every step of the system exactly unless the step is the loss of the connection |
| `PendingWrites.StrandedForever` | firmware/src/cdc_sd_backend.cpp:47-53 | in every further run that keeps the connection a stranded write is answered Pending with nothing sent, and every other write is answered Failed |
| `PendingWrites.SilentHostStrandsWrite` | firmware/src/cdc_sd_backend.cpp:42-63 | from power-up: connect, queue any write, let the host be silent for 780 ms or more; from then on the write is answered Pending in every run that keeps the connection |
| `FaithfulRun.FaithfulSession` | firmware/src/cdc_sd_backend.cpp:12-63 | from power-up over a channel that delivers: connecting, then any read is queued and completes with the image block, and any write to a writable image is queued and completes with exactly that sector replaced |
| `FaithfulRun.ReadCompletes` | shared/protocol/include/picosd/protocol/cdc_write_through_backend.hpp:108-222 | from any state of the system at rest: start, delivery, answer and its arrival make the sector Ready, and every later read completes with the host block |
| `FaithfulRun.WriteCompletes` | shared/protocol/include/picosd/protocol/cdc_write_through_backend.hpp:146-222 | from any state at rest the same for a write: the repeated call completes and the host image differs in that sector alone |
| `FaithfulRun.Connects` | firmware/src/cdc_backend_service.cpp:89-160 | two exchanges and a media refresh expose exactly the host image and leave the bridge at rest |
| `FaithfulRun.AcceptCompletes` | shared/protocol/include/picosd/protocol/cdc_write_through_backend.hpp:192-222 | an accepted success makes the sector of the transfer Ready and leaves the backend idle |
| `AtMostOnce.HostExecutesOnce` | host/terminal/src/session_dispatcher.cpp:47-63 | over any delivery of any lines, in any order and with any repetition, the ids carried by the lines the dispatcher executes are strictly increasing: no id is executed twice |
| `AtMostOnce.DispatchAdvances` | host/terminal/src/session_dispatcher.cpp:44-65 | a line is executed exactly when it parses, carries an id above every executed one and passes the version or session check; then the id it carries is recorded, and any other line is refused and leaves the host exactly as it was |
| `AtMostOnce.RedeliveryChangesNothing` | host/terminal/src/session_dispatcher.cpp:47-63 | a line that carries an id already executed, in particular the same line delivered again, is refused with an error and changes nothing, after any deliveries |
| `AtMostOnce.ClientLedger` | shared/protocol/src/cdc_session_client.cpp:75-180 | for any calls and any response text: the ids carried by the issued lines, the ids carried by the accepted responses and the cancelled ids are increasing; answered and cancelled ones were issued and are disjoint |
| `AtMostOnce.IdsAreUsedOnce` | shared/protocol/src/cdc_session_client.cpp:129-181 | between resets no two issued lines carry the same id, at most one response carrying an id is accepted, and none carrying a cancelled id |
| `AtMostOnce.StaleResponseIgnored` | shared/protocol/src/cdc_session_client.cpp:138-149 | after any calls, a response carrying an id that was answered, cancelled or never issued is refused and changes nothing in the client |
| `AtMostOnce.AcceptedCarriesPendingId` | shared/protocol/src/cdc_session_client.cpp:138-173 | a response is accepted only if the id on its line is the pending one; any other text changes nothing |
| `AtMostOnce.RequestCarriesId` | shared/protocol/src/cdc_session_client.cpp:84-101 | every request line that parses with its command carries exactly the id it was built with, whatever its fields |
| `RetriedWrites.RetainedWriteIsOneWrite` | shared/protocol/src/cdc_operation_coordinator.cpp:12-103 | a write that start() issued and the coordinator retries: for any responses and any delivery of lines, the host executes at most maximum_retries + 1 of its request lines, none twice, and every delivery of one is the write of that block to that LBA or changes nothing |
| `RetriedWrites.RetainedWriteInEveryRun` | shared/protocol/src/cdc_operation_coordinator.cpp:12-103 | the same for the client of every run of client calls, with nothing assumed about its session |
| `RetriedWrites.EverySessionIsToken` | shared/protocol/src/cdc_session_client.cpp:160-166 | in every run of client calls a negotiated session is named by a non-empty printable word |
| `RetriedWrites.AttemptWrites` | host/terminal/src/session_dispatcher.cpp:89-108 | one delivery of an attempt, to any host and under any image failure, changes nothing or advances the id and writes or tears that sector alone |
| `RetriedWrites.SessionIsToken` | shared/protocol/src/cdc_session_client.cpp:160-166 | whatever a response says, a negotiated session token is one non-empty printable word |
| `BoundedRetry.OperationIsBounded` | shared/protocol/src/cdc_operation_coordinator.cpp:24-103 | whatever responses arrive, an operation on schedule sends at most maximum_retries + 1 requests, all of the same operation in the same session, and once the clock has passed (R + 1) timeouts and all delays it is no longer in progress |
| `BoundedRetry.StartedIsBounded` | shared/protocol/src/cdc_operation_coordinator.cpp:12-103 | the same from every successful start: the bound on requests and on time holds whatever responses arrive |
| `BoundedRetry.ResumedIsBounded` | shared/protocol/src/cdc_operation_coordinator.cpp:105-121 | the same bounds for a parked operation that a resume has issued again |
| `BoundedTransfer.EveryTransferIsBounded` | firmware/src/cdc_backend_service.cpp:128-165 | after any run of the service, a transfer that was begun and sent is followed as long as it is in progress, issues at most three request lines, all for the same operation in the same session, and after 780 000 ticks with a poll each (780 ms) it is no longer in progress, whatever lines arrive and whatever else the SD side asks for |
| `BoundedTransfer.PassesFollow` | firmware/src/cdc_backend_service.cpp:75-165 | over any moments the service keeps its invariant and follows the transfer while it is in progress, and the clock of the transfer is the number of ticks since its start |
| `BoundedTransfer.PollIsTick` | firmware/src/cdc_backend_service.cpp:128-134 | one poll of the connected service during a transfer is exactly one tick of the retry schedule, with the same line sent |
| `BoundedTransfer.ResponseIsArrival` | firmware/src/cdc_backend_service.cpp:161-164 | a line received during a transfer reaches the coordinator exactly when it is a response the backend admits |
| `BoundedTransfer.CallKeepsTimers` | firmware/src/cdc_backend_service.cpp:38-165 | no call of the service changes the timeout, the number of retries or the backoff |
| `BoundedRetry.StartOnSchedule` | shared/protocol/src/cdc_operation_coordinator.cpp:12-40 | a successful start puts the operation on the retry schedule |
| `BoundedRetry.ResumeOnSchedule` | shared/protocol/src/cdc_operation_coordinator.cpp:105-121 | a successful resume puts it on a new schedule counted from the resume |
| `BoundedRetry.TickOnSchedule` | firmware/src/cdc_backend_service.cpp:128-134 | one poll at every tick keeps the operation on schedule: timers fire when due and retries go out when ready |
| `BoundedRetry.ArrivesOnSchedule` | shared/protocol/src/cdc_operation_coordinator.cpp:42-56 | any response, right or wrong, keeps the operation on schedule |
| `BoundedRetry.RouteOnSchedule` | shared/protocol/src/cdc_operation_coordinator.cpp:67-85 | a failure uses up one retry and waits no longer than the schedule allows |
| `RetryControl.BoundedBackoff` | shared/protocol/src/cdc_retry_controller.cpp:13-20 | the doubling loop computes min(maximum, initial * 2^k) with every intermediate value inside 64 bits |
| `RetryControl.BackoffCapped` | shared/protocol/src/cdc_retry_controller.cpp:13-20 | once the cap is reached every later delay is the cap |
| `RetryControl.SaturatingAdd` | shared/protocol/src/cdc_retry_controller.cpp:8-11 | the sum is exact or, when it would not fit, the largest 64-bit value |
| `RetryControl.CdcRetryController.constructor` | shared/protocol/src/cdc_retry_controller.cpp:24-30 | the backoff bounds are put in order: at least one tick, the maximum not below the initial value |
| `RetryControl.CdcRetryController.RecordFailure` | shared/protocol/src/cdc_retry_controller.cpp:32-49 | a retry waits min(initial*2^used, maximum) from now, saturating; exhausted retries and every other advice stop the timer |
| `RetryControl.CdcRetryController.Poll` | shared/protocol/src/cdc_retry_controller.cpp:51-54 | Ready exactly when waiting and due |
| `RetryControl.CdcRetryController.ConsumeRetry` | shared/protocol/src/cdc_retry_controller.cpp:56-61 | a due retry is handed out once |
| `RetryControl.CdcRetryController.RecordSuccess` | shared/protocol/src/cdc_retry_controller.cpp:63-67 | forgets scheduled retries and the timer |
| `ServiceInvariant.EveryRun` | firmware/src/cdc_backend_service.cpp:38-165 | in every run of the service: a request is pending iff exactly one of handshake, media query and coordinator waits for it; AwaitingResponse iff the deadline is armed; an operation is retained iff it may be reissued; transfer, slot and medium agree |
| `ServiceInvariant.QueriesAreTimed` | firmware/src/cdc_backend_service.cpp:89-127 | after any run, while a handshake or media query waits its timer runs from the poll that sent it: connected polls change nothing until 250 ms have passed and then give up the query and the session |
| `ServiceInvariant.RunInv` | firmware/src/cdc_backend_service.cpp:38-165 | every run of the service keeps that invariant |
| `ServiceInvariant.CallInv` | firmware/src/cdc_backend_service.cpp:38-165 | each call of the service, with any clock, any line and any answer of the USB stack, keeps that invariant |
| `ServiceInvariant.PollInv` | firmware/src/cdc_backend_service.cpp:75-135 | one poll keeps it |
| `ServiceInvariant.HandleResponseInv` | firmware/src/cdc_backend_service.cpp:137-165 | one received line keeps it |
| `BackendInvariant.NewBackendInv` | shared/protocol/include/picosd/protocol/cdc_write_through_backend.hpp:76-78 | a new backend satisfies the structural invariant |
| `BackendInvariant.BeginReadFacts` | shared/protocol/include/picosd/protocol/cdc_write_through_backend.hpp:108-135 | a read keeps the structural invariant, makes nothing Ready, and either sends one request under the next id for its sector, of which no Ready copy exists, or leaves no new transfer active |
| `BackendInvariant.BeginPrefetchFacts` | shared/protocol/include/picosd/protocol/cdc_write_through_backend.hpp:142-164 | the same for a prefetch |
| `BackendInvariant.BeginWriteFacts` | shared/protocol/include/picosd/protocol/cdc_write_through_backend.hpp:166-190 | the same for a write: when its line goes out no Ready copy of the sector is left, and the retained operation is exactly this LBA and block |
| `BackendInvariant.AcceptResponseFacts` | shared/protocol/include/picosd/protocol/cdc_write_through_backend.hpp:192-222 | a response either adds no Ready sector or completes exactly the transfer's own slot with its own data |
| `BackendInvariant.CompletedInv` | shared/protocol/include/picosd/protocol/cdc_write_through_backend.hpp:204-215 | completing the transfer always finds its slot, makes it Ready and leaves the backend idle, so the protocol-fault branch is never taken |
| `BackendInvariant.ErrorLineNeverSucceeds` | shared/protocol/include/picosd/protocol/cdc_write_through_backend.hpp:192-201 | a line starting with ERR is never accepted as success, although the read decoder is skipped for it |
| `BackendInvariant.ExpireFacts` | shared/protocol/include/picosd/protocol/cdc_write_through_backend.hpp:224-235 | a timeout keeps the structural invariant and makes nothing Ready |
| `BackendInvariant.IssueRetryFacts` | shared/protocol/include/picosd/protocol/cdc_write_through_backend.hpp:241-246 | a retry keeps the structural invariant and reissues the same transfer under the next id |
| `BackendInvariant.CopyFacts` | shared/protocol/include/picosd/protocol/cdc_write_through_backend.hpp:248-257 | a delivered sector is a Ready sector of the pool, and delivery changes only its age |
| `BackendInvariant.DisconnectFacts` | shared/protocol/include/picosd/protocol/cdc_write_through_backend.hpp:259-265 | disconnecting leaves no session, no operation, no medium and an empty pool |
| `BackendInvariant.InvalidateBackendFacts` | shared/protocol/include/picosd/protocol/cdc_write_through_backend.hpp:267-273 | invalidating keeps the session and gives up the request, the operation, the medium and every slot |
| `BackendInvariant.MediaChangedFacts` | shared/protocol/include/picosd/protocol/cdc_write_through_backend.hpp:279-287 | another medium is a barrier: nothing cached or under way survives it; the same medium changes nothing |
| `BackendInvariant.InvalidateMediaExactly` | shared/protocol/include/picosd/protocol/cdc_write_through_backend.hpp:291-295 | invalidate_media keeps the structural invariant exactly while no transfer is active |
| `LruGuarantee.EveryCallKeeps` | shared/protocol/include/picosd/protocol/cdc_write_through_backend.hpp:80-295 | every public call of the backend keeps the structural invariant, media answers and removal arriving only while no transfer is active and handshake answers only for a handshake |
| `LruGuarantee.ReplacementIsLru` | shared/protocol/include/picosd/protocol/cdc_sector_buffer_pool.hpp:152-173 | after any history, a start that replaces a Ready sector with another finds the other Capacity - 1 slots holding distinct Ready sectors, each reserved or delivered after the replaced sector was last |
| `LruGuarantee.ReadyIsKept` | shared/protocol/include/picosd/protocol/cdc_sector_buffer_pool.hpp:26-150 | a Ready sector stays Ready with its data through every public call except a medium or session barrier, a write to that sector, and a start whose replacement candidate it is |
| `LruGuarantee.TickIsUse` | shared/protocol/include/picosd/protocol/cdc_sector_buffer_pool.hpp:26-107 | the use counter advances exactly when a call reserves a buffer or delivers a sector, as told by the state before the call |
| `LruGuarantee.HistoryKeeps` | shared/protocol/include/picosd/protocol/cdc_write_through_backend.hpp:80-295 | every history of public calls keeps the structural invariant and the order of last uses in the slots |
| `LruGuarantee.InFlightIsKept` | shared/protocol/include/picosd/protocol/cdc_sector_buffer_pool.hpp:152-173 | no slot in flight is ever replaced: a start while one exists changes nothing |
| `LruGuarantee.CandidateIsOldest` | shared/protocol/include/picosd/protocol/cdc_sector_buffer_pool.hpp:152-173 | when the scan picks a Ready slot, every other slot holds a different sector that was used after the picked one |
| `LruGuarantee.CallUses` | shared/protocol/include/picosd/protocol/cdc_sector_buffer_pool.hpp:99-107 | each call marks at most its own sector as most recently used and leaves the order of the others |
| `WireReplies.WriteRoundTrip` | shared/protocol/src/cdc_session_client.cpp:112-119 | begin_write_block's line, dispatched, stores exactly that block at that LBA and nothing else, and the client accepts the answer |
| `WireReplies.ReadRoundTrip` | shared/protocol/src/cdc_block_response.cpp:74-104 | begin_read_block's line, dispatched, comes back as a response that decodes to that LBA and the image's own bytes and that the client accepts |
| `WireReplies.BeginIsMessage` | shared/protocol/src/cdc_session_client.cpp:84-119 | the typed builders never refuse their own line: it parses, with the command they gave |
| `WireReplies.AcceptOfReply` | shared/protocol/src/cdc_session_client.cpp:138-173 | accept_response on the text of a reply depends only on the reply's id, session and kind |
| `WireReplies.DecodeOfReply` | shared/protocol/src/cdc_block_response.cpp:74-104 | the read decoder succeeds exactly on block replies and returns their LBA and data |
| `WireReplies.DecodeOfInfo` | shared/protocol/src/cdc_media_info.cpp:12-30 | the media decoder reads exactly the medium of an information reply and refuses one without blocks |
| `WireReplies.ReplyParses` | host/terminal/src/session_dispatcher.cpp:44-110 | every reply the host writes parses, and each field reads back as it was written |
| `WireReplies.HandleIsValid` | host/terminal/src/session_dispatcher.cpp:44-110 | every answer of the host carries the request's id and is a line the parser accepts |
| `Wire.DispatchOfMessage` | host/terminal/src/session_dispatcher.cpp:44-110 | dispatching the text of a request is the same as handling the request itself, for every host state and every image failure |
| `Wire.MessageParses` | shared/protocol/src/cdc_session_client.cpp:84-119 | every request line parses, and each field reads back as it was written |
| `Wire.MessageTextInjective` | shared/protocol/src/cdc_session_client.cpp:84-119 | no two requests share a line |
| `TextLineTheory.ParseAccepts` | shared/protocol/src/text_line.cpp:52-99 | a line is accepted exactly when its words are valid tokens with distinct keys, one to sixteen of them, and the tokens are its words |
| `TextLineTheory.ParseOfLine` | shared/protocol/src/text_line.cpp:41-99 | parsing a formatted line gives back its command and every one of its fields |
| `TextLines.ParseTextLine` | shared/protocol/src/text_line.cpp:52-99 | the scanning loops return the same tokens or the same first error as the word-by-word definition |
| `TextLines.ScanToken` | shared/protocol/src/text_line.cpp:69-76 | the inner loop stops at the end of the token or at a line terminator |
| `TextLines.ScanKeys` | shared/protocol/src/text_line.cpp:86-93 | the duplicate scan answers whether an earlier field has the key |
| `Numerals.DecimalRoundTrip` | shared/protocol/src/cdc_session_client.cpp:16-19 | to_string followed by the decimal parser returns every 64-bit number, with digits only |
| `Numerals.HexRoundTrip` | host/terminal/src/session_dispatcher.cpp:28-31 | the %08X text of a 32-bit number has eight digits and parses back to it |
| `Codec.RoundTrip` | shared/protocol/src/codec.cpp:9-10 | for every byte string and every capacity at least its length, decoding the encoding succeeds and returns exactly the bytes (section 4 of RFC 4648) |
| `Codec.EncodedLength` | shared/protocol/src/codec.cpp:9 | the encoding has length 4 * ceil(n / 3) |
| `Codec.EncodedCharacters` | shared/protocol/src/codec.cpp:9 | the encoding uses only the alphabet and padding, so it is a valid field value |
| `Codec.EncodeBase64` | shared/protocol/src/codec.cpp:9 | the encoder's loop writes the encoding of the whole input |
| `Codec.DecodeBase64` | shared/protocol/src/codec.cpp:10 | the decoder's loop, for any input, never writes past its capacity, leaves the rest of the buffer alone, and stops at the first bad group or the first group that does not fit |
| `Codec.DecodeGroupInto` | shared/protocol/src/codec.cpp:10 | one group is written whole or not at all |
| `BlockResponse.DecodeReadBlockResponse` | shared/protocol/src/cdc_block_response.cpp:74-104 | the decoder's early returns report the same first error as the specification and otherwise the decoded block |
| `CrcTheory.Crc16IsLinear` | shared/protocol/src/crc.cpp:28-43 | CRC16 is XOR-linear over messages of equal length |
| `CrcTheory.Crc16Residue` | shared/protocol/src/crc.cpp:28-43 | appending the two CRC bytes, high byte first, gives CRC16 zero |
| `CrcTheory.Crc16DetectsBurst` | shared/protocol/src/crc.cpp:28-43 | messages differing only inside two adjacent bytes never share a CRC16 |
| `CrcTheory.Crc32DetectsBurst` | shared/protocol/src/crc.cpp:45-60 | messages differing only inside four adjacent bytes never share a CRC32 |
| `CrcTheory.Crc7OneByte` | shared/protocol/src/crc.cpp:5-22 | messages differing in one byte share a CRC7 exactly when the difference is 0x89, so never when one bit differs |
| `CrcTheory.Crc16ShiftInvertible` | shared/protocol/src/crc.cpp:33-39 | one shift of the CRC16 register loses nothing |
| `CrcTheory.Crc32ShiftInvertible` | shared/protocol/src/crc.cpp:50-56 | one shift of the CRC32 register loses nothing |
| `CrcTheory.Crc7ShiftInvertible` | shared/protocol/src/crc.cpp:10-18 | one shift of the CRC7 register loses nothing |
| `Crc.ComputeCrc7` | shared/protocol/src/crc.cpp:5-22 | the nested loops compute the CRC7 of the message |
| `Crc.ComputeCrc16` | shared/protocol/src/crc.cpp:28-43 | the nested loops compute the CRC16 of the message |
| `Crc.ComputeCrc32` | shared/protocol/src/crc.cpp:45-60 | the nested loops compute the CRC32 of the message |
| `SessionClient.CdcSessionClient.constructor` | shared/protocol/src/cdc_session_client.cpp:182-190 | a new client has id 1 next, nothing pending and no session |
| `SessionClient.CdcSessionClient.BeginHandshake` | shared/protocol/src/cdc_session_client.cpp:75-82 | refuses or reserves the next id for HELLO |
| `SessionClient.CdcSessionClient.BeginRequest` | shared/protocol/src/cdc_session_client.cpp:84-101 | refuses, or reserves the next id for a line that parses back to its command |
| `SessionClient.CdcSessionClient.BeginReadBlock` | shared/protocol/src/cdc_session_client.cpp:107-110 | builds the READ_BLOCKS line of one block |
| `SessionClient.CdcSessionClient.BeginWriteBlock` | shared/protocol/src/cdc_session_client.cpp:112-119 | builds the WRITE_BLOCKS line with the block's CRC32 and base64 text |
| `SessionClient.CdcSessionClient.ReserveRequest` | shared/protocol/src/cdc_session_client.cpp:129-136 | takes one id and moves to the next, or to none after the last |
| `SessionClient.CdcSessionClient.AcceptResponse` | shared/protocol/src/cdc_session_client.cpp:138-173 | settles the request only on a line with its id, and a session only on a matching handshake or session token; every other line changes nothing |
| `SessionClient.CdcSessionClient.CancelPendingRequest` | shared/protocol/src/cdc_session_client.cpp:175-180 | gives up the pending id without reusing it |
| `SessionClient.CdcSessionClient.Reset` | shared/protocol/src/cdc_session_client.cpp:182-190 | forgets the session and restarts the ids |
| `OperationCoordinator.CdcRequestDeadline.Arm` | shared/protocol/src/cdc_request_deadline.cpp:7-14 | arms only with a timeout and a pending request, saturating at the largest time |
| `OperationCoordinator.CdcRequestDeadline.ExpireIfDue` | shared/protocol/src/cdc_request_deadline.cpp:16-26 | a due timer cancels the pending request once |
| `OperationCoordinator.CdcRequestDeadline.Clear` | shared/protocol/src/cdc_request_deadline.cpp:28-31 | disarms |
| `OperationCoordinator.CdcRetainedOperation.Retain` | shared/protocol/src/cdc_retained_operation.cpp:5-31 | keeps the operation with its LBA and data |
| `OperationCoordinator.CdcRetainedOperation.Clear` | shared/protocol/src/cdc_retained_operation.cpp:33-37 | forgets it |
| `OperationCoordinator.CdcRetainedOperation.Issue` | shared/protocol/src/cdc_retained_operation.cpp:39-55 | issues the same operation under whatever id is next |
| `OperationCoordinator.CdcOperationCoordinator.constructor` | shared/protocol/src/cdc_operation_coordinator.cpp:5-10 | idle, nothing retained |
| `OperationCoordinator.CdcOperationCoordinator.Start` | shared/protocol/src/cdc_operation_coordinator.cpp:12-22 | only from Idle and only with an operation |
| `OperationCoordinator.CdcOperationCoordinator.Issue` | shared/protocol/src/cdc_operation_coordinator.cpp:24-40 | waits for the response, or fails and forgets the operation |
| `OperationCoordinator.CdcOperationCoordinator.AcceptResponse` | shared/protocol/src/cdc_operation_coordinator.cpp:42-56 | success, a remote error and any other line lead to the specified state, which RemoteErrors.ErrorDecides gives for every error code |
| `OperationCoordinator.CdcOperationCoordinator.ExpireIfDue` | shared/protocol/src/cdc_operation_coordinator.cpp:58-65 | a timeout counts as a failure of the attempt |
| `OperationCoordinator.CdcOperationCoordinator.RouteFailure` | shared/protocol/src/cdc_operation_coordinator.cpp:67-85 | waits, asks for a session or medium, or fails |
| `OperationCoordinator.CdcOperationCoordinator.Poll` | shared/protocol/src/cdc_operation_coordinator.cpp:87-93 | a due retry becomes ready |
| `OperationCoordinator.CdcOperationCoordinator.IssueRetry` | shared/protocol/src/cdc_operation_coordinator.cpp:95-103 | a ready retry is sent once |
| `OperationCoordinator.CdcOperationCoordinator.ResumeAfterRenegotiation` | shared/protocol/src/cdc_operation_coordinator.cpp:105-112 | restarts the retained operation in a new session |
| `OperationCoordinator.CdcOperationCoordinator.ResumeAfterMediaAvailable` | shared/protocol/src/cdc_operation_coordinator.cpp:114-121 | restarts it with the medium back |
| `OperationCoordinator.CdcOperationCoordinator.Disconnect` | shared/protocol/src/cdc_operation_coordinator.cpp:123-135 | resets the client and keeps the operation only when asked to |
| `OperationCoordinator.CdcOperationCoordinator.Cancel` | shared/protocol/src/cdc_operation_coordinator.cpp:137-143 | forgets everything but the session |
| `SessionFacts.AcceptFacts` | shared/protocol/src/cdc_session_client.cpp:138-173 | accepting changes no ids, settles exactly the pending request, and only a matching line does |
| `SessionFacts.BeginRequestFacts` | shared/protocol/src/cdc_session_client.cpp:84-101 | a builder refuses and changes nothing or reserves exactly the next id |
| `SessionFacts.StartFacts` | shared/protocol/src/cdc_operation_coordinator.cpp:12-40 | start is refused, fails, or sends the operation under the next id with the deadline armed |
| `SessionFacts.IssueRetryFacts` | shared/protocol/src/cdc_operation_coordinator.cpp:95-103 | a retry is the same operation under a fresh id |
| `SessionFacts.CoordinatorAcceptFacts` | shared/protocol/src/cdc_operation_coordinator.cpp:42-56 | the coordinator keeps its invariant and leaves AwaitingResponse only with the request settled |
| `SessionFacts.CoordinatorExpireFacts` | shared/protocol/src/cdc_operation_coordinator.cpp:58-65 | a timeout leaves AwaitingResponse with the request cancelled and the deadline disarmed |
| `SectorBufferPool.CdcSectorBufferPool.Reserve` | shared/protocol/include/picosd/protocol/cdc_sector_buffer_pool.hpp:152-173 | the scan over the slots takes the first free one, else the least recently used Ready one, and only that slot changes |
| `SectorBufferPool.CdcSectorBufferPool.CompleteRead` | shared/protocol/include/picosd/protocol/cdc_sector_buffer_pool.hpp:50-58 | fills the slot only for the transfer it was reserved for |
| `SectorBufferPool.CdcSectorBufferPool.CompleteWrite` | shared/protocol/include/picosd/protocol/cdc_sector_buffer_pool.hpp:60-67 | makes the slot Ready only for the transfer it was reserved for |
| `SectorBufferPool.CdcSectorBufferPool.FindReady` | shared/protocol/include/picosd/protocol/cdc_sector_buffer_pool.hpp:69-78 | finds the first Ready slot of the sector |
| `SectorBufferPool.CdcSectorBufferPool.Contains` | shared/protocol/include/picosd/protocol/cdc_sector_buffer_pool.hpp:80-87 | answers whether any occupied slot holds the sector |
| `SectorBufferPool.CdcSectorBufferPool.InvalidateReady` | shared/protocol/include/picosd/protocol/cdc_sector_buffer_pool.hpp:91-97 | no Ready copy of the sector is left and in-flight slots are untouched |
| `SectorBufferPool.CdcSectorBufferPool.CopyReady` | shared/protocol/include/picosd/protocol/cdc_sector_buffer_pool.hpp:99-107 | delivers the Ready data and makes the slot the most recently used |
| `SectorBufferPool.CdcSectorBufferPool.Release` | shared/protocol/include/picosd/protocol/cdc_sector_buffer_pool.hpp:121-127 | frees one occupied slot |
| `SectorBufferPool.CdcSectorBufferPool.Clear` | shared/protocol/include/picosd/protocol/cdc_sector_buffer_pool.hpp:137-140 | frees every slot |
| `WriteThroughBackend.CdcWriteThroughBackend.constructor` | shared/protocol/include/picosd/protocol/cdc_write_through_backend.hpp:76-78 | a new backend |
| `WriteThroughBackend.CdcWriteThroughBackend.BeginGetInfo` | shared/protocol/include/picosd/protocol/cdc_write_through_backend.hpp:88-91 | only while no transfer is active |
| `WriteThroughBackend.CdcWriteThroughBackend.AcceptGetInfo` | shared/protocol/include/picosd/protocol/cdc_write_through_backend.hpp:93-106 | the medium changes only with an accepted, well-formed answer |
| `WriteThroughBackend.CdcWriteThroughBackend.BeginRead` | shared/protocol/include/picosd/protocol/cdc_write_through_backend.hpp:108-135 | in place, what BackendInvariant.BeginReadFacts is proved of |
| `WriteThroughBackend.CdcWriteThroughBackend.BeginPrefetch` | shared/protocol/include/picosd/protocol/cdc_write_through_backend.hpp:142-156 | in place, what BeginPrefetchFacts is proved of |
| `WriteThroughBackend.CdcWriteThroughBackend.BeginSequentialPrefetch` | shared/protocol/include/picosd/protocol/cdc_write_through_backend.hpp:158-164 | refuses to run past the last LBA |
| `WriteThroughBackend.CdcWriteThroughBackend.BeginWrite` | shared/protocol/include/picosd/protocol/cdc_write_through_backend.hpp:166-190 | in place, what BeginWriteFacts is proved of |
| `WriteThroughBackend.CdcWriteThroughBackend.AcceptResponse` | shared/protocol/include/picosd/protocol/cdc_write_through_backend.hpp:192-222 | in place, what AcceptResponseFacts is proved of |
| `WriteThroughBackend.CdcWriteThroughBackend.ExpireIfDue` | shared/protocol/include/picosd/protocol/cdc_write_through_backend.hpp:224-235 | in place, what ExpireFacts is proved of |
| `WriteThroughBackend.CdcWriteThroughBackend.Poll` | shared/protocol/include/picosd/protocol/cdc_write_through_backend.hpp:237-239 | the coordinator's poll |
| `WriteThroughBackend.CdcWriteThroughBackend.IssueRetry` | shared/protocol/include/picosd/protocol/cdc_write_through_backend.hpp:241-246 | in place, what IssueRetryFacts is proved of |
| `WriteThroughBackend.CdcWriteThroughBackend.CopyReady` | shared/protocol/include/picosd/protocol/cdc_write_through_backend.hpp:248-257 | in place, what CopyFacts is proved of |
| `WriteThroughBackend.CdcWriteThroughBackend.Disconnect` | shared/protocol/include/picosd/protocol/cdc_write_through_backend.hpp:259-265 | empties pool, client and medium |
| `WriteThroughBackend.CdcWriteThroughBackend.Invalidate` | shared/protocol/include/picosd/protocol/cdc_write_through_backend.hpp:267-273 | empties pool and medium, keeps the session |
| `WriteThroughBackend.CdcWriteThroughBackend.MediaChanged` | shared/protocol/include/picosd/protocol/cdc_write_through_backend.hpp:279-287 | a barrier unless the medium is the same |
| `WriteThroughBackend.CdcWriteThroughBackend.InvalidateMedia` | shared/protocol/include/picosd/protocol/cdc_write_through_backend.hpp:291-295 | empties pool and medium |
| `WriteThroughBackend.CdcWriteThroughBackend.SelectGeneration` | shared/protocol/include/picosd/protocol/cdc_write_through_backend.hpp:331-338 | the first transfer selects the medium, later ones must agree |
| `WriteThroughBackend.CdcWriteThroughBackend.AbandonTransfer` | shared/protocol/include/picosd/protocol/cdc_write_through_backend.hpp:383-387 | frees the transfer's slot |
| `SessionDispatcher.SessionDispatcher.constructor` | host/terminal/src/session_dispatcher.cpp:39-42 | no session, nothing ejected, no id seen |
| `SessionDispatcher.SessionDispatcher.Dispatch` | host/terminal/src/session_dispatcher.cpp:44-64 | every line is answered; only an accepted one changes the host |
| `SessionDispatcher.SessionDispatcher.Execute` | host/terminal/src/session_dispatcher.cpp:65-109 | GET_INFO, FLUSH, EJECT, reads and writes of an accepted request |
| `SessionDispatcher.SessionDispatcher.ReadBlocks` | host/terminal/src/session_dispatcher.cpp:73-88 | the blocks of the range, their CRC32 and base64 text, or the first error |
| `SessionDispatcher.SessionDispatcher.WriteBlocks` | host/terminal/src/session_dispatcher.cpp:89-108 | the in-place write, of which CheckedTransfers.EveryWriteIsChecked and HostCommands.FailedWith are proved |
| `SessionDispatcher.SessionDispatcher.LoadBlocks` | host/terminal/src/session_dispatcher.cpp:80-84 | the read loop returns the blocks of the range in order or stops at the first failure |
| `SessionDispatcher.SessionDispatcher.StoreBlocks` | host/terminal/src/session_dispatcher.cpp:102-106 | the write loop stores a prefix of the blocks, all of them on success |
| `BackendService.CdcBackendService.BeginRead` | firmware/src/cdc_backend_service.cpp:38-48 | sends the read's line or cancels it; a coalesced read sends nothing |
| `BackendService.CdcBackendService.BeginWrite` | firmware/src/cdc_backend_service.cpp:50-59 | sends the write's line or cancels it |
| `BackendService.CdcBackendService.CopyReady` | firmware/src/cdc_backend_service.cpp:61-64 | delivers a cached sector |
| `BackendService.CdcBackendService.Poll` | firmware/src/cdc_backend_service.cpp:75-135 | handshake, media query, their timeout, and the transfer's timers, one of them per poll |
| `BackendService.CdcBackendService.HandleResponse` | firmware/src/cdc_backend_service.cpp:137-165 | gives each line to its one owner |
| `BackendService.CdcSdBackend.RefreshMedia` | firmware/src/cdc_sd_backend.cpp:11-21 | takes over the medium and forgets a pending write of another one |
| `BackendService.CdcSdBackend.Read` | firmware/src/cdc_sd_backend.cpp:32-40 | a cached block, a queued read, or a failure |
| `BackendService.CdcSdBackend.Write` | firmware/src/cdc_sd_backend.cpp:42-63 | Complete only for a pending write whose acknowledged copy is in the cache |
| `ArrayRefinement.EngineIsArray` | shared/protocol/src/sd_spi_card_engine.cpp:9-109 | from power-up over any synchronous backend, for every byte stream, every placement of releases, polls and block requests: storage is the array a view of the wire keeps (the k-th matching block of a write command answered R1=0 goes to its LBA plus k), every such LBA is exposed, every data block sent is the current one, and the card never faults |
| `ArrayRefinement.StepRefines` | shared/protocol/src/sd_spi_card_engine.cpp:9-109 | one event keeps engine and view in step, and the answer is the one the view expects |
| `ArrayRefinement.BlockRefines` | shared/protocol/src/sd_model.cpp:187-219 | a framed block is stored and answered Accepted and busy exactly when its CRC16 matches and a place is open for it; otherwise the answer is the CRC error and storage is unchanged |
| `ArrayRefinement.FramerFollows` | shared/protocol/src/sd_spi_data_framer.cpp:13-53 | the framer delivers exactly the 512 bytes and the CRC that followed the token, whatever the bytes are |
| `ArrayRefinement.ExecuteIs` | shared/protocol/src/sd_model.cpp:39-141 | a read answered R1=0 carries the current block of its exposed LBA, a write answered R1=0 opens that LBA, every other command leaves storage and places as the view says |
| `ArrayRefinement.FrameRefines` | shared/protocol/src/sd_spi_card_engine.cpp:37-63 | a whole command frame, executed or refused, keeps engine and view in step |
| `ArrayRefinement.NextBlockRefines` | shared/protocol/src/sd_model.cpp:164-171 | a multi-block read sends the next current block until the exposed end |
| `ArrayRefinement.StartRefines` | shared/protocol/src/sd_model.cpp:6-9 | at power-up engine and view agree |
| `CardSession.Initialises` | shared/protocol/src/sd_model.cpp:43-82 | CMD0, CMD55 and CMD41 bring an engine at rest into service from any state, with answers 0x01, 0x01, 0x00 and no backend access |
| `CardSession.WriteThenRead` | shared/protocol/src/sd_spi_card_engine.cpp:9-64 | an initialised card accepts a write command to an exposed LBA and a block framed with its own CRC16, and the following read sends that block back; no other block changes |
| `CardSession.FrameIsCommand` | shared/protocol/src/sd_spi_command_framer.cpp:5-21 | every six-bit index and argument has a frame that decodes to it |
| `RefusedWrites.StrayBlockFromPowerUp` | shared/protocol/src/sd_model.cpp:187-219 | from power-up, for all addresses and blocks: after a block with a wrong CRC16 the next write command is refused, and its block is accepted and stored at the address of the command before |
| `RefusedWrites.BlockGoesAstray` | shared/protocol/src/sd_model.cpp:187-219 | the same from any initialised engine at rest |
| `RefusedWrites.RefusedBlockLands` | shared/protocol/src/sd_spi_card_engine.cpp:57-62 | on a receiving card a write command to any address is answered as illegal and its framed block is accepted and stored at the earlier address |
| `RefusedWrites.OpensDataBlockExactly` | shared/protocol/src/sd_spi_card_engine.cpp:57-62 | a write command opens a data block exactly when it was answered with a clear R1 or the card was already receiving; the answer tells whether a block is expected exactly when the card was not receiving before |
| `RefusedWrites.RefusedWriteReceives` | shared/protocol/src/sd_spi_card_engine.cpp:57-62 | a receiving card answers the next write command as illegal, keeps its address and opens a data block |
| `RefusedWrites.BadBlockKeepsReceiving` | shared/protocol/src/sd_model.cpp:189-193 | a block with a wrong CRC16 is refused and the card keeps receiving for the same address |
| `CardSession.SendBlock` | shared/protocol/src/sd_spi_data_framer.cpp:13-53 | a framed block after a single-block write command reaches the card as it was framed |
| `CardSession.SendFrame` | shared/protocol/src/sd_spi_command_framer.cpp:5-21 | six bytes after a start byte are one command, and only the sixth is answered |
| `CardInitialisation.NoAccessBeforeInitialisation` | shared/protocol/src/sd_model.cpp:39-171 | for every backend and every sequence of calls, each backend access follows, since the last CMD0, a CMD55 and then an accepted CMD41, deferred and multi-block transfers included |
| `CardInitialisation.StepKnows` | shared/protocol/src/sd_card_state.cpp:23-68 | the card's states and flags never run ahead of what was initialised |
| `EngineRuns.NoEngineAccessBeforeInitialisation` | shared/protocol/src/sd_spi_card_engine.cpp:9-109 | the same for every byte stream of the engine, which uses the card only through those calls |
| `EngineRuns.ReleaseIsCleanCut` | shared/protocol/src/sd_spi_card_engine.cpp:101-109 | two engines with equal cards and backends, each just released, give the same outputs and the same effects on every later run, whatever they had received before |
| `EngineRuns.CutBlockIsDropped` | shared/protocol/src/sd_spi_data_framer.cpp:35-59 | a data block cut by a release before its last CRC byte leaves no trace in the backend |
| `StreamIntegrity.WorkerStreams` | shared/protocol/include/picosd/protocol/sd_spi_target_worker.hpp:27-106 | between releases the bytes sent are a prefix of the whole outputs queued, in order; the engine is fed a prefix of the captured bytes; over a run enqueued = transmitted + pending + discarded; the outputs offered are the engine's |
| `StreamIntegrity.DoIntact` | shared/protocol/include/picosd/protocol/sd_spi_target_worker.hpp:27-82 | each call of the worker keeps both streams intact and offers exactly the engine's outputs |
| `StreamIntegrity.OutputFits` | shared/protocol/include/picosd/protocol/sd_spi_card_engine.hpp:13-19 | no output is longer than the fixed output buffer |
| `StreamIntegrity.RefillIsKept` | shared/protocol/include/picosd/protocol/sd_spi_target_worker.hpp:52-70 | a transmit queue with room for one output never drops the refill of a multi-block read |
| `FixedRingQueue.FixedRingQueue.constructor` | shared/protocol/include/picosd/protocol/fixed_ring_queue.hpp:58-61 | empty |
| `FixedRingQueue.FixedRingQueue.TryPush` | shared/protocol/include/picosd/protocol/fixed_ring_queue.hpp:22-28 | appends one value unless full, through the wrap-around |
| `FixedRingQueue.FixedRingQueue.TryPop` | shared/protocol/include/picosd/protocol/fixed_ring_queue.hpp:38-44 | removes the oldest value unless empty |
| `FixedRingQueue.FixedRingQueue.Clear` | shared/protocol/include/picosd/protocol/fixed_ring_queue.hpp:46-50 | empties the queue |
| `SdSpiTargetWorker.SdSpiTargetWorker.constructor` | shared/protocol/include/picosd/protocol/sd_spi_target_worker.hpp:25 | empty queues |
| `SdSpiTargetWorker.SdSpiTargetWorker.CaptureByte` | shared/protocol/include/picosd/protocol/sd_spi_target_worker.hpp:27-34 | queues the byte or counts an overflow |
| `SdSpiTargetWorker.SdSpiTargetWorker.EnqueueOutput` | shared/protocol/include/picosd/protocol/sd_spi_target_worker.hpp:95-106 | an output is queued whole or dropped whole |
| `SdSpiTargetWorker.SdSpiTargetWorker.ProcessBytes` | shared/protocol/include/picosd/protocol/sd_spi_target_worker.hpp:38-44 | at most max_bytes captured bytes reach the engine, in order |
| `SdSpiTargetWorker.SdSpiTargetWorker.Process` | shared/protocol/include/picosd/protocol/sd_spi_target_worker.hpp:38-50 | then deferred I/O is polled only with nothing left to send |
| `SdSpiTargetWorker.SdSpiTargetWorker.DequeueTransmitByte` | shared/protocol/include/picosd/protocol/sd_spi_target_worker.hpp:52-65 | sends the oldest byte and refills only when the last one has left |
| `SdSpiTargetWorker.SdSpiTargetWorker.QueueNextMultiReadBlock` | shared/protocol/include/picosd/protocol/sd_spi_target_worker.hpp:67-70 | offers the next block of a multi-block read |
| `SdSpiTargetWorker.SdSpiTargetWorker.ChipSelectReleased` | shared/protocol/include/picosd/protocol/sd_spi_target_worker.hpp:72-76 | empties both queues and releases the engine |
| `SdSpiTargetWorker.SdSpiTargetWorker.TransactionTimedOut` | shared/protocol/include/picosd/protocol/sd_spi_target_worker.hpp:79-82 | counts and releases |
| `SdSpiCardEngine.SdSpiCardEngine.constructor` | shared/protocol/src/sd_spi_card_engine.cpp:7 | nothing received, nothing pending |
| `SdSpiCardEngine.SdSpiCardEngine.PushByte` | shared/protocol/src/sd_spi_card_engine.cpp:9-64 | a byte goes to the data framer while it receives, else to the command framer |
| `SdSpiCardEngine.SdSpiCardEngine.PushDataByte` | shared/protocol/src/sd_spi_card_engine.cpp:10-35 | events of the data framer reach the card |
| `SdSpiCardEngine.SdSpiCardEngine.ExecuteCommand` | shared/protocol/src/sd_spi_card_engine.cpp:42-63 | the response, the block or register after it, and a data block opened only while the card receives |
| `SdSpiCardEngine.SdSpiCardEngine.PollPendingIo` | shared/protocol/src/sd_spi_card_engine.cpp:66-89 | retries a deferred read before a deferred write; DeferredIo proves what each poll answers |
| `SdSpiCardEngine.SdSpiCardEngine.NextMultiReadBlock` | shared/protocol/src/sd_spi_card_engine.cpp:91-99 | the next framed block, if any |
| `SdSpiCardEngine.SdSpiCardEngine.ChipSelectReleased` | shared/protocol/src/sd_spi_card_engine.cpp:101-109 | forgets partial frames and deferred work |
| `SdSpiCardEngine.SdSpiCardEngine.AppendRegisterData` | shared/protocol/src/sd_spi_card_engine.cpp:123-131 | a register is framed like a block |
| `SdSpiFramers.SdSpiDataFramer.Begin` | shared/protocol/src/sd_spi_data_framer.cpp:7-11 | waits for the token of its mode |
| `SdSpiFramers.SdSpiDataFramer.PushByte` | shared/protocol/src/sd_spi_data_framer.cpp:13-53 | token, payload and CRC in the fixed buffer, one event at the end |
| `SdSpiFramers.SdSpiDataFramer.Reset` | shared/protocol/src/sd_spi_data_framer.cpp:55-59 | forgets the block in progress |
| `SdSpiFramers.SdSpiCommandFramer.PushByte` | shared/protocol/src/sd_spi_command_framer.cpp:5-21 | collects six bytes after a start byte and decodes them |
| `SdSpiFramers.SdSpiCommandFramer.Reset` | shared/protocol/src/sd_spi_command_framer.cpp:23 | forgets the frame in progress |
| `SdCardModel.SdCardModel.constructor` | shared/protocol/src/sd_model.cpp:6-9 | powered up, registers for the backend's capacity |
| `SdCardModel.SdCardModel.RefreshCapacity` | shared/protocol/src/sd_model.cpp:20-22 | new registers for the backend's present capacity |
| `SdCardModel.SdCardModel.CommandLba` | shared/protocol/src/sd_model.cpp:28-37 | the addressed block if it is aligned and exposed |
| `SdCardModel.SdCardModel.Execute` | shared/protocol/src/sd_model.cpp:39-141 | the commands in the order the source tests them |
| `SdCardModel.SdCardModel.ExecuteTransfer` | shared/protocol/src/sd_model.cpp:112-138 | reads and writes of an open card |
| `SdCardModel.SdCardModel.RetryPendingRead` | shared/protocol/src/sd_model.cpp:147-162 | completes, keeps or faults a deferred read |
| `SdCardModel.SdCardModel.ReadNextMultiBlock` | shared/protocol/src/sd_model.cpp:164-171 | one more block below the exposed end |
| `SdCardModel.SdCardModel.FinishMultiWrite` | shared/protocol/src/sd_model.cpp:173-178 | the stop token ends a multi-block write |
| `SdCardModel.SdCardModel.AbortPendingWrite` | shared/protocol/src/sd_model.cpp:180-185 | release ends receiving and deferred reads |
| `SdCardModel.SdCardModel.WriteBlock` | shared/protocol/src/sd_model.cpp:187-219 | only a matching block while receiving reaches the backend |
| `SdCardModel.SdCardModel.FinishWrite` | shared/protocol/src/sd_model.cpp:192-218 | the backend's answer decides response, state and the next address |
| `SdCardModel.SdCardStateMachine.Take` | shared/protocol/src/sd_card_state.cpp:23-72 | a transition happens exactly from its allowed states |
| `SdCommand.DecodeSdCommand` | shared/protocol/src/sd_command.cpp:17-43 | start bits, end bit and CRC7 are checked in that order and the fields are taken from their bytes |
| `SdCommand.MakeReadDataBlock` | shared/protocol/src/sd_command.cpp:80-88 | token, payload, CRC16 high byte first |
| `SdCommand.WordResponseEchoes` | shared/protocol/src/sd_command.cpp:8-13 | the big-endian word of R7 is the argument bytes of the command it answers |
| `SdRegisters.SdhcRoundTrip` | shared/protocol/src/sd_registers.cpp:15-32 | for every 32-bit request an SDHC card exposes the largest multiple of 1024 not above it, and the physical-card driver reads exactly that back from the packed CSD, when it is not zero |
| `SdRegisters.SdscCapacity` | shared/protocol/src/sd_registers.cpp:33-46 | an SDSC card exposes the largest multiple of the largest unit that fits; the CSD round trip holds exactly for requests below 1024 blocks, because multipliers 8 and 9 do not fit their field |
| `SdRegisters.SdscTooSmallOrLarge` | shared/protocol/src/sd_registers.cpp:33-46 | an SDSC card exposes nothing exactly below 16 and from 4097 * 2048 blocks on |
| `SdRegisters.ExposesAtMostRequest` | shared/protocol/src/sd_registers.cpp:15-48 | no card exposes blocks the backend does not have |
| `SdRegisters.SetBitsAt` | shared/protocol/src/sd_registers.cpp:5-12 | set_bits changes exactly the bits of its field, each to the OR with the number's bit |
| `SdRegisters.FieldOfSetBits` | shared/protocol/src/sd_registers.cpp:5-12 | a field written onto zero bits reads back as the number, cut to the width of the field |
| `SdRegisters.DriverReadsField` | firmware/src/physical_sd_backend.cpp:161-170 | the driver's masks and shifts read bits 48 to 69 |
| `SdRegisters.SetBitsInPlace` | shared/protocol/src/sd_registers.cpp:5-12 | the loop sets the bits of the field in the byte array |
| `SdRegisters.MakeSdRegisters` | shared/protocol/src/sd_registers.cpp:15-48 | the register sets of both card types, by the same capacity search |
| `BlockBackendArbiter.BlockBackendArbiter.constructor` | shared/protocol/src/block_backend_arbiter.cpp:5 | nobody owns the backend |
| `BlockBackendArbiter.BlockBackendArbiter.Transition` | shared/protocol/src/block_backend_arbiter.cpp:11-13 | compare and exchange |
| `BlockBackendArbiter.BlockBackendArbiter.ExposeToClient` | shared/protocol/src/block_backend_arbiter.cpp:15-17 | from nobody only |
| `BlockBackendArbiter.BlockBackendArbiter.HideFromClient` | shared/protocol/src/block_backend_arbiter.cpp:19-21 | from the client only |
| `BlockBackendArbiter.BlockBackendArbiter.BeginHostCopy` | shared/protocol/src/block_backend_arbiter.cpp:23-25 | from nobody only |
| `BlockBackendArbiter.BlockBackendArbiter.EndHostCopy` | shared/protocol/src/block_backend_arbiter.cpp:27-29 | from the copy only |
| `BlockBackendArbiter.BlockBackendArbiter.Read` | shared/protocol/src/block_backend_arbiter.cpp:47-50 | reaches the backend only for the owner, else fails without touching it |
| `BlockBackendArbiter.BlockBackendArbiter.Write` | shared/protocol/src/block_backend_arbiter.cpp:52-55 | reaches the backend only for the owner, else fails without touching it |
| `BlockBackendArbiter.BlockBackendArbiter.Flush` | shared/protocol/src/block_backend_arbiter.cpp:43-45 | reaches the backend only for the owner, else fails without touching it |
| `BlockMediaCopier.CopyBlockMedia` | shared/protocol/src/block_media_copier.cpp:63-163 | every result leaves the destination equal to the source on some prefix and unchanged after it; the log of calls with their answers is exactly the one the result stands for: Complete means all blocks read and written, then a flush answered Complete, and with verify all of them read back and equal; every failure names the call that failed; nothing follows a check answered true; the reports of a complete copy are exact and progress is never overstated |
| `BlockMediaCopier.LogDecides` | shared/protocol/src/block_media_copier.cpp:63-163 | the log of checks and calls with their answers determines the result, so each result is returned exactly when its log is the one observed |
| `BlockMediaCopier.Preflight` | shared/protocol/src/block_media_copier.cpp:65-94 | the queries in order with a check around each, and what each refusal means |
| `BlockMediaCopier.CheckMedia` | shared/protocol/src/block_media_copier.cpp:71-85 | presence and protection, asked in order |
| `BlockMediaCopier.CheckSizes` | shared/protocol/src/block_media_copier.cpp:87-94 | the sizes, asked in order |
| `BlockMediaCopier.CopySector` | shared/protocol/src/block_media_copier.cpp:98-117 | one sector is read and written with a check after each call, or the call that failed is the last of the log |
| `BlockMediaCopier.CopySectors` | shared/protocol/src/block_media_copier.cpp:96-118 | the loop keeps the prefix, and its log is every block read and written in order up to where it stopped |
| `BlockMediaCopier.CopyAndFinish` | shared/protocol/src/block_media_copier.cpp:96-162 | copying, then flushing and verifying, with the log and the reports of each result |
| `BlockMediaCopier.VerifySector` | shared/protocol/src/block_media_copier.cpp:140-156 | passes exactly blocks that were both read back with Complete and are equal |
| `BlockMediaCopier.VerifySectors` | shared/protocol/src/block_media_copier.cpp:136-161 | after a full copy verification never fails, and its log is every block of both sides read back in order |
| `BlockMediaCopier.FlushAndVerify` | shared/protocol/src/block_media_copier.cpp:120-162 | flush and verification change nothing at the destination; Complete means the flush was answered Complete, FlushFailed exactly that it was not and no later check cancelled |
| `BlockMediaCopier.CopyToExclusiveBackend` | shared/protocol/src/block_media_copier.cpp:165-182 | ownership is left as found on every path, the copy runs only when it was free, and all guarantees of the copy hold |
| `BlockMediaCopier.CopyFromExclusiveBackend` | shared/protocol/src/block_media_copier.cpp:184-198 | the same for a copy from the arbitered backend |
| `BlockMediaCopier.AskedNext` | shared/protocol/src/block_media_copier.cpp:50-52 | a check answered false allows the next backend call, one answered true ends the run |
| `BlockMediaCopier.CalledNext` | shared/protocol/src/block_media_copier.cpp:85-91 | an allowed call keeps the order of checks and calls |
| `BlockMediaCopier.Medium.Read` | shared/protocol/src/block_media_copier.cpp:22-24 | the host-copy entry point is the backend itself while the copy owns it |
| `BlockMediaCopier.Medium.Write` | shared/protocol/src/block_media_copier.cpp:25-27 | the same for writes |
| `CheckedTransfers.EveryWriteIsChecked` | host/terminal/src/session_dispatcher.cpp:89-108 | over any host, line and image file: a line that changes the image, or is a write answered by anything but an error, was an admitted write whose crc32 field is the CRC32 of the count*512 bytes its data field stands for; exactly the sectors it names change, to those bytes or, where the image file failed, to a torn block |
| `CheckedTransfers.GoodWriteIsStored` | host/terminal/src/session_dispatcher.cpp:89-108 | conversely an admitted write that carries its bytes and their CRC32 stores them |
| `CheckedTransfers.WrongChecksumIsRefused` | host/terminal/src/session_dispatcher.cpp:100-101 | an admitted write with any other number in its crc32 field is answered BAD_CRC and changes nothing |
| `CheckedTransfers.DamagedWriteIsRefused` | host/terminal/src/session_dispatcher.cpp:100-101 | a write line whose data was damaged within four adjacent bytes changes nothing in the image and is answered by an error, whatever else it says |
| `CheckedTransfers.EveryReadIsWhole` | host/terminal/src/session_dispatcher.cpp:73-88 | a read answered without an error names up to 16 sectors of the image and its answer carries exactly their bytes and their CRC32 |
| `CheckedTransfers.DecodedBlockIsChecked` | shared/protocol/src/cdc_block_response.cpp:88-103 | a decoded block is always the one the crc32 field of its line names |
| `CheckedTransfers.DamagedReadIsRefused` | shared/protocol/src/cdc_block_response.cpp:100-102 | a read answer damaged within four adjacent bytes of data is refused, and a backend reading that sector stays exactly as it was |
| `HostCommands.RefusedWith` | host/terminal/src/session_dispatcher.cpp:44-62 | whatever the line: the first check of identification, version and session that fails names the error code of the answer, and nothing changes |
| `HostCommands.PassedIsAdmitted` | host/terminal/src/session_dispatcher.cpp:44-63 | the lines that fail no check of admission are exactly the admitted ones |
| `HostCommands.HelloAnswer` | host/terminal/src/session_dispatcher.cpp:51-57 | a handshake that passes them is answered with version and session, and establishes the session under its id |
| `HostCommands.FailedWith` | host/terminal/src/session_dispatcher.cpp:65-109 | an admitted request is answered with the code of the first check of medium, command, access, fields, range, data, checksum or image file that fails; only a torn write changes the image |
| `HostCommands.PassedIsAnswered` | host/terminal/src/session_dispatcher.cpp:65-109 | an admitted request that passes every check is not refused |
| `HostCommands.EjectedForever` | host/terminal/src/session_dispatcher.cpp:65-72 | once ejected the host stays ejected and its image as it is in every run, a new handshake included |
| `HostCommands.EjectedAnswer` | host/terminal/src/session_dispatcher.cpp:65 | from then on every admitted request but EJECT is answered NO_MEDIA |
| `HostCommands.DeliveryEjects` | host/terminal/src/session_dispatcher.cpp:68-72 | a line ejects the medium exactly if it is an admitted EJECT whose image file could be flushed |
| `RemoteErrors.ErrorDecides` | shared/protocol/src/cdc_operation_coordinator.cpp:42-85 | an ERR line with the pending id and a code settles the request, and the code text decides: IO_ERROR waits min(initial*2^k, maximum) for the next retry while one is left and fails otherwise; STALE_ID, HANDSHAKE_REQUIRED, MISSING_SESSION and BAD_SESSION ask for a new session; NO_MEDIA waits for a medium; every other code fails |
| `RemoteErrors.ErrorEndsTransfer` | shared/protocol/include/picosd/protocol/cdc_write_through_backend.hpp:192-222 | for a read or a write in progress an error line reaches the coordinator, and a transfer that fails gives its buffer back |
| `RemoteErrors.ErrorReachesTransfer` | firmware/src/cdc_backend_service.cpp:161-164 | at the service the error line is its own and the transfer goes the way the code says |
| `RemoteErrors.CodesDecode` | shared/protocol/src/cdc_session_client.cpp:25-43 | each of the sixteen codes decodes to its error, and every other text to an unknown one |
| `RemoteErrors.CodeDecodes` | shared/protocol/src/cdc_session_client.cpp:25-43 | decoding inverts the codes of the errors |
| `RecoveredTransfers.WriteRecovers` | shared/protocol/src/cdc_operation_coordinator.cpp:42-103 | a run: the host fails a write once with IO_ERROR, the retry goes out when it is due, and the second answer completes the write, which is then on the image |
| `RecoveredTransfers.FailedAttempt` | shared/protocol/src/cdc_operation_coordinator.cpp:51-54 | the host fails the request and the firmware waits for its next attempt |
| `RecoveredTransfers.RetryGoesOut` | firmware/src/cdc_backend_service.cpp:128-134 | a poll that finds the retry due sends the same operation again under the next id |
| `RecoveredTransfers.ParkedOperationResumes` | shared/protocol/src/cdc_operation_coordinator.cpp:105-121 | a parked read or write goes out again, unchanged, under an id of the present session, with all its retries and a new deadline |
| `RecoveredTransfers.RetainedOperationResumes` | shared/protocol/src/cdc_operation_coordinator.cpp:123-135 | an operation retained over a disconnect goes out again in the next session; one cancelled with the session is gone |
| `RetryTiming.RetriesAreSpaced` | shared/protocol/src/cdc_retry_controller.cpp:13-49 | in every run of an operation, whatever arrives, the k-th retry goes out exactly min(initial*2^k, maximum) ticks after the failure before it, and never before |
| `RetryTiming.SilentHostIsRetriedOnTime` | shared/protocol/src/cdc_operation_coordinator.cpp:58-103 | with a silent host the k-th reissue goes out exactly k timeouts and the first k values of min(initial*2^j, maximum) after the start, and all attempts that are due have gone out |
| `FailedTransfers.UnsentReadIsGivenUp` | firmware/src/cdc_backend_service.cpp:38-48 | a read whose line the USB stack refuses leaves no transfer, no buffer in flight and no pending request, and the next one can start |
| `FailedTransfers.UnsentWriteIsGivenUp` | firmware/src/cdc_backend_service.cpp:50-59 | the same for a write |
| `FailedTransfers.FailureFreesBuffer` | shared/protocol/include/picosd/protocol/cdc_write_through_backend.hpp:224-235 | a transfer that has failed, by its last timeout or before, is given up by the next look at its timer, with its buffer |
| `FailedTransfers.FailedPollRests` | firmware/src/cdc_backend_service.cpp:128-134 | at the service a failed transfer lasts no longer than the next poll |
| `FailedTransfers.GetInfoIsBarrier` | shared/protocol/include/picosd/protocol/cdc_write_through_backend.hpp:93-106 | an answer to GET_INFO empties the cache exactly when it brings another medium or none; the same medium leaves every buffer |
| `BridgeMedia.MediumIsTold` | shared/protocol/src/cdc_media_info.cpp:12-30 | any line at all is taken for a medium exactly if it is an OK line with both flags, blocks of 512 bytes, a block count, not zero when a medium is present, and a generation or none |
| `BridgeMedia.MediumIsTrue` | firmware/src/cdc_sd_backend.cpp:11-21 | in every run of the system the service and the bridge know the size and protection of the host's image, or no medium at all |
| `BridgeMedia.AccessIsExposed` | firmware/src/cdc_sd_backend.cpp:28-45 | after any run an access that is not refused outright, with nothing sent, names a sector of the host's image, and a write a writable one |
| `BridgeMedia.RefreshKeepsWrite` | firmware/src/cdc_sd_backend.cpp:11-21 | a refresh keeps a queued write exactly while the medium it was queued for is still there |
| `BridgeMedia.LostConnectionFrees` | firmware/src/cdc_sd_backend.cpp:11-45 | after a lost connection and a refresh the bridge exposes nothing, has forgotten its write and refuses every access |
| `CrcLaws.Crc7IsLinear` | shared/protocol/src/crc.cpp:5-22 | CRC7 is XOR-linear over messages of equal length |
| `CrcLaws.Crc7Residue` | shared/protocol/src/crc.cpp:5-26 | a message followed by its CRC7 command byte always has CRC7 0x09 |
| `CrcLaws.Crc32IsAffine` | shared/protocol/src/crc.cpp:45-60 | CRC32 is affine: XOR of three messages of equal length has the XOR of their CRC32 |
| `CrcLaws.Crc32Residue` | shared/protocol/src/crc.cpp:45-60 | a message followed by its CRC32, low byte first, always has CRC32 0x2144df1c |
| `CrcLaws.Generators` | shared/protocol/src/crc.cpp:5-60 | the generator polynomials 0x09, 0x1021 and 0xedb88320 and the values of the empty message |
| `CodecLaws.DecodeAccepts` | shared/protocol/src/codec.cpp:10 | the decoder accepts exactly the texts of whole groups over the alphabet, padded at the end alone, whose bytes fit, and returns exactly as many bytes as length and padding say |
| `CodecLaws.DecodeReencodes` | shared/protocol/src/codec.cpp:9-10 | what is decoded encodes to the same text with the unused bits of its last character cleared, so exactly the texts whose unused bits are zero come back |
| `NumeralLaws.DecimalExactly` | host/terminal/src/session_dispatcher.cpp:24-27 | a text is read as a 64-bit number exactly if it is that number in decimal, zeros in front allowed |
| `NumeralLaws.HexExactly` | host/terminal/src/session_dispatcher.cpp:28-31 | a text is read as a 32-bit number exactly if it is that number in as many hexadecimal digits, in either letter case |
| `CommandTable.EveryCommand` | shared/protocol/src/sd_model.cpp:39-141 | any command in any state, on the wire: one answer whose first byte is the R1 of a table by state, the tabled next state and CMD55 prefix; a refused command is answered by that byte alone and leaves card and backend as they were |
| `CommandTable.AddressedExactly` | shared/protocol/src/sd_model.cpp:28-37 | a command addresses a block exactly if its argument is below the exposed end and, on SDSC cards, on a block boundary |
| `CommandTable.StopEndsReading` | shared/protocol/src/sd_model.cpp:60-65 | after CMD12 in the transfer state polls and refills give nothing and change nothing, however many of them come |
| `CommandTable.ResetEndsReading` | shared/protocol/src/sd_model.cpp:43-51 | the same after CMD0, from any state |
| `CommandTable.ReleaseKeepsReading` | shared/protocol/src/sd_spi_card_engine.cpp:101-109 | a release drops partial frames, deferred work and a write in progress; a multi-block read goes on as if it had not happened |
| `CardAnswers.EveryRunPresents` | shared/protocol/src/sd_model.cpp:20-22 | from power-up, whatever arrives, the registers are those of the card type and the number of blocks |
| `CardAnswers.CsdIsSent` | shared/protocol/src/sd_model.cpp:99-106 | CMD9 sends a CSD with a correct CRC16 whose decoding gives the exposed capacity and 512-byte blocks |
| `CardAnswers.RegistersDescribe` | shared/protocol/src/sd_registers.cpp:15-49 | for every request the CSD tells the exposed capacity: SDHC always, SDSC exactly below 1024 blocks; block length 512 |
| `CardAnswers.CidIsSent` | shared/protocol/src/sd_registers.cpp:19-20 | CMD10 sends the identification register, framed with its CRC16 |
| `CardAnswers.OcrIsSent` | shared/protocol/src/sd_model.cpp:90-98 | CMD58 sends the voltage window, and the card-capacity bit exactly on SDHC cards |
| `CardAnswers.InterfaceConditionEchoes` | shared/protocol/src/sd_model.cpp:52-55 | CMD8 to an idle card echoes its four argument bytes |
| `CardAnswers.StatusIsSent` | shared/protocol/src/sd_model.cpp:56-59 | CMD13 answers two status bytes once the card is out of power-up and fault |
| `CardAnswers.RegistersCarryNoCrc7` | shared/protocol/src/sd_registers.cpp:15-49 | neither CSD nor CID ends in its own CRC7 and end bit, for any card |
| `CardAnswers.FrameIsChecked` | shared/protocol/src/sd_spi_card_engine.cpp:37-48 | a frame without its end bit, or with another CRC7 once checking is on, is answered by the CRC error alone and changes nothing; any other frame is executed as it reads |
| `CardAnswers.UncheckedFrame` | shared/protocol/src/sd_command.cpp:30-33 | with checking off a frame does what the same frame with its right CRC does |
| `CardAnswers.DamagedFrame` | shared/protocol/src/sd_command.cpp:30-33 | with checking on, a good frame with one damaged byte is executed exactly when the byte is not the last and the damage is 0x89, and never when it is the first |
| `CardAnswers.DamagedFrameIsRefused` | shared/protocol/src/sd_spi_card_engine.cpp:37-48 | over a byte stream: after CMD59 with argument 1 a frame damaged in one byte, other than by 0x89, is refused and the card stays as it was |
| `CardAnswers.CheckingIsSwitched` | shared/protocol/src/sd_model.cpp:66-71 | CMD59 switches checking by its argument, 0 or 1, outside power-up and fault, and changes nothing else |
| `CardAnswers.CheckingFollowsSwitches` | shared/protocol/src/sd_model.cpp:43-71 | in every run checking stays on until CMD0 or CMD59 with argument 0, and off until CMD59 with argument 1 |
| `DeferredIo.ImmediateRead` | shared/protocol/src/sd_model.cpp:120-131 | a read the backend settles at once: R1=0 with exactly the block of the commanded address or, on a failure, R1=0 alone with no block after it and no fault |
| `DeferredIo.DeferredRead` | shared/protocol/src/sd_spi_card_engine.cpp:66-76 | CMD17 or CMD18 answered with the read pending: polls are silent while the backend is pending, the first one after that sends exactly the framed block of the commanded address or, on a failure, an empty answer and a fault, and later ones are silent |
| `DeferredIo.DeferredMultiRead` | shared/protocol/src/sd_model.cpp:147-171 | after a deferred CMD18 the blocks that follow are those of the next addresses, in order |
| `DeferredIo.BlocksInOrder` | shared/protocol/src/sd_model.cpp:164-171 | the next blocks of a multi-block read are those of consecutive addresses while blocks are exposed and the backend delivers |
| `DeferredIo.DeferredWrite` | shared/protocol/src/sd_spi_card_engine.cpp:77-89 | a block received while the backend is pending: polls are silent, the one that completes stores exactly that block at its place and answers Accepted, a failure answers a write error and faults, and later polls are silent |
| `DeferredIo.DeferredWriteOfCommand` | shared/protocol/src/sd_model.cpp:132-136 | the same from its CMD24: the place is the commanded address |
| `DeferredIo.SilentWhilePending` | shared/protocol/src/sd_spi_card_engine.cpp:66-82 | while the backend is pending polls answer nothing and change nothing but its count of calls |
| `WorkerCounters.RunCounts` | shared/protocol/include/picosd/protocol/sd_spi_target_worker.hpp:11-18 | in every run each counter is the number of times its event happened: bytes taken and lost, bytes sent and missing, outputs dropped, transactions given up |
| `WorkerCounters.ProcessTakes` | shared/protocol/include/picosd/protocol/sd_spi_target_worker.hpp:36-50 | one call of process takes the oldest captured bytes, as many as it may, and leaves the rest |
| `WorkerCounters.NothingIsDropped` | shared/protocol/include/picosd/protocol/sd_spi_target_worker.hpp:95-106 | a transmit queue with room for one output per byte and one more drops nothing the engine answers |
| `CardAnswers.RefreshPresents` | shared/protocol/src/sd_model.cpp:20-22 | a backend of another size is presented after the next refresh, and nothing else of the card changes |
| `CommandTable.EveryBlock` | shared/protocol/src/sd_model.cpp:187-219 | a framed block is refused with the CRC error unless it is expected and its CRC16 is right; else the answer of the backend gives R1, data response and state, and nothing is said while it is pending |
| `ClientAnswers.HandshakeRefusals` | shared/protocol/src/cdc_session_client.cpp:75-82 | a handshake is refused exactly while a request is pending, in a negotiated session, or without an id left, each with its error, and a refusal changes nothing |
| `ClientAnswers.RequestRefusals` | shared/protocol/src/cdc_session_client.cpp:84-101 | a request is refused exactly while one is pending, outside a session, without an id left, or if its line would not read back, each with its error, and a refusal changes nothing |
| `ClientAnswers.ResponseKinds` | shared/protocol/src/cdc_session_client.cpp:138-173 | what each received line is taken for: success, remote error, mismatch or invalid; only the first two change the client |
| `ClientAnswers.CoordinatorRefusals` | shared/protocol/src/cdc_operation_coordinator.cpp:12-121 | the coordinator takes one operation at a time, reissues only a due retry and resumes only a parked operation in a session |
| `MediumCommands.MediumRoundTrip` | host/terminal/src/session_dispatcher.cpp:67-72 | FLUSH and EJECT from the request the client begins to the answer it accepts: success exactly if the image file could be flushed, else an IO_ERROR; the medium is ejected exactly by a successful EJECT, and no block changes |
| `MediumCommands.PlainRequestParses` | shared/protocol/src/cdc_session_client.cpp:93-99 | a request without further fields reads back as its command, id and session |

## Left out

- Statistics and counters of the backend and the engine, and the wrap-around of the worker's counters and of the pool's use counter: they influence nothing else.
- Hexadecimal transfer encoding (`encode_hex`, `decode_hex`), the storage-status codes, `decode_get_info_response`, and `get`, `available` and `release_generation` of the pool: not used by the modelled paths.
- PIO, DMA, GPIO, TinyUSB, serial ports, file locks, the command line and the debug shell.
- SdSpiTargetWorker.SdSpiTargetWorker.Process: one call is one atomic step; interrupts that capture bytes while it runs are not modelled.
- BlockBackendArbiter.BlockBackendArbiter.Read: the owner check and the forwarded call are one atomic step, although the source makes them separately.
- Sessions that outlive a disconnect: the client restarts its ids at 1, so a disconnect comes with a new dispatcher on the same image and an empty channel, also when only the firmware gives up a session.
- Session tokens and card types are taken to be non-empty printable words without separators, as the command line produces them; ImageFile sizes are below 2^64 blocks.
- Coherence.CacheCoherent: a file system that loses written blocks after reporting success is outside the image model.
- BoundedTransfer.EveryTransferIsBounded: the connected service is taken to poll at every tick of the microsecond clock; polled less often it is late by up to one interval per timer.
- PendingWrites.QueuedWriteSettles: for a service that has learned its medium since the session began; otherwise a poll after a failed transfer drops the session. What the SD side asks for after the transfer has ended is covered only for stranded writes.
- BoundedRetry.OperationIsBounded: bounds only the three active states; Renegotiate and MediaUnavailable are left by resume calls the service never makes, polls come at every tick, and the statement stops before the clock saturates.
- ArrayRefinement.EngineIsArray: synchronous backends only, because CMD0 does not clear a deferred write; deferred transfers are the subject of DeferredIo.
- The 32-bit `size_t` clamp of `CdcSdBackend::block_count`; block counts reach the register computation modulo 2^32, as in `SdCardModel`.
- The busy flag of an engine output is produced but, as in the source, not used by the worker.
- A null observer of the copier is an observer that never cancels.
- CommandTable.StopEndsReading: for an engine without a deferred write; CMD0 does not clear one, and a poll after it still asks the card.
- BridgeMedia.MediumIsTrue: for images below 2^64 blocks.
- RetryTiming.SilentHostIsRetriedOnTime: a poll at every tick, and a clock and ids that do not run out during the operation.
