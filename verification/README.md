# EspAsyncOta job lifecycle, in Dafny

`EspAsyncOta` drives an over-the-air firmware update on an ESP32. A caller
triggers, polls and aborts a job. A background FreeRTOS task runs the job
through the ESP-IDF HTTPS OTA engine: begin, describe, size, a perform
loop, then finish. The two sides coordinate only through a nine-bit event
group. This project models that coordination as a state machine over an
immutable state record and proves the facts it depends on.

- `basics.dfy` (`Basics`) holds the optional and `expected<void, string>`
  results, the 32-bit `int`, and the decimal rendering used inside messages.
- `flags.dfy` (`EventFlags`) defines the nine event-group flags and their
  BIT0..BIT8 masks. It proves that the set view of the flags and the bit
  word agree for encoding, `setBits`, `clearBits` and test-and-clear.
- `state.dfy` (`OtaState`) holds the object's fields, the status
  enumeration (with `Verifying` added), `status()`, the accessors,
  `setTotalSize` and the flag invariant.
- `controller.dfy` (`OtaController`) models `startTask`, `endTask`,
  `trigger`, `abort` and the `update()` tick.
- `worker.dfy` (`OtaWorker`) models one job of `otaTask()` as a single
  atomic step. Its inputs are what each engine call returns, plus where a
  concurrent `abort()` lands. `PerformLoop` follows the perform loop
  statement by statement; `Classify` is an independent reference for which
  exit the job takes.
- `system.dfy` (`OtaSystem`) treats every call, tick and job as one
  event. It proves the invariant for every state reachable from a fresh
  object, plus the properties that span several events.

The invariant (`OtaState.Inv`) has seven parts:
- SUCCEEDED implies FINISHED.
- FINISHED excludes START, RUNNING and VERIFYING.
- VERIFYING implies RUNNING.
- START and RUNNING are never both set.
- ABORT is set only while START or RUNNING is set.
- A task handle implies TASK_RUNNING.
- With TASK_RUNNING clear, no flag is set.

The accessors `progress()`, `totalSize()`, `message()` and `appDesc()`
are field reads of the immutable record (`Progress`, `TotalSize`,
`Message`, `ImageDescriptor`), so they cannot change the state.

Time is an integer millisecond clock passed to `Update` and into job
messages. `esp_restart()` becomes the terminal result `Restart` of
`Update`, or `Restarted` for the whole machine.

Behaviour of the code a reader may not expect, which the model keeps:
- The `update()` tick that recycles a failed job clears FINISHED,
  SUCCEEDED and the image descriptor. It does not clear the message.
- Only `m_progress` is reset when a job starts. `m_totalSize` keeps the
  previous job's size when the new image size is unknown.
- The worker never looks at END_TASK and never sets TASK_ENDED. Once it
  passes its guards, `endTask()` raises END_TASK and then waits forever
  (`EndStep.AwaitingWorker`).
- VERIFYING is set while RUNNING is still set. `status()` tests VERIFYING
  first, so it reports Verifying during finish.
- The header declares `trigger` with four parameters and no `abort`; the
  model uses the five-parameter `trigger` and the `abort` of the
  implementation. The header has no `m_use_global_ca` field, so its initial
  value here is `false`.

## Model

| member | source | states |
|---|---|---|
| EventFlags.DecodeEncode | src/espasyncota.cpp:28-36 | the nine flags occupy distinct bits, so decoding the encoded word gives back the flag set |
| EventFlags.SetBitsIsInsert | src/espasyncota.cpp:189 | `setBits` of one flag's mask on the word is inserting that flag into the set |
| EventFlags.ClearBitsIsRemove | src/espasyncota.cpp:407 | `clearBits` of one mask is removing the flag, and the returned word tells whether it was set (the abort test-and-clear) |
| EventFlags.StartTaskClearsEverything | src/espasyncota.cpp:68 | the mask `startTask` clears names all nine flags, leaving the word empty |
| OtaState.Init | src/espasyncota.h:54-69 | a fresh object has progress 0, no total size, descriptor or timestamps, no task handle, empty flags and empty job parameters; it satisfies the invariant and reports Idle |
| OtaState.Status | src/espasyncota.cpp:134-157 | `status()` depends on the flags alone and never yields NotReady; Verifying needs VERIFYING and Succeeded needs SUCCEEDED |
| OtaState.StatusOfBitsAgrees | src/espasyncota.cpp:134-157 | the bit-test-by-bit-test `status()` over the event-group word equals the set-based Status on every flag set |
| OtaState.StatusUnderInv | src/espasyncota.cpp:134-157 | under the invariant, Succeeded iff SUCCEEDED, Failed iff FINISHED without SUCCEEDED, Verifying iff VERIFYING, Updating iff in flight and not verifying, Idle iff nothing in flight or finished |
| OtaState.SetTotalSize | src/espasyncota.h:39 | afterwards `totalSize()` is `Some(n)`; no other field, the status or the invariant changes |
| OtaController.StartTask | src/espasyncota.cpp:52-99 | fails without change if a handle exists or TASK_RUNNING is set; succeeds iff creation passes and writes the handle, leaving exactly TASK_RUNNING set; touches only flags and handle |
| OtaController.EndTask | src/espasyncota.cpp:101-113 | returns at once iff TASK_RUNNING is clear; refuses iff END_TASK is already pending; otherwise raises only END_TASK and waits |
| OtaController.EndTaskIdempotentWhenStopped | src/espasyncota.cpp:103-105 | with no worker, `endTask()` succeeds without any change, so calling it twice succeeds twice |
| OtaController.TriggerGuards | src/espasyncota.cpp:168-192 | accepts iff the task runs, nothing is in flight, FINISHED is clear, the URL is non-empty and verified; on failure nothing changes; on success it stores the parameters and adds exactly START |
| OtaController.Trigger | src/espasyncota.cpp:159-193 | with the task running the failures come in order: already running, not fully finished, empty URL, URL verification, each leaving the state unchanged; failures never touch the parameters; a success stores them and adds START |
| OtaController.TriggerAssertionHolds | src/espasyncota.cpp:172-175 | once the guards pass, SUCCEEDED is clear, as the assertion requires |
| OtaController.Abort | src/espasyncota.cpp:195-206 | fails with "no ota job is running!" when nothing is in flight and "an abort has already been requested!" when ABORT is set; otherwise adds only ABORT; status never changes |
| OtaController.Update | src/espasyncota.cpp:208-269 | restarts iff a succeeded job is settled past 5 s; in flight only the log timestamp moves; the only flag change is dropping FINISHED and SUCCEEDED with the descriptor and timestamp cleared, after the delay |
| OtaWorker.WakeAssertionsHold | src/espasyncota.cpp:298-305 | in any state keeping the invariant, the five assertions after waking on START hold |
| OtaWorker.PerformLoop | src/espasyncota.cpp:390-416 | the loop ends on an abort exactly at the chunk the reference `AbortSeenFrom` names, with ESP_FAIL and that chunk's progress; otherwise with the engine's final result and the last chunk's progress |
| OtaWorker.MessageEmptyOnlyOnSuccess | src/espasyncota.cpp:448-462 | the stored message is empty exactly for a completed job |
| OtaWorker.VerifyingBeforeCleanup | src/espasyncota.cpp:419-420 | before cleanup, VERIFYING is set iff perform returned ESP_OK without an abort, RUNNING is still set, and status reports Verifying |
| OtaWorker.RunJob | src/espasyncota.cpp:292-467 | every exit leaves START, RUNNING, VERIFYING and ABORT clear and FINISHED set, other flags untouched; total size changes only after a good begin and a positive size, the descriptor only after a good begin; parameters, handle and timestamps are kept |
| OtaWorker.RunJobOutcome | src/espasyncota.cpp:354-466 | SUCCEEDED is added iff the reference outcome is Completed, and the message is the one that outcome's exit writes (begin error, invalid handle, "Requested abort", perform error, finish error, or empty) |
| OtaWorker.RunJobProgress | src/espasyncota.cpp:307-416 | progress ends at 0 when begin or the handle failed, at the aborted chunk's value after an abort, and otherwise at the last chunk's value |
| OtaSystem.RunJobKeepsInv | src/espasyncota.cpp:307-314 | a job started from a state keeping the invariant ends in one |
| OtaSystem.ReachableStatesKeepInv | src/espasyncota.cpp:172-175 | every state reachable from a fresh object by any sequence of calls, ticks and jobs keeps the invariant, so SUCCEEDED implies FINISHED and FINISHED excludes a job in flight |
| OtaSystem.RestartOnlyAfterSettledSuccess | src/espasyncota.cpp:244-253 | the device restarts only on an `update()` tick finding a succeeded, finished job whose settle delay has run out |
| OtaSystem.TriggersRefusedInFlight | src/espasyncota.cpp:170-171 | while a job is in flight every trigger in a run is refused and the state is unchanged |
| OtaSystem.AtMostOneTriggerAccepted | src/espasyncota.cpp:168-189 | of any run of triggers at most one is accepted; if one is, some call i is accepted given the calls before it and the stored parameters are call i's request; if none is, the parameters are unchanged |
| OtaSystem.TriggerScenarios | src/espasyncota.cpp:168-198 | on an idle controller a valid trigger succeeds and status becomes Updating; a second trigger fails as already running; an empty URL fails without change; abort fails with no job |
| OtaSystem.TriggerStartsWorkerLazily | src/espasyncota.cpp:159-166 | with no worker, a trigger first spawns one: on a good spawn a valid request is accepted (TASK_RUNNING and START set, handle written, Updating) and an empty URL is refused but leaves the worker started; a failed spawn reports its code and changes nothing |
| OtaSystem.AbortHonouredAtFirstChunk | src/espasyncota.cpp:394-414 | an abort accepted while the start is pending ends the job Failed at the first chunk with "Requested abort" and that chunk's progress |
| OtaSystem.LateAbortIsDiscarded | src/espasyncota.cpp:311-314 | an abort landing after the last chunk is cleared by the cleanup and the job ends as if it had not been made |
| OtaSystem.JobOutcomeStatus | src/espasyncota.cpp:448-466 | a job ends Succeeded iff the reference outcome is Completed and Failed otherwise, and the message is empty iff it succeeded |
| OtaSystem.JobNeverAcknowledgesShutdown | src/espasyncota.cpp:290-296 | a job never changes END_TASK or TASK_ENDED, so a caller waiting in `endTask()` is not released |
| OtaSystem.SettleTwoStep | src/espasyncota.cpp:244-268 | the first tick after a finish records the time without changing flags or status; ticks within 5 s change nothing; a later tick restarts after success, else returns to Idle with the descriptor cleared and the message kept |
| Basics.DecimalRoundTrip | src/espasyncota.cpp:356-357 | the decimal text written into messages reads back as the number it renders |

## Left out

- HTTP client and TLS configuration (src/espasyncota.cpp:316-345): the configuration is built only for the engine, which is outside the model. Each engine call becomes an input of the job step.
- OtaController.Trigger: `m_cert_pem`, `m_client_key` and `m_client_cert` are non-owning `std::string_view` fields (src/espasyncota.h:67-69). Only the URL is copied (src/espasyncota.cpp:183); the other three are stored as views (:184, :186-187) and read by the worker later (:318-341). The model stores values, so `Trigger`'s clause that the stored parameters equal the request, and the fact that failures never change them, hold for the views. The model assumes the caller keeps those buffers alive and unchanged until the job has read them.
- URL verification (src/espasyncota.cpp:180): an external collaborator. Its verdict is a parameter of `Trigger`.
- Watchdog registration around finish (src/espasyncota.cpp:423-446): a foreign side effect with no effect on the state.
- Logging and the float percentages in `update()` (src/espasyncota.cpp:219-243, 263-266): only the `m_lastInfo` timestamp they rate-limit is modelled.
- Task creation, `vTaskDelete`, `vPortYield` and the blocking waits (src/espasyncota.cpp:70, 87-97, 115-131, 285, 404): these are scheduler primitives. A successful `startTask` leaves TASK_RUNNING set; `endTask` past its guards is `AwaitingWorker`.
- Interleaving: each call, tick and whole job is one atomic step. The only concurrency inside a job is the `abortArrival` input, which says where a concurrent `abort()` lands relative to the chunk checks. The invariant, and with it the assertion at src/espasyncota.cpp:175, relies on this atomicity. The source has two windows where it does not hold:
  - Between src/espasyncota.cpp:293 (START cleared by the wait) and :309 (RUNNING set), nothing is in flight, so a second `trigger()` is accepted while the first job is starting.
  - Between src/espasyncota.cpp:312 (the cleanup clears RUNNING) and :313 (it sets FINISHED), a succeeded job has SUCCEEDED set with nothing in flight and FINISHED clear, so a `trigger()` passes the guards. That trips the assertion at :175; in a build without assertions, the stale SUCCEEDED carries into the next job.
- The shutdown handshake: the worker never waits on END_TASK, so only the guards of `endTask` are modelled.
- `esp_restart` (src/espasyncota.cpp:253): modelled as the terminal `Restart` result.
- Task name, stack size and core affinity (src/espasyncota.h:51-53): they are only passed on to task creation, which is outside the model.
- `esp_app_desc_t`: a few fields stand for it, because its contents are only stored and handed back.
- Message timestamps: one clock reading per job stands for the readings the source takes, because at most one message is written per job.
