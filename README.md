# CppToolkit core in Dafny

This project models three parts of the CppToolkit C++ library:

- **The consumer** (`AsyncConsumer`, with the buffer hooks of `AsyncConsumerTest`):
  - the lifecycle `Init`, `start_loop`, `stop_loop`, `Close`;
  - the escalation of severity-tagged exceptions through `handle_warning`, `handle_error` and `handle_critical`;
  - the deferred queue of critical exceptions, which the next feed replays;
  - the feed path `ProcessDataAsync`, one worker pass `DefaultCoreLoop`, and the drain `CleanUpBuffer`.
- **The lock set** (`Locks`), its scoped guard (`SafeLockUp`), and the key bookkeeping of `SleepWaiter::WaitForCondition`.
- **The pure helpers:**
  - the handling policy and the error-code check of handle_exception.h;
  - the integer part of `StopWatch` (unit constants, `get_formated_time`, `reset`, `sync`);
  - `PreviewVector` and `ToStringStream` of log.h.

## Modules

| file | module | contents |
|---|---|---|
| `wrappers.dfy` | `Wrappers` | `Option` |
| `text.dfy` | `Text` | the decimal numerals of `std::to_string`, and a parser that reads them back |
| `error_handling.dfy` | `ErrorHandling` | exceptions with an optional `ErrorLevel` tag; `handle_exception`, `PROCESS_HANDLE_STATUS`, `LogMessage`, `CPPTOOLKIT_CHECK_API_ERRORCODE` |
| `date_time.dfy` | `DateTime` | the unit constants; C++ truncating `/` and `%`; `get_formated_time` and its read-back; the `StopWatch` class |
| `logging.dfy` | `Logging` | `PreviewVector` and `ToStringStream` as loop methods, proved against the sequence functions `PreviewText` and `Concatenated` |
| `locks.dfy` | `Locking` | the classes `Locks` (arrays of flags and held-mutex bits), `SafeLockUp` and `SleepWaiter` |
| `consumer_model.dfy` | `ConsumerModel` | the consumer as a pure state machine over a `State` value, with every property lemma |
| `consumer.dfy` | `Consumer` | the class `AsyncConsumerTest`, whose fields are updated in place and whose methods use `SafeLockUp` guards on `Locks`; each method is proved to perform exactly its `ConsumerModel` transition on `Abstract()` |

## How threads are represented

Threads are not modelled. The worker is a `workerPresent` flag plus explicit steps:
- `start_loop` sets `workerPresent`.
- `ConsumerLoopStep` is one pass of `ConsumerLoop`. If that pass stopped the loop, the step also runs `PostCoreLoop`, and the thread ends.
- A `stop_loop` from the producer joins the worker. The join runs what the worker still does:
  - if it was blocked in `wait()`, the rest of that pass;
  - then the drain.
- The worker counts as blocked in `wait()` exactly when the buffer is empty and slot 0 is not signaled.

These choices have consequences:
- A stop leaves slot 0 unsignaled in that blocked case, because the woken wait consumes the signal of `NotifyAll`.
- The join drains, so `handle_error` reached from the producer ends with an empty buffer.
- `flag_init_` changes only when a CRITICAL failure during that drain closes the consumer.
- Hooks reached on the worker (caller `Worker`) stop the loop without a join.

Mutex blocking is a precondition: `Lockup` needs the mutex free, and `Wait` needs the flag set. The methods are specified at the moment the blocking call returns.

`AsyncConsumerTest` waits exactly when its buffer is empty: `IsNeedWaitForData` is defined as `IsDataBufferEmpty`.

Waking with an empty buffer is possible after a failed enqueue, because the guard's destructor still notifies. In that case `DefaultCoreLoop` processes whatever `loaded_data_` still holds, so a frame can be processed twice (`FailedEnqueueRedeliversStaleFrame`). For whole-call interleavings, feed order is kept while no enqueue fails (`OrderOverRuns`). The source also lets the worker run inside a feed, between the unlock and the `notify()` of `SafeLockUp::notify_and_unlock`, and that interleaving reprocesses a frame too (`LateNotifyRedeliversFrame`, under "## Findings"). A null `loaded_data_` is recorded as `nullFrameProcessed`.

## Model

| member | source | states |
|---|---|---|
| Text.NatToDecimal | handle_exception.h:110 | the numeral `std::to_string` gives for a non-negative value is non-empty, all digits, has no leading zero, and has one digit exactly for values below 10 |
| Text.IntToDecimal | handle_exception.h:110 | `std::to_string` of a signed value: "-" before the digits of a negative value; its properties are `NatToDecimal`'s contract and `IntToDecimalRoundTrip` |
| Text.DecimalValueOfNat | handle_exception.h:110 | the digits of a natural number read back as that number |
| Text.IntToDecimalRoundTrip | handle_exception.h:110 | `std::to_string` of any integer, sign included, parses back to the integer |
| ErrorHandling.HandleExceptionStatus | handle_exception.h:39-71 | CONTINUE exactly for WARNING, RETHROW exactly for CRITICAL, STOP for ERROR, E_UNKNOWN and an untagged exception |
| ErrorHandling.HandleExceptionInvokesMatchingHook | handle_exception.h:47-70 | the only hook invoked is the one the level selects (the error hook for untagged), and a null hook is skipped |
| ErrorHandling.HandleExceptionLogsLikeLogMessage | handle_exception.h:49-70 | the log level used is the one `LogMessage` gives the effective level; E_UNKNOWN and E_ERROR log alike |
| ErrorHandling.ProcessHandleStatusAfterHandling | handle_exception.h:29-37 | after handling, WARNING falls through, CRITICAL throws the given exception, and ERROR or untagged return (each an if-and-only-if) |
| ErrorHandling.ThrownLevelIsReadBack | handle_exception.h:73-78 | the level `throw_exception` attaches is the level `handle_exception` reads |
| ErrorHandling.CheckApiErrorCodeContract | handle_exception.h:103-114 | silent iff the code is the no-error code; otherwise logs at `LogMessage(level)` and throws an exception tagged `level` whose message is the operation name, " returned an error: ", then the decimal code, which reads back as the code |
| ErrorHandling.ThrowException | handle_exception.h:73-78 | the exception carries the message and the `error_level` tag; `ThrownLevelIsReadBack` proves the tag is what `handle_exception` reads |
| ErrorHandling.HandleException | handle_exception.h:39-71 | the policy of `handle_exception`: hook chosen and status returned by the tag; its properties are `HandleExceptionStatus`, `HandleExceptionInvokesMatchingHook` and `HandleExceptionLogsLikeLogMessage` |
| ErrorHandling.ProcessHandleStatus | handle_exception.h:29-37 | the three branches of `PROCESS_HANDLE_STATUS`; `ProcessHandleStatusAfterHandling` proves each as an if-and-only-if on the level |
| ErrorHandling.LogMessage | handle_exception.h:80-96 | the log level each `ErrorLevel` is written at, E_UNKNOWN sharing E_ERROR's; used by `HandleExceptionLogsLikeLogMessage` and `CheckApiErrorCodeContract` |
| ErrorHandling.CheckApiErrorCode | handle_exception.h:103-114 | the outcome of `CPPTOOLKIT_CHECK_API_ERRORCODE`; `CheckApiErrorCodeContract` states it |
| DateTime.TruncRem | date_time.h:106 | C++ `%` has the sign of the dividend and a magnitude below the divisor |
| DateTime.UnitsNest | date_time.h:96-115 | each unit (lines 110-115) is 60 or 1000 times the next smaller one, and `get_count_freq_Hz()` is `kSecond` |
| DateTime.TruncDivNested | date_time.h:106 | truncating division by `kMinute`, then by 60, equals truncating division by `kHour` (in general: nested truncating division is division by the product) |
| DateTime.TimeFieldsRange | date_time.h:104-108 | for a stamp >= 0, minutes and seconds lie in [0, 59] and the hours are not capped; for a negative stamp they lie in (-60, 0] |
| DateTime.TimeFieldsRecombine | date_time.h:104-108 | hours·kHour + minutes·kMinute + seconds·kSecond equals the stamp truncated toward zero to whole seconds |
| DateTime.Pad2Digits | date_time.h:106 | `%02lld` of a non-negative value is at least two digits, exactly two below 100, and reads back as the value |
| DateTime.GetFormatedTimeRoundTrip | date_time.h:104-108 | for a stamp >= 0, the "HH:MM:SS" string reads back as the stamp in whole seconds |
| DateTime.TruncDiv | date_time.h:106 | C++ `/` on `int64_t`, rounding toward zero; `TruncDivNested` and `TruncRem`'s contract are its properties |
| DateTime.Pad2 | date_time.h:106 | `%02lld`; `Pad2Digits` proves its width and its read-back |
| DateTime.TimeFields | date_time.h:104-108 | the three fields `get_formated_time` prints; `TimeFieldsRange` and `TimeFieldsRecombine` are its properties |
| DateTime.GetFormatedTime | date_time.h:104-108 | the "HH:MM:SS" string; `GetFormatedTimeRoundTrip` proves it reads back |
| DateTime.GetCountFreqHz | date_time.h:96-98 | the tick rate; `UnitsNest` proves it is `kSecond` |
| DateTime.StopWatch.constructor | date_time.h:60-62 | the start point is the clock reading |
| DateTime.StopWatch.Reset | date_time.h:63-65 | the start point becomes the new clock reading; nothing else changes |
| DateTime.StopWatch.Sync | date_time.h:67-69 | the start point becomes the source's start point |
| DateTime.StopWatch.GetTimestamp | date_time.h:71-74 | records the clock reading and returns the ticks since the start point |
| Logging.PreviewVector | log.h:90-119 | the three streaming loops produce exactly `PreviewText(vec, n, convert)` |
| Logging.ToStringStream | log.h:128-134 | streaming every argument in turn produces exactly `Concatenated(args)` |
| Logging.RenderedAppend | log.h:103-105 | rendering (each element converted, then " ") distributes over concatenation |
| Logging.PreviewShortShowsAll | log.h:102-106 | at most 2n elements: every element is rendered, in order; an empty vector gives "" |
| Logging.PreviewShownSelection | log.h:102-116 | exactly min(size, 2n) elements are shown; for a long vector these are the first n and then the last n |
| Logging.PreviewLongText | log.h:107-116 | a long vector renders as its first n, then "... ", then its last n |
| Logging.ConcatenatedAppend | log.h:128-134 | the rendering of the arguments distributes over concatenation |
| Logging.ToStringStreamOrder | log.h:128-134 | argument i's rendering sits between the renderings of the arguments before it and after it |
| Logging.PreviewVectorDefault | log.h:90-98 | with the default count 5 and the default `ss << val` converter, produces `PreviewText(vec, 5, Render)`, which is the whole vector rendered when it has at most ten elements |
| Logging.Rendered | log.h:103-105 | each element converted and followed by " "; `RenderedAppend` proves it distributes over concatenation |
| Logging.PreviewText | log.h:99-119 | the two branches of `PreviewVector`; `PreviewShortShowsAll`, `PreviewShownSelection` and `PreviewLongText` are its properties |
| Logging.Render | log.h:128-134 | `ss << x` for each argument kind, integers through `Text.IntToDecimal` |
| Logging.Concatenated | log.h:128-134 | the arguments' renderings in order; `ConcatenatedAppend` and `ToStringStreamOrder` are its properties |
| Locking.Locks.constructor | locks.cpp:5-14 | exactly `number_of_locks` slots, every flag false and every mutex free |
| Locking.Locks.Reset | locks.cpp:16-21 | every flag false |
| Locking.Locks.Lockup | locks.h:45-47 | the slot's mutex becomes held; `.at` range checking is the precondition `index < n` |
| Locking.Locks.Wait | locks.cpp:33-38 | returns only once the slot's flag is set, and leaves that flag false and every other flag unchanged |
| Locking.Locks.Notify | locks.h:51-54 | the slot's flag becomes true; every other flag is unchanged |
| Locking.Locks.NotifyAndUnlock | locks.h:56-60 | the slot's flag becomes true and its mutex is released |
| Locking.Locks.NotifyAll | locks.cpp:23-27 | every flag becomes true |
| Locking.SafeLockUp.constructor | locks.cpp:40-48 | the guard holds the slot's mutex, has neither notified nor waited, and has issued no notify |
| Locking.SafeLockUp.Wait | locks.h:77-80 | consumes the slot's signal and marks the guard as waited |
| Locking.SafeLockUp.SignalOff | async_consumer.cpp:20 | clears the slot's flag and marks the guard as waited, without waiting |
| Locking.SafeLockUp.Unlock | locks.h:82-85 | releases the mutex and clears `flag_lockup_` |
| Locking.SafeLockUp.Notify | locks.h:87-90 | sets the slot's flag and `flag_notifyed_`, counting one notify |
| Locking.SafeLockUp.NotifyAndUnlock | locks.h:92-96 | leaves the flag true, the guard unlocked and `flag_notifyed_` set |
| Locking.SafeLockUp.Destruct | locks.cpp:50-58 | always ends with the mutex released (it unlocks only if still held); issues one notify exactly when the guard neither waited nor notified, and none otherwise |
| Locking.SleepWaiter.RegisterKey | locks.cpp:63-71 | `key_count` advances by one; the key is the first slot at or after the old count that is absent from the map, and it is inserted not woken |
| Locking.SleepWaiter.ReleaseKey | locks.cpp:78-83 | the key is removed from the map |
| Locking.SleepWaiter.WaitForCondition | locks.cpp:60-84 | the key used was absent beforehand, `key_count` advances by one, and on return the key is gone and the map is as before |
| ConsumerModel.StopLoop | async_consumer.h:52-60 | always ends stopped; a stopped consumer is unchanged; on the worker the buffer, staging slot and processed frames are left alone |
| ConsumerModel.Init | async_consumer.h:29 | sets `flag_init_` only |
| ConsumerModel.StartLoop | async_consumer.h:38-45 | the transition of `start_loop`; `StartLoopEffect` states it |
| ConsumerModel.Join | async_consumer.h:56-58 | the join of a producer-side `stop_loop`: the rest of a blocked pass, then the drain; `StopLoopEffect` states its effect |
| ConsumerModel.HandleException | async_consumer.cpp:81-111 | the reported level and the new state; `HandleExceptionEffect` and `HandleExceptionAgreesWithPolicy` state them |
| ConsumerModel.GetData | async_consumer.cpp:164-167 | the frame pushed at the back of the buffer (a failing enqueue is the `enqueueFault` parameter of `ProcessDataAsync`); `FeedEnqueues` and `FeedPreservesOrder` use it |
| ConsumerModel.LoadDataForProcess | async_consumer.cpp:151-154 | the front frame moved into `loaded_data_`; `DefaultCoreLoopEffect` states its effect inside a pass |
| ConsumerModel.ClearDataBuffer | async_consumer.cpp:160-162 | the buffer emptied; `DeliveredStopsAtEscalation` states its effect inside the drain |
| ConsumerModel.ProcessData | async_consumer.cpp:156-158 | the staged frame completed, its failure, or a null staging slot recorded; `DefaultCoreLoopEffect` states it |
| ConsumerModel.ConsumerLoopStep | async_consumer.cpp:3-8 | one pass of `ConsumerLoop`, with `PostCoreLoop` once the loop stops; `StepPreservesOrder`, `ConsumerLoopStepKeepsIdle` and `WorkerStopsOnError` are its properties |
| ConsumerModel.PreGetData | async_consumer.cpp:51-65 | the guard of a feed; `PreGetDataEffect` and `PreGetDataReplaysInOrder` state it |
| ConsumerModel.PostGetData | async_consumer.cpp:67-79 | the restart after a feed; `PostGetDataKeepsIdle` and `FeedRestartsAfterRecoverableFailure` state it |
| ConsumerModel.ProcessDataAsync | async_consumer.cpp:133-149 | one feed; the `Feed*` lemmas and `FeedPreservesOrder` state it |
| ConsumerModel.CleanUpBuffer | async_consumer.cpp:37-49 | ends with an empty buffer, still stopped, and with the lock flags unchanged |
| ConsumerModel.DefaultCoreLoop | async_consumer.cpp:14-35 | stopped after the wait/`signal_off`: only the slot flag is cleared; running: exactly the front frame leaves the buffer |
| ConsumerModel.Close | async_consumer.h:61-64 | always ends with `flag_init_` false and `flag_run_` false |
| ConsumerModel.HandleCritical | async_consumer.h:85-90 | ends closed and stopped, with `flag_handling_error_` back to false |
| ConsumerModel.HandleError | async_consumer.h:80-84 | ends stopped, with `flag_handling_error_` back to false; a stopped consumer is otherwise unchanged |
| ConsumerModel.CleanUpBufferEffect | async_consumer.cpp:37-49 | the drain completes exactly `Delivered(buffer)` in buffer order; it queues the first escalated failure iff that failure is CRITICAL, and then clears `flag_init_` |
| ConsumerModel.DeliveredAllWithoutFaults | async_consumer.cpp:37-49 | with no failing frame, every buffered frame is processed, in order |
| ConsumerModel.DeliveredStopsAtEscalation | async_consumer.cpp:43-46 | nothing after the first failure above WARNING is processed: the rest of the buffer is cleared |
| ConsumerModel.DeliveredFromBuffer | async_consumer.cpp:37-49 | every processed frame was buffered and did not fail |
| ConsumerModel.StartLoopEffect | async_consumer.h:38-45 | no-op when running; otherwise empties the critical queue, sets `flag_run_`, and creates exactly one worker where there was none |
| ConsumerModel.StopLoopEffect | async_consumer.h:52-60 | no-op when stopped, and idempotent; from running, ends stopped with the worker joined, the buffer drained into the processed frames, and slot 0 signaled unless the woken worker consumed the signal |
| ConsumerModel.CloseEffect | async_consumer.h:61-64 | ends uninitialized and stopped, with the worker joined |
| ConsumerModel.HandleErrorEffect | async_consumer.h:80-84 | ends stopped and not handling; `flag_init_` is unchanged unless the drain met a CRITICAL failure; a stopped consumer is unchanged |
| ConsumerModel.HandleCriticalEffect | async_consumer.h:85-90 | appends the exception at the back of the critical queue; ends closed with `flag_handling_error_` false |
| ConsumerModel.WorkerHooksEffect | async_consumer.h:79-90 | on the worker, `handle_error` leaves `flag_init_`, buffer and queue untouched and signals every slot; `handle_critical` also appends exactly one queue entry and closes |
| ConsumerModel.HandleExceptionEffect | async_consumer.cpp:81-111 | WARNING changes nothing; ERROR stops; E_UNKNOWN or untagged has exactly ERROR's effect but reports E_UNKNOWN; CRITICAL closes and queues the exception |
| ConsumerModel.HandleExceptionAgreesWithPolicy | async_consumer.cpp:81-111 | the reported level is the effective level; it is WARNING iff `handle_exception` continues, and CRITICAL iff `handle_exception` rethrows |
| ConsumerModel.PreGetDataEffect | async_consumer.cpp:51-65 | a non-empty queue raises its front element and removes exactly that element; otherwise an uninitialized consumer raises the CRITICAL logic error; otherwise nothing happens |
| ConsumerModel.DefaultCoreLoopEffect | async_consumer.cpp:14-35 | a running pass moves the front frame into `loaded_data_` and completes it unless it fails; after a wake with an empty buffer it reprocesses the staged frame, or records a null staging slot |
| ConsumerModel.FeedReplaysDeferredCritical | async_consumer.cpp:133-149 | while the critical queue is non-empty, a feed rethrows its front element and changes nothing else; lock and buffer are untouched |
| ConsumerModel.FeedEnqueues | async_consumer.cpp:133-149 | a successful feed appends the frame at the back, signals slot 0, and leaves the loop running |
| ConsumerModel.FeedPropagatesCriticalEnqueueFailure | async_consumer.cpp:142-147 | a CRITICAL failure of the enqueue reaches the caller and `PostGetData` is skipped, so the consumer stays closed |
| ConsumerModel.FeedRestartsAfterRecoverableFailure | async_consumer.cpp:67-79 | a failure below CRITICAL in the enqueue is absorbed, and `PostGetData` restarts the loop |
| ConsumerModel.FeedSkipsEnqueueWhileHandling | async_consumer.cpp:137 | while a hook is running, a feed enqueues nothing and does not restart |
| ConsumerModel.FeedKeepsIdle | async_consumer.cpp:133-149 | a feed keeps the between-calls invariant: one slot, no hook running, a worker exactly while running |
| ConsumerModel.PostGetDataKeepsIdle | async_consumer.cpp:67-79 | `PostGetData` keeps that invariant, also when thread creation fails |
| ConsumerModel.ConsumerLoopStepKeepsIdle | async_consumer.cpp:3-8 | a worker pass keeps that invariant |
| ConsumerModel.WorkerStopsOnError | async_consumer.cpp:3-8 | an ERROR on the worker stops the loop, drains the rest of the buffer and ends the thread; the consumer stays initialized unless the drain hits CRITICAL |
| ConsumerModel.WarningScenario | async_consumer.cpp:14-35 | three frames fed, the second failing with WARNING: the first and third are processed in order, the loop keeps running, and the buffer ends empty |
| ConsumerModel.CriticalScenario | async_consumer.cpp:51-65 | a frame failing with CRITICAL closes the consumer; the next feed rethrows that same failure without touching buffer or lock, and the one after raises the not-initialized error |
| ConsumerModel.FreshIsQuiet | async_consumer.h:29-33 | a new consumer, and one just initialized, has no stale signal on slot 0 |
| ConsumerModel.FeedPreservesOrder | async_consumer.cpp:133-149 | a feed whose enqueue succeeds keeps the no-stale-signal invariant `Quiet` and the between-calls invariant, and makes processed frames followed by the buffer the old sequence plus the new frame (unchanged when `PreGetData` refuses the feed) |
| ConsumerModel.StepPreservesOrder | async_consumer.cpp:14-35 | for whole-call interleavings: from a `Quiet` state, a pass that can proceed always finds a frame; with no failing frame it takes the front one, keeps the loop running and `Quiet`, and leaves processed frames followed by the buffer unchanged |
| ConsumerModel.FailedEnqueueRedeliversStaleFrame | async_consumer.cpp:14-35 | a failed enqueue (WARNING) after the buffer was emptied still signals slot 0, breaks `Quiet`, and the next pass processes the last frame again: feeding d1, one pass, a failed feed, one pass leaves the processed frames [d1, d1] |
| ConsumerModel.ApplyPreservesOrder | async_consumer.cpp:133-149 | one whole-call event (a successful feed, or a pass) keeps the run invariant `Steady` and appends exactly the frame it feeds to processed frames followed by the buffer |
| ConsumerModel.OrderOverRuns | async_consumer.cpp:14-35 | over any sequence of whole-call feeds and passes with no failing frame, the consumer stays `Steady` and processed frames followed by the buffer are the old ones followed by the frames fed, in feed order |
| ConsumerModel.OrderFromStart | async_consumer.cpp:133-149 | from a newly initialized consumer, over whole-call interleavings with no failing frame, the processed frames are a prefix of the frames fed: each frame is processed once, in feed order |
| ConsumerModel.FeedUntilUnlock | locks.h:92-94 | the successful feed up to the mutex release inside `notify_and_unlock`: the frame is queued and slot 0's flag set |
| ConsumerModel.FeedAfterUnlock | locks.h:95 | the rest of the feed: `notify()` sets slot 0's flag again without the mutex, then `PostGetData` |
| ConsumerModel.SplitFeedComposes | async_consumer.cpp:137-141 | with nothing run between them, the two halves of the feed are exactly the whole-call `ProcessDataAsync` |
| ConsumerModel.LateNotifyRedeliversFrame | locks.h:92-96 | a worker pass that runs between the unlock and the late `notify()` consumes the signal and processes d2; the late notify then signals an empty buffer, and the next pass processes d2 again: processed frames [d1, d2, d2] with no failed enqueue |
| ConsumerModel.PreGetDataReplaysInOrder | async_consumer.cpp:51-65 | the deferred critical queue is replayed first in, first out: the i-th of the next k feeds raises the i-th queued exception |
| Consumer.AsyncConsumerTest.constructor | async_consumer.cpp:130-131 | a fresh, uninitialized, stopped consumer with one unsignaled, free slot |
| Consumer.AsyncConsumerTest.IsDataBufferEmpty | async_consumer.h:121 | true exactly when the buffer is empty |
| Consumer.AsyncConsumerTest.IsNeedWaitForData | async_consumer.h:120 | the worker waits exactly when the buffer is empty |
| Consumer.AsyncConsumerTest.Init | async_consumer.h:29 | sets `flag_init_` and changes nothing else |
| Consumer.AsyncConsumerTest.StartLoop | async_consumer.h:38-45 | performs `ConsumerModel.StartLoop` on the abstract state |
| Consumer.AsyncConsumerTest.StopLoop | async_consumer.h:52-60 | performs `ConsumerModel.StopLoop` |
| Consumer.AsyncConsumerTest.Join | async_consumer.h:56-58 | performs `ConsumerModel.Join` |
| Consumer.AsyncConsumerTest.Close | async_consumer.h:61-64 | performs `ConsumerModel.Close` |
| Consumer.AsyncConsumerTest.HandleError | async_consumer.h:80-84 | performs `ConsumerModel.HandleError` |
| Consumer.AsyncConsumerTest.HandleCritical | async_consumer.h:85-90 | performs `ConsumerModel.HandleCritical` |
| Consumer.AsyncConsumerTest.HandleException | async_consumer.cpp:81-111 | performs `ConsumerModel.HandleException` and returns its level |
| Consumer.AsyncConsumerTest.GetData | async_consumer.cpp:164-167 | pushes the frame at the back of the buffer |
| Consumer.AsyncConsumerTest.LoadDataForProcess | async_consumer.cpp:151-154 | moves the front frame into `loaded_data_` |
| Consumer.AsyncConsumerTest.ClearDataBuffer | async_consumer.cpp:160-162 | leaves the buffer empty |
| Consumer.AsyncConsumerTest.ProcessData | async_consumer.cpp:156-158 | completes the staged frame, reports its failure, or records a null staging slot |
| Consumer.AsyncConsumerTest.DefaultCoreLoop | async_consumer.cpp:14-35 | with a real guard on slot 0, performs `ConsumerModel.DefaultCoreLoop` and leaves the mutex free |
| Consumer.AsyncConsumerTest.CleanUpBuffer | async_consumer.cpp:37-49 | its `while` loop performs `ConsumerModel.CleanUpBuffer` |
| Consumer.AsyncConsumerTest.ConsumerLoopStep | async_consumer.cpp:3-8 | performs `ConsumerModel.ConsumerLoopStep` |
| Consumer.AsyncConsumerTest.PreGetData | async_consumer.cpp:51-65 | performs `ConsumerModel.PreGetData` |
| Consumer.AsyncConsumerTest.PostGetData | async_consumer.cpp:67-79 | performs `ConsumerModel.PostGetData` |
| Consumer.AsyncConsumerTest.ProcessDataAsync | async_consumer.cpp:133-149 | with a real guard on slot 0, performs `ConsumerModel.ProcessDataAsync` and leaves the mutex free |

## Left out

- `AsyncConsumerTest` overrides `ConsumerLoop` with a debug log (async_consumer.h:115). Its thread would therefore return at once. The worker here runs `AsyncConsumer::ConsumerLoop` (async_consumer.cpp:3-8) over the test class's buffer hooks.
- Threads, the mutexes' blocking and condition-variable wake-ups are replaced by the explicit steps described above. Interleavings inside one call are not modelled, except the window inside `SafeLockUp::notify_and_unlock` (`FeedUntilUnlock`, `FeedAfterUnlock`).
- ConsumerModel.StepPreservesOrder: with `FeedPreservesOrder` and `OrderOverRuns`, it proves feed order only for whole-call interleavings. In the source, a worker pass can take the mutex between the unlock and the `notify()` of `SafeLockUp::notify_and_unlock` (locks.h:92-96). The late `notify()` then leaves a stale signal, and a frame is processed twice with no enqueue failing (`LateNotifyRedeliversFrame`).
- A hook reached on the worker would call `stop_loop`, which joins the worker thread from itself. That self-join (`std::system_error`, or `std::terminate`) is not modelled: on the worker, `stop_loop` skips the join.
- Exception objects are values: a message plus an optional level. `boost::diagnostic_information`, exception identity and the source location are not modelled.
- Failures are parameters:
  - `ProcessData` failures come from the `fault` function;
  - `GetData` failures come from `enqueueFault`;
  - thread-creation failure is `spawnFails`, an untagged exception.
- All logging output (`LOG_*`, log.cpp, the Qt status-bar sink) is I/O and is not modelled.
- `ProcessData` of the test class logs the frame's first element. The model records the frame as processed instead.
- `width_` and `height_` are stored but never used.
- `AsyncConsumer::ProcessAsync` and the private `GetData()` are a structural demonstration without behaviour. They are not modelled, and neither is the unused `never_wait_for_data`.
- `Start` is `start_loop` and is modelled as `StartLoop`. The destructors call `Close`, which is modelled.
- The class declaration of `SleepWaiter` and its `wake_up` are not part of this model.
- The caller-supplied `waitFunc` is not modelled, so `WaitForCondition` keeps only its key bookkeeping.
- Locking.SleepWaiter.RegisterKey: keys are unbounded naturals, so the wrap-around of the `uint64_t` counter is not modelled.
- Locking.Locks.constructor: takes a natural count; a negative `number_of_locks` is not modelled.
- Locking.Locks.Wait: the `while` loop around the condition variable is its blocking. The model states it as the precondition that the flag is set.
- DateTime.StopWatch.GetTimestamp: ticks are unbounded integers, so `int64_t` overflow of a clock difference is not modelled.
- Clock reads (`high_resolution_clock::now`, `DateTime::GetLocalTime`) are the `now` parameters. `StopWatchWithLog` writes files and is not modelled.
- `StopWatch::lap*` computes in floating point and is not modelled.
- Logging.PreviewVectorDefault: the default converter `ss << val` is modelled only for elements of the four `StreamArg` kinds; for other element types the caller's `convert` is a parameter of `PreviewVector`.
- ConsumerModel.ProcessData: dereferencing a null `loaded_data_` (async_consumer.cpp:157) is undefined behaviour in the source; the model completes the pass and records `nullFrameProcessed` instead, so nothing the source does after that point is claimed.
- `PreviewVector` with a negative `n` hits a signed/unsigned comparison, so `n` is a natural here.
- Logging.ToStringStream: arguments are strings, integers, characters and booleans. Other streamable types, and stream formatting flags, are not modelled.
- hdf5_toolkit.h, qjson_save_and_load.h, qt_file_operations.h and qt_compatibility.h are library wrappers or preprocessor code, and are not modelled.

## Findings

| source | as written | input that shows it | evidently intended | confidence | as-written member | corrected member |
|---|---|---|---|---|---|---|
| locks.h:92-96 | `SafeLockUp::notify_and_unlock` sets the flag, releases the mutex, then calls `notify()`, which sets the flag again without the mutex | d1 fed and processed; d2 fed, and a worker pass takes the mutex right after the unlock, before the `notify()`; then one more pass: processed frames are [d1, d2, d2] | the flag is set only while the mutex is held, as `Locks::notify_and_unlock` (locks.h:56-60) does, so each frame is processed once, in feed order | medium, not executed | ConsumerModel.LateNotifyRedeliversFrame | ConsumerModel.OrderOverRuns |
