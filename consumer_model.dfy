/** The state machine of `AsyncConsumer` with the buffer of
    `AsyncConsumerTest` (async_consumer.h / async_consumer.cpp), as pure
    transitions over a `State` value. The worker thread is explicit: a
    `workerPresent` flag that `StartLoop` sets, a step function for one
    pass of `ConsumerLoop`, and a `Join` that runs what the worker still
    does after it has been told to stop. */
module ConsumerModel {

  import opened Wrappers
  import opened ErrorHandling

  /** A data unit (`std::unique_ptr<int[]>`). */
  type Frame = seq<int>

  /** How the subclass's `ProcessData` fails on a frame: None when it completes. */
  type Fault = Frame -> Option<Exception>

  /** The thread a hook runs on. On the worker, `stop_loop` would join the
      worker from itself; the model skips that join (see `StopLoop`). */
  datatype Caller = Producer | Worker

  /** `flags` is the signaled flag of each slot of `lock_data_transfer_`;
      `processed` lists the frames whose `ProcessData` completed and
      `nullFrameProcessed` records a `ProcessData` call with no frame loaded. */
  datatype State = State(
    init: bool,
    run: bool,
    handlingError: bool,
    criticalQueue: seq<Exception>,
    workerPresent: bool,
    flags: seq<bool>,
    buffer: seq<Frame>,
    loaded: Option<Frame>,
    processed: seq<Frame>,
    nullFrameProcessed: bool)

  /** What holds between two public calls: one lock slot, no hook running,
      and a worker thread exactly while the loop runs. */
  predicate Idle(s: State) {
    |s.flags| == 1 && !s.handlingError && s.workerPresent == s.run
  }

  /** The parts of the state that hooks running on the worker leave alone. */
  predicate SameData(a: State, b: State) {
    && a.buffer == b.buffer && a.loaded == b.loaded && a.processed == b.processed
    && a.workerPresent == b.workerPresent && a.nullFrameProcessed == b.nullFrameProcessed
  }

  /** A newly constructed consumer. */
  function Fresh(): State {
    State(false, false, false, [], false, [false], [], None, [], false)
  }

  /** The exception `PreGetData` throws before `Init`. */
  const NotInitialized: Exception := ThrowException("Logic Error! Please Init Consumer First!", Critical)

  /** The untagged `std::system_error` a failed thread creation throws. */
  const SpawnFailure: Exception := Exception("thread creation failed", None)

  function Init(s: State): State {
    s.(init := true)
  }

  /** `start_loop()`; `spawnFails` says that creating the thread throws. */
  function StartLoop(s: State, spawnFails: bool): (Option<Exception>, State) {
    if s.run then (None, s)
    else
      var s1 := s.(criticalQueue := [], run := true);
      if spawnFails then (Some(SpawnFailure), s1) else (None, s1.(workerPresent := true))
  }

  function Rank(caller: Caller): nat {
    if caller == Producer then 2 else 0
  }

  function AllSignaled(n: nat): (r: seq<bool>)
    ensures |r| == n && forall i :: 0 <= i < n ==> r[i]
  {
    seq(n, _ => true)
  }

  /** `stop_loop()`. When the producer stops a loop that has a worker, the
      worker was blocked in `wait()` exactly when the buffer was empty and
      the slot not signaled. */
  function StopLoop(s: State, caller: Caller, fault: Fault): (r: State)
    requires |s.flags| >= 1
    ensures !r.run && |r.flags| == |s.flags|
    ensures !s.run ==> r == s
    ensures caller == Worker ==> SameData(r, s)
    ensures !s.handlingError ==> !r.handlingError
    decreases Rank(caller), 0, 0
  {
    if !s.run then s
    else
      var blocked := s.buffer == [] && !s.flags[0];
      var s1 := s.(run := false, flags := AllSignaled(|s.flags|));
      if caller == Producer && s.workerPresent then Join(s1, blocked, fault) else s1
  }

  /** `th_loop_->join()`: a worker blocked in `wait()` wakes and finishes its
      iteration, the loop exits and `PostCoreLoop` drains the buffer. */
  function Join(s: State, blocked: bool, fault: Fault): (r: State)
    requires |s.flags| >= 1 && !s.run && s.flags[0]
    ensures !r.run && !r.workerPresent && r.buffer == [] && |r.flags| == |s.flags|
    ensures !s.handlingError ==> !r.handlingError
    decreases 1, 1, 0
  {
    var s1 := if blocked then DefaultCoreLoop(s, fault) else s;
    CleanUpBuffer(s1, fault).(workerPresent := false)
  }

  /** `Close()`. */
  function Close(s: State, caller: Caller, fault: Fault): (r: State)
    requires |s.flags| >= 1
    ensures !r.run && !r.init && |r.flags| == |s.flags|
    ensures caller == Worker ==> SameData(r, s)
    decreases Rank(caller), 1, 0
  {
    StopLoop(s, caller, fault).(init := false)
  }

  /** `handle_error(e)`: stop the loop while flagged as handling an error. */
  function HandleError(s: State, caller: Caller, fault: Fault): (r: State)
    requires |s.flags| >= 1
    ensures !r.run && !r.handlingError && |r.flags| == |s.flags|
    ensures caller == Worker ==> SameData(r, s)
    ensures !s.run ==> r == s.(handlingError := false)
    decreases Rank(caller), 2, 0
  {
    StopLoop(s.(handlingError := true), caller, fault).(handlingError := false)
  }

  /** `handle_critical(e)`: queue the exception, then close. */
  function HandleCritical(s: State, e: Exception, caller: Caller, fault: Fault): (r: State)
    requires |s.flags| >= 1
    ensures !r.run && !r.init && !r.handlingError && |r.flags| == |s.flags|
    ensures caller == Worker ==> SameData(r, s)
    decreases Rank(caller), 2, 0
  {
    Close(s.(handlingError := true, criticalQueue := s.criticalQueue + [e]), caller, fault).(handlingError := false)
  }

  /** `HandleException(e)`: dispatch on the tag; E_UNKNOWN and a missing tag
      take the error hook but report E_UNKNOWN. */
  function HandleException(s: State, e: Exception, caller: Caller, fault: Fault): (r: (ErrorLevel, State))
    requires |s.flags| >= 1
    ensures |r.1.flags| == |s.flags|
    ensures caller == Worker ==> SameData(r.1, s)
    ensures !s.run ==> !r.1.run
    ensures caller == Worker && !s.run ==> r.1.flags == s.flags
    ensures !s.handlingError ==> !r.1.handlingError
    decreases Rank(caller), 3, 0
  {
    match e.level
    case Some(Warning) => (Warning, s)
    case Some(Error) => (Error, HandleError(s, caller, fault))
    case Some(Critical) => (Critical, HandleCritical(s, e, caller, fault))
    case _ => (Unknown, HandleError(s, caller, fault))
  }

  /** `AsyncConsumerTest::GetData`: push to the back of the buffer. */
  function GetData(s: State, data: Frame): State {
    s.(buffer := s.buffer + [data])
  }

  /** `AsyncConsumerTest::LoadDataForProcess`: move the front frame into `loaded_data_`. */
  function LoadDataForProcess(s: State): State
    requires s.buffer != []
  {
    s.(loaded := Some(s.buffer[0]), buffer := s.buffer[1..])
  }

  /** `AsyncConsumerTest::ClearDataBuffer`. */
  function ClearDataBuffer(s: State): State {
    s.(buffer := [])
  }

  /** `ProcessData()` on the loaded frame; returns the exception it throws. */
  function ProcessData(s: State, fault: Fault): (Option<Exception>, State) {
    match s.loaded
    case None => (None, s.(nullFrameProcessed := true))
    case Some(d) => if fault(d).None? then (None, s.(processed := s.processed + [d])) else (fault(d), s)
  }

  /** `DefaultCoreLoop()`. The caller can proceed past `wait()`: the flag is
      set whenever the buffer is empty. */
  function DefaultCoreLoop(s: State, fault: Fault): (r: State)
    requires |s.flags| >= 1 && (s.buffer == [] ==> s.flags[0])
    ensures |r.flags| == |s.flags| && r.workerPresent == s.workerPresent
    ensures !s.run ==> r == s.(flags := s.flags[0 := false])
    ensures s.run ==> r.buffer == (if s.buffer == [] then [] else s.buffer[1..])
    ensures !s.handlingError ==> !r.handlingError
    decreases 1, 0, 0
  {
    var s1 := s.(flags := s.flags[0 := false]);
    if !s1.run then s1
    else
      var s2 := if s1.buffer != [] then LoadDataForProcess(s1) else s1;
      var p := ProcessData(s2, fault);
      if p.0.None? then p.1 else HandleException(p.1, p.0.value, Worker, fault).1
  }

  /** `CleanUpBuffer()`: process what is left; a failure above WARNING
      clears the rest of the buffer. */
  function CleanUpBuffer(s: State, fault: Fault): (r: State)
    requires |s.flags| >= 1 && !s.run
    ensures r.buffer == [] && !r.run && r.flags == s.flags && r.workerPresent == s.workerPresent
    ensures !s.handlingError ==> !r.handlingError
    decreases 1, 0, |s.buffer|
  {
    if s.buffer == [] then s
    else
      var p := ProcessData(LoadDataForProcess(s), fault);
      if p.0.None? then CleanUpBuffer(p.1, fault)
      else
        var h := HandleException(p.1, p.0.value, Worker, fault);
        if h.0 != Warning then ClearDataBuffer(h.1) else CleanUpBuffer(h.1, fault)
  }

  /** One pass of `ConsumerLoop`'s `while (flag_run_)`; if the loop stopped
      itself, the loop exits, `PostCoreLoop` drains and the thread ends. */
  function ConsumerLoopStep(s: State, fault: Fault): State
    requires |s.flags| >= 1 && s.run && (s.buffer == [] ==> s.flags[0])
  {
    var s1 := DefaultCoreLoop(s, fault);
    if s1.run then s1 else CleanUpBuffer(s1, fault).(workerPresent := false)
  }

  /** `PreGetData()`: replay the oldest deferred critical exception, else
      refuse a consumer that is not initialized. */
  function PreGetData(s: State): (Option<Exception>, State) {
    if s.criticalQueue != [] then (Some(s.criticalQueue[0]), s.(criticalQueue := s.criticalQueue[1..]))
    else if !s.init then (Some(NotInitialized), s)
    else (None, s)
  }

  /** `PostGetData()`: restart a stopped loop unless a hook is running;
      rethrow only a CRITICAL failure of that restart. */
  function PostGetData(s: State, spawnFails: bool, fault: Fault): (Option<Exception>, State)
    requires |s.flags| >= 1
  {
    if !s.run && !s.handlingError then
      var st := StartLoop(s, spawnFails);
      if st.0.None? then st
      else
        var h := HandleException(st.1, st.0.value, Producer, fault);
        (if h.0 == Critical then st.0 else None, h.1)
    else (None, s)
  }

  /** `AsyncConsumerTest::ProcessDataAsync(data)`. `enqueueFault` is what
      `GetData` throws, if anything; the guard signals slot 0 either way
      (`notify_and_unlock`, or its destructor's fail-safe notify). */
  function ProcessDataAsync(s: State, data: Frame, enqueueFault: Option<Exception>, spawnFails: bool, fault: Fault)
    : (Option<Exception>, State)
    requires |s.flags| >= 1
  {
    var pre := PreGetData(s);
    if pre.0.Some? then pre
    else if s.handlingError then PostGetData(s, spawnFails, fault)
    else
      var s1 := (if enqueueFault.None? then GetData(s, data) else s).(flags := s.flags[0 := true]);
      if enqueueFault.None? then PostGetData(s1, spawnFails, fault)
      else
        var h := HandleException(s1, enqueueFault.value, Producer, fault);
        if h.0 == Critical then (enqueueFault, h.1) else PostGetData(h.1, spawnFails, fault)
  }

  // ---------------------------------------------------------------------
  // Reference definitions of the drain

  /** A failure that `CleanUpBuffer` treats as more than a warning. */
  predicate Escalates(f: Option<Exception>) {
    f.Some? && f.value.level != Some(Warning)
  }

  /** The frames the drain processes to completion: in buffer order, up to
      the first failure above WARNING; frames failing with a WARNING are skipped. */
  function Delivered(buf: seq<Frame>, fault: Fault): seq<Frame> {
    if buf == [] then []
    else if fault(buf[0]).None? then [buf[0]] + Delivered(buf[1..], fault)
    else if Escalates(fault(buf[0])) then []
    else Delivered(buf[1..], fault)
  }

  /** The first failure above WARNING among the buffered frames. */
  function FirstEscalation(buf: seq<Frame>, fault: Fault): Option<Exception> {
    if buf == [] then None
    else if Escalates(fault(buf[0])) then fault(buf[0])
    else FirstEscalation(buf[1..], fault)
  }

  /** The drain stops at a CRITICAL failure. */
  predicate DrainHitsCritical(buf: seq<Frame>, fault: Fault) {
    var f := FirstEscalation(buf, fault);
    f.Some? && f.value.level == Some(Critical)
  }

  // ---------------------------------------------------------------------
  // Properties of the drain

  /** `CleanUpBuffer` delivers exactly `Delivered(buffer)`, appends the first
      escalated failure to the deferred queue when it is CRITICAL, clears
      `flag_init_` in that case, and leaves the buffer empty. */
  lemma {:induction false} CleanUpBufferEffect(s: State, fault: Fault)
    requires |s.flags| >= 1 && !s.run
    ensures var r := CleanUpBuffer(s, fault);
      && r.processed == s.processed + Delivered(s.buffer, fault)
      && r.criticalQueue == s.criticalQueue + (if DrainHitsCritical(s.buffer, fault) then [FirstEscalation(s.buffer, fault).value] else [])
      && r.init == (s.init && !DrainHitsCritical(s.buffer, fault))
      && r.nullFrameProcessed == s.nullFrameProcessed
    decreases |s.buffer|
  {
    if s.buffer != [] {
      var d := s.buffer[0];
      var s1 := LoadDataForProcess(s);
      assert s1 == s.(loaded := Some(d), buffer := s.buffer[1..]);
      if fault(d).None? {
        var s2 := s1.(processed := s.processed + [d]);
        assert CleanUpBuffer(s, fault) == CleanUpBuffer(s2, fault);
        CleanUpBufferEffect(s2, fault);
      } else if fault(d).value.level == Some(Warning) {
        assert CleanUpBuffer(s, fault) == CleanUpBuffer(s1, fault);
        CleanUpBufferEffect(s1, fault);
      } else {
        DrainEscalation(s, fault);
      }
    }
  }

  /** The step of the drain at a frame failing above WARNING. */
  lemma DrainEscalation(s: State, fault: Fault)
    requires |s.flags| >= 1 && !s.run && s.buffer != [] && Escalates(fault(s.buffer[0]))
    ensures var r := CleanUpBuffer(s, fault);
      && r.processed == s.processed && Delivered(s.buffer, fault) == []
      && FirstEscalation(s.buffer, fault) == fault(s.buffer[0])
      && r.criticalQueue == s.criticalQueue + (if DrainHitsCritical(s.buffer, fault) then [FirstEscalation(s.buffer, fault).value] else [])
      && r.init == (s.init && !DrainHitsCritical(s.buffer, fault))
      && r.nullFrameProcessed == s.nullFrameProcessed
  {
    var d := s.buffer[0];
    var e := fault(d).value;
    var s1 := LoadDataForProcess(s);
    assert CleanUpBuffer(s, fault) == ClearDataBuffer(HandleException(s1, e, Worker, fault).1);
    if e.level == Some(Critical) {
      var s2 := s1.(handlingError := true, criticalQueue := s.criticalQueue + [e]);
      assert HandleException(s1, e, Worker, fault).1 == StopLoop(s2, Worker, fault).(init := false, handlingError := false);
    } else {
      assert HandleException(s1, e, Worker, fault).1 == StopLoop(s1.(handlingError := true), Worker, fault).(handlingError := false);
    }
  }

  /** With no failing frame, the drain processes every buffered frame, in order. */
  lemma {:induction false} DeliveredAllWithoutFaults(buf: seq<Frame>, fault: Fault)
    requires forall i :: 0 <= i < |buf| ==> fault(buf[i]).None?
    ensures Delivered(buf, fault) == buf
    ensures !DrainHitsCritical(buf, fault)
  {
    if buf != [] {
      DeliveredAllWithoutFaults(buf[1..], fault);
    }
  }

  /** Nothing after the first failure above WARNING is processed. */
  lemma {:induction false} DeliveredStopsAtEscalation(buf: seq<Frame>, k: nat, fault: Fault)
    requires k < |buf| && Escalates(fault(buf[k]))
    ensures Delivered(buf, fault) == Delivered(buf[..k], fault)
  {
    if k > 0 {
      assert buf[1..][..k - 1] == buf[..k][1..];
      DeliveredStopsAtEscalation(buf[1..], k - 1, fault);
    }
  }

  /** Every delivered frame was buffered and did not fail. */
  lemma {:induction false} DeliveredFromBuffer(buf: seq<Frame>, fault: Fault)
    ensures |Delivered(buf, fault)| <= |buf|
    ensures forall d :: d in Delivered(buf, fault) ==> d in buf && fault(d).None?
  {
    if buf != [] {
      DeliveredFromBuffer(buf[1..], fault);
    }
  }

  // ---------------------------------------------------------------------
  // Properties of the lifecycle

  /** `start_loop` does nothing while running; otherwise it empties the
      deferred queue, sets `flag_run_` and creates the one worker. */
  lemma StartLoopEffect(s: State)
    requires Idle(s)
    ensures s.run ==> StartLoop(s, false) == (None, s)
    ensures !s.run ==> (!s.workerPresent &&
      StartLoop(s, false) == (None, s.(criticalQueue := [], run := true, workerPresent := true)))
    ensures Idle(StartLoop(s, false).1)
  {
  }

  /** `stop_loop` from the producer: a no-op when stopped, and idempotent.
      Otherwise the worker is joined after draining the buffer, and slot 0
      stays signaled unless the worker was woken from `wait()`, which
      consumes the signal. */
  lemma StopLoopEffect(s: State, fault: Fault)
    requires Idle(s)
    ensures var r := StopLoop(s, Producer, fault);
      && !r.run && Idle(r)
      && StopLoop(r, Producer, fault) == r
      && (!s.run ==> r == s)
      && (s.run ==>
            && !r.workerPresent && r.buffer == []
            && r.flags == [!(s.buffer == [] && !s.flags[0])]
            && r.processed == s.processed + Delivered(s.buffer, fault))
  {
    if s.run {
      var blocked := s.buffer == [] && !s.flags[0];
      var s1 := s.(run := false, flags := AllSignaled(|s.flags|));
      var s2 := if blocked then DefaultCoreLoop(s1, fault) else s1;
      assert s2.buffer == s.buffer && s2.processed == s.processed && !s2.run;
      CleanUpBufferEffect(s2, fault);
    }
  }

  /** `Close` ends uninitialized and stopped, with the worker joined. */
  lemma CloseEffect(s: State, fault: Fault)
    requires Idle(s)
    ensures var r := Close(s, Producer, fault);
      !r.init && !r.run && !r.workerPresent && Idle(r)
  {
    StopLoopEffect(s, fault);
  }

  /** `handle_error` from the producer: the loop ends stopped and the flag
      is back to false; `flag_init_` changes only when the drain hits a
      CRITICAL failure, and nothing changes for a stopped consumer. */
  lemma HandleErrorEffect(s: State, fault: Fault)
    requires Idle(s)
    ensures var r := HandleError(s, Producer, fault);
      && !r.run && !r.handlingError && Idle(r)
      && r.init == (s.init && !(s.run && DrainHitsCritical(s.buffer, fault)))
      && (!s.run ==> r == s)
  {
    if s.run {
      var s0 := s.(handlingError := true);
      var blocked := s0.buffer == [] && !s0.flags[0];
      var s1 := s0.(run := false, flags := AllSignaled(|s0.flags|));
      var s2 := if blocked then DefaultCoreLoop(s1, fault) else s1;
      assert s2.buffer == s.buffer && s2.init == s.init && !s2.run;
      CleanUpBufferEffect(s2, fault);
    }
  }

  /** `handle_critical` from the producer: the exception is appended at the
      back of the deferred queue (the drain may queue one more after it),
      and the consumer ends closed with the flag back to false. */
  lemma HandleCriticalEffect(s: State, e: Exception, fault: Fault)
    requires Idle(s)
    ensures var r := HandleCritical(s, e, Producer, fault);
      && !r.init && !r.run && !r.handlingError && Idle(r)
      && |r.criticalQueue| >= |s.criticalQueue| + 1
      && r.criticalQueue[..|s.criticalQueue| + 1] == s.criticalQueue + [e]
      && (!s.run ==> r.criticalQueue == s.criticalQueue + [e] && r.buffer == s.buffer)
      && (s.run ==> r.buffer == [])
  {
    var s0 := s.(handlingError := true, criticalQueue := s.criticalQueue + [e]);
    if s.run {
      var blocked := s0.buffer == [] && !s0.flags[0];
      var s1 := s0.(run := false, flags := AllSignaled(|s0.flags|));
      var s2 := if blocked then DefaultCoreLoop(s1, fault) else s1;
      assert s2.criticalQueue == s0.criticalQueue && !s2.run;
      CleanUpBufferEffect(s2, fault);
      var q := CleanUpBuffer(s2, fault).criticalQueue;
      assert q[..|s.criticalQueue| + 1] == s.criticalQueue + [e];
    }
  }

  /** The hooks reached on the worker, where no join happens: `handle_error`
      stops the loop and signals every slot, leaving `flag_init_`, the
      buffer and the deferred queue alone; `handle_critical` in addition
      appends exactly one entry and clears `flag_init_`. */
  lemma WorkerHooksEffect(s: State, e: Exception, fault: Fault)
    requires |s.flags| >= 1 && s.run
    ensures var r := HandleError(s, Worker, fault);
      && !r.run && !r.handlingError && r.init == s.init && r.criticalQueue == s.criticalQueue
      && r.buffer == s.buffer && |r.flags| == |s.flags| && forall i :: 0 <= i < |r.flags| ==> r.flags[i]
    ensures var r := HandleCritical(s, e, Worker, fault);
      && !r.run && !r.handlingError && !r.init && r.criticalQueue == s.criticalQueue + [e]
      && r.buffer == s.buffer && |r.flags| == |s.flags| && forall i :: 0 <= i < |r.flags| ==> r.flags[i]
  {
  }

  /** `HandleException` from the producer: WARNING changes nothing; ERROR
      stops; E_UNKNOWN or no tag has exactly ERROR's effect while reporting
      E_UNKNOWN; CRITICAL closes and queues the exception. */
  lemma HandleExceptionEffect(s: State, e: Exception, fault: Fault)
    requires Idle(s)
    ensures var r := HandleException(s, e, Producer, fault);
      && (e.level == Some(Warning) ==> r == (Warning, s))
      && (e.level == Some(Error) ==>
            && r.0 == Error && !r.1.run && Idle(r.1)
            && r.1.init == (s.init && !(s.run && DrainHitsCritical(s.buffer, fault))))
      && (EffectiveLevel(e) == Unknown ==>
            r.0 == Unknown && r.1 == HandleException(s, e.(level := Some(Error)), Producer, fault).1)
      && (e.level == Some(Critical) ==>
            && r.0 == Critical && !r.1.init && !r.1.run && Idle(r.1)
            && |r.1.criticalQueue| > |s.criticalQueue|
            && r.1.criticalQueue[..|s.criticalQueue| + 1] == s.criticalQueue + [e])
  {
    if e.level == Some(Error) {
      HandleErrorEffect(s, fault);
    } else if e.level == Some(Critical) {
      HandleCriticalEffect(s, e, fault);
    }
  }

  /** The level the consumer reports agrees with the status the free
      `handle_exception` returns for the same exception. */
  lemma HandleExceptionAgreesWithPolicy(s: State, e: Exception, caller: Caller, fault: Fault, installed: set<Hook>)
    requires |s.flags| >= 1
    ensures var level := HandleException(s, e, caller, fault).0;
      && (level == Warning <==> ErrorHandling.HandleException(e, installed).status == Continue)
      && (level == Critical <==> ErrorHandling.HandleException(e, installed).status == Rethrow)
      && level == EffectiveLevel(e)
  {
  }

  /** `PreGetData` replays the deferred queue front first, removing exactly
      that entry; an empty queue and no `Init` give the CRITICAL logic error. */
  lemma PreGetDataEffect(s: State)
    ensures s.criticalQueue != [] ==>
      PreGetData(s) == (Some(s.criticalQueue[0]), s.(criticalQueue := s.criticalQueue[1..]))
    ensures s.criticalQueue == [] && !s.init ==>
      PreGetData(s) == (Some(NotInitialized), s) && NotInitialized.level == Some(Critical)
    ensures s.criticalQueue == [] && s.init ==> PreGetData(s) == (None, s)
  {
  }

  /** One iteration of the running loop moves at most one frame, the front
      one, into `loaded_data_` and delivers it unless it fails. Woken with an
      empty buffer, it processes whatever `loaded_data_` still holds. */
  lemma DefaultCoreLoopEffect(s: State, fault: Fault)
    requires |s.flags| >= 1 && s.run && (s.buffer == [] ==> s.flags[0])
    ensures var r := DefaultCoreLoop(s, fault);
      && r.buffer == (if s.buffer == [] then [] else s.buffer[1..])
      && r.loaded == (if s.buffer == [] then s.loaded else Some(s.buffer[0]))
      && (s.buffer != [] && fault(s.buffer[0]).None? ==>
            r.processed == s.processed + [s.buffer[0]] && r.run && r.flags == s.flags[0 := false])
      && (s.buffer != [] && !fault(s.buffer[0]).None? ==> r.processed == s.processed)
      && (s.buffer != [] ==> r.nullFrameProcessed == s.nullFrameProcessed)
      && (s.buffer == [] && s.loaded.Some? && fault(s.loaded.value).None? ==>
            r.processed == s.processed + [s.loaded.value])
      && (s.buffer == [] && s.loaded.None? ==> r.nullFrameProcessed && r.processed == s.processed)
  {
  }

  /** After a CRITICAL failure, a feed replays the queued exception and
      touches neither the buffer nor the lock flags. */
  lemma FeedReplaysDeferredCritical(s: State, data: Frame, enqueueFault: Option<Exception>, spawnFails: bool, fault: Fault)
    requires |s.flags| >= 1 && s.criticalQueue != []
    ensures ProcessDataAsync(s, data, enqueueFault, spawnFails, fault)
         == (Some(s.criticalQueue[0]), s.(criticalQueue := s.criticalQueue[1..]))
  {
  }

  /** A successful feed into an initialized consumer appends the frame at the
      back of the buffer, signals slot 0 and leaves the loop running. */
  lemma FeedEnqueues(s: State, data: Frame, fault: Fault)
    requires Idle(s) && s.criticalQueue == [] && s.init
    ensures var r := ProcessDataAsync(s, data, None, false, fault);
      && r.0 == None && Idle(r.1)
      && r.1 == s.(buffer := s.buffer + [data], flags := [true], run := true, workerPresent := true)
  {
  }

  /** A CRITICAL failure of the enqueue step reaches the caller, and
      `PostGetData` is skipped: the consumer stays closed. */
  lemma FeedPropagatesCriticalEnqueueFailure(s: State, data: Frame, e: Exception, spawnFails: bool, fault: Fault)
    requires Idle(s) && s.criticalQueue == [] && s.init && e.level == Some(Critical)
    ensures var r := ProcessDataAsync(s, data, Some(e), spawnFails, fault);
      && r.0 == Some(e) && !r.1.run && !r.1.init && Idle(r.1)
      && |r.1.criticalQueue| > 0 && r.1.criticalQueue[0] == e
      && r.1.buffer == (if s.run then [] else s.buffer)
  {
    var s1 := s.(flags := s.flags[0 := true]);
    HandleCriticalEffect(s1, e, fault);
  }

  /** A failure below CRITICAL in the enqueue step is absorbed, and
      `PostGetData` restarts the loop. */
  lemma FeedRestartsAfterRecoverableFailure(s: State, data: Frame, e: Exception, fault: Fault)
    requires Idle(s) && s.criticalQueue == [] && s.init && e.level != Some(Critical)
    ensures var r := ProcessDataAsync(s, data, Some(e), false, fault);
      r.0 == None && r.1.run && r.1.workerPresent && r.1.criticalQueue == [] && Idle(r.1)
  {
    var s1 := s.(flags := s.flags[0 := true]);
    if e.level != Some(Warning) {
      HandleErrorEffect(s1, fault);
    }
  }

  /** While a hook runs, a feed enqueues nothing and does not restart. */
  lemma FeedSkipsEnqueueWhileHandling(s: State, data: Frame, enqueueFault: Option<Exception>, spawnFails: bool, fault: Fault)
    requires |s.flags| >= 1 && s.handlingError && s.criticalQueue == [] && s.init
    ensures ProcessDataAsync(s, data, enqueueFault, spawnFails, fault) == (None, s)
  {
  }

  /** `ProcessDataAsync` keeps the between-calls invariant. */
  lemma FeedKeepsIdle(s: State, data: Frame, enqueueFault: Option<Exception>, spawnFails: bool, fault: Fault)
    requires Idle(s)
    ensures Idle(ProcessDataAsync(s, data, enqueueFault, spawnFails, fault).1)
  {
    if PreGetData(s).0.None? {
      var s1 := (if enqueueFault.None? then GetData(s, data) else s).(flags := s.flags[0 := true]);
      assert Idle(s1);
      if enqueueFault.Some? {
        HandleExceptionEffect(s1, enqueueFault.value, fault);
        PostGetDataKeepsIdle(HandleException(s1, enqueueFault.value, Producer, fault).1, spawnFails, fault);
      } else {
        PostGetDataKeepsIdle(s1, spawnFails, fault);
      }
    }
  }

  /** `PostGetData` keeps the between-calls invariant, also when the thread
      cannot be created. */
  lemma PostGetDataKeepsIdle(s: State, spawnFails: bool, fault: Fault)
    requires Idle(s)
    ensures Idle(PostGetData(s, spawnFails, fault).1)
  {
    if !s.run && spawnFails {
      var st := StartLoop(s, spawnFails);
      assert st.1.run && !st.1.workerPresent && !st.1.handlingError;
      assert HandleException(st.1, SpawnFailure, Producer, fault).1 == HandleError(st.1, Producer, fault);
    }
  }

  /** A pass of the worker loop keeps the between-calls invariant: it either
      keeps running or has drained and ended. */
  lemma ConsumerLoopStepKeepsIdle(s: State, fault: Fault)
    requires Idle(s) && s.run && (s.buffer == [] ==> s.flags[0])
    ensures Idle(ConsumerLoopStep(s, fault))
  {
    var s1 := DefaultCoreLoop(s, fault);
    assert !s1.handlingError;
    if !s1.run {
      CleanUpBufferEffect(s1, fault);
    }
  }

  // ---------------------------------------------------------------------
  // Worker-side escalation and scenarios

  /** A frame failing with ERROR on the worker stops the loop from inside:
      the loop exits, the rest of the buffer is drained and the thread
      ends; the consumer stays initialized unless the drain hits CRITICAL.
      In the source the hook's `stop_loop` joins the worker from itself,
      which throws out of the thread function and ends in `std::terminate`;
      the model skips that self-join. */
  lemma WorkerStopsOnError(s: State, fault: Fault)
    requires Idle(s) && s.run && s.buffer != []
    requires fault(s.buffer[0]).Some? && fault(s.buffer[0]).value.level == Some(Error)
    ensures var r := ConsumerLoopStep(s, fault);
      && !r.run && !r.workerPresent && Idle(r) && r.buffer == []
      && r.init == (s.init && !DrainHitsCritical(s.buffer[1..], fault))
      && r.processed == s.processed + Delivered(s.buffer[1..], fault)
  {
    var s1 := LoadDataForProcess(s.(flags := s.flags[0 := false]));
    var h := HandleError(s1, Worker, fault);
    assert DefaultCoreLoop(s, fault) == h;
    assert h.buffer == s.buffer[1..] && h.init == s.init && h.processed == s.processed;
    CleanUpBufferEffect(h, fault);
  }

  /** Feeding three frames where the second fails with WARNING: the first
      and third are processed in order, the loop keeps running and the
      buffer ends empty. */
  lemma WarningScenario(d1: Frame, d2: Frame, d3: Frame, w: Exception, fault: Fault)
    requires fault(d1).None? && fault(d2) == Some(w) && w.level == Some(Warning) && fault(d3).None?
    ensures
      var a := ProcessDataAsync(Init(Fresh()), d1, None, false, fault);
      var b := ProcessDataAsync(a.1, d2, None, false, fault);
      var c := ProcessDataAsync(b.1, d3, None, false, fault);
      && a.0 == None && b.0 == None && c.0 == None
      && c.1.run && c.1.buffer == [d1, d2, d3] && |c.1.flags| == 1
      && var t1 := ConsumerLoopStep(c.1, fault);
      && t1.run && t1.buffer == [d2, d3] && |t1.flags| == 1
      && var t2 := ConsumerLoopStep(t1, fault);
      && t2.run && t2.buffer == [d3] && |t2.flags| == 1
      && var r := ConsumerLoopStep(t2, fault);
      && r.processed == [d1, d3] && r.run && r.init && r.buffer == [] && r.criticalQueue == []
  {
    var s0 := Init(Fresh());
    FeedEnqueues(s0, d1, fault);
    var a := ProcessDataAsync(s0, d1, None, false, fault);
    FeedEnqueues(a.1, d2, fault);
    var b := ProcessDataAsync(a.1, d2, None, false, fault);
    FeedEnqueues(b.1, d3, fault);
    var c := ProcessDataAsync(b.1, d3, None, false, fault);
    assert c.1.buffer == [d1, d2, d3] && c.1.processed == [];
    var t1 := ConsumerLoopStep(c.1, fault);
    assert t1 == c.1.(flags := [false], buffer := [d2, d3], loaded := Some(d1), processed := [d1]);
    assert t1.flags[0 := false] == [false];
    var u := LoadDataForProcess(t1.(flags := t1.flags[0 := false]));
    assert u == t1.(buffer := [d3], loaded := Some(d2));
    assert ProcessData(u, fault) == (Some(w), u);
    assert HandleException(u, w, Worker, fault) == (Warning, u);
    assert DefaultCoreLoop(t1, fault) == u;
    var t2 := ConsumerLoopStep(t1, fault);
    assert t2 == u;
    var t3 := ConsumerLoopStep(t2, fault);
    assert t3 == t2.(buffer := [], loaded := Some(d3), processed := [d1, d3]);
  }

  /** Feeding one frame whose processing fails with CRITICAL closes the
      consumer; the next feed rethrows that same failure without touching
      the buffer, the one after it refuses the uninitialized consumer.
      As in `WorkerStopsOnError`, the source would reach `std::terminate`
      through the hook's self-join on the worker, which is not modelled. */
  lemma CriticalScenario(d: Frame, d2: Frame, d3: Frame, e: Exception, fault: Fault)
    requires fault(d) == Some(e) && e.level == Some(Critical)
    ensures
      var a := ProcessDataAsync(Init(Fresh()), d, None, false, fault);
      var closed := ConsumerLoopStep(a.1, fault);
      var b := ProcessDataAsync(closed, d2, None, false, fault);
      var c := ProcessDataAsync(b.1, d3, None, false, fault);
      && a.0 == None
      && !closed.init && !closed.run && !closed.workerPresent && closed.criticalQueue == [e]
      && b.0 == Some(e) && b.1 == closed.(criticalQueue := [])
      && c.0 == Some(NotInitialized) && c.1 == b.1
      && c.1.processed == [] && c.1.buffer == []
  {
    var s0 := Init(Fresh());
    FeedEnqueues(s0, d, fault);
    var a := ProcessDataAsync(s0, d, None, false, fault);
    var s1 := LoadDataForProcess(a.1.(flags := [false]));
    var s2 := s1.(handlingError := true, criticalQueue := [e]);
    var h := StopLoop(s2, Worker, fault).(init := false, handlingError := false);
    assert DefaultCoreLoop(a.1, fault) == h;
    assert h == s1.(run := false, flags := [true], criticalQueue := [e], init := false);
  }

  /** No stale signal: while the loop runs with an empty buffer, slot 0 is
      not signaled, so the worker's next pass starts only once a frame has
      arrived. Between whole calls, only a failed enqueue breaks it (the
      guard still notifies), see `FailedEnqueueRedeliversStaleFrame`; inside
      a feed, the late `notify()` of `notify_and_unlock` breaks it too, see
      `LateNotifyRedeliversFrame`. */
  predicate Quiet(s: State) {
    |s.flags| >= 1 && (s.run && s.buffer == [] ==> !s.flags[0])
  }

  lemma FreshIsQuiet()
    ensures Quiet(Fresh()) && Quiet(Init(Fresh()))
  {
  }

  /** A feed whose enqueue succeeds keeps `Quiet` and the frame order: the
      processed frames followed by the buffer gain the new frame at the end,
      or stay as they were when the feed is refused by `PreGetData`. */
  lemma FeedPreservesOrder(s: State, data: Frame, fault: Fault)
    requires Idle(s) && Quiet(s)
    ensures var r := ProcessDataAsync(s, data, None, false, fault).1;
      && Quiet(r) && Idle(r)
      && (s.criticalQueue == [] && s.init ==> r.processed + r.buffer == s.processed + s.buffer + [data])
      && (!(s.criticalQueue == [] && s.init) ==> r.processed + r.buffer == s.processed + s.buffer)
  {
    if s.criticalQueue == [] && s.init {
      FeedEnqueues(s, data, fault);
    }
  }

  /** A worker pass that can proceed from a `Quiet` state has a frame to
      take; with no failing frame it delivers the front frame, keeps the
      loop running and keeps `Quiet`. `OrderOverRuns` chains this with
      `FeedPreservesOrder` over whole-call interleavings; the window inside
      `notify_and_unlock` falls outside it, see `LateNotifyRedeliversFrame`. */
  lemma StepPreservesOrder(s: State, fault: Fault)
    requires Idle(s) && Quiet(s) && s.run && (s.buffer == [] ==> s.flags[0])
    requires forall i :: 0 <= i < |s.buffer| ==> fault(s.buffer[i]).None?
    ensures s.buffer != []
    ensures var r := ConsumerLoopStep(s, fault);
      && r.run && Idle(r) && Quiet(r)
      && r.init == s.init && r.criticalQueue == s.criticalQueue
      && r.processed + r.buffer == s.processed + s.buffer
      && forall i :: 0 <= i < |r.buffer| ==> fault(r.buffer[i]).None?
  {
    DefaultCoreLoopEffect(s, fault);
    assert s.buffer == [s.buffer[0]] + s.buffer[1..];
  }

  /** A failed enqueue still signals slot 0 through the guard's fail-safe
      notify, so a worker that has emptied the buffer wakes with nothing new
      and processes the frame it loaded last a second time. */
  lemma FailedEnqueueRedeliversStaleFrame(d1: Frame, d2: Frame, w: Exception, fault: Fault)
    requires fault(d1).None? && w.level == Some(Warning)
    ensures
      var a := ProcessDataAsync(Init(Fresh()), d1, None, false, fault);
      && a.1.run && a.1.buffer == [d1] && |a.1.flags| == 1
      && var t := ConsumerLoopStep(a.1, fault);
      && t.run && t.buffer == [] && t.processed == [d1] && Quiet(t)
      && var b := ProcessDataAsync(t, d2, Some(w), false, fault);
      && b.0 == None && b.1.run && b.1.buffer == [] && |b.1.flags| == 1 && b.1.flags[0] && !Quiet(b.1)
      && var u := ConsumerLoopStep(b.1, fault);
      && u.processed == [d1, d1] && u.buffer == [] && u.run
  {
    var s0 := Init(Fresh());
    FeedEnqueues(s0, d1, fault);
    var a := ProcessDataAsync(s0, d1, None, false, fault);
    var t := ConsumerLoopStep(a.1, fault);
    assert t == a.1.(flags := [false], buffer := [], loaded := Some(d1), processed := [d1]);
    var b := ProcessDataAsync(t, d2, Some(w), false, fault);
    assert HandleException(t.(flags := [true]), w, Producer, fault) == (Warning, t.(flags := [true]));
    assert b == (None, t.(flags := [true]));
    assert b.1.flags[0 := false] == [false];
    var u := ConsumerLoopStep(b.1, fault);
    assert u == t.(processed := [d1, d1]);
  }

  // ---------------------------------------------------------------------
  // Feed order over whole-call interleavings

  /** One call of either thread: a feed whose enqueue succeeds, or one pass
      of the worker loop. */
  datatype Event = Feed(data: Frame) | Pass

  /** A pass happens only while the worker runs and `wait()` would return;
      otherwise the worker stays blocked and nothing changes. */
  function Apply(s: State, e: Event, fault: Fault): State {
    if |s.flags| == 0 then s
    else
      match e
      case Feed(d) => ProcessDataAsync(s, d, None, false, fault).1
      case Pass => if s.run && (s.buffer == [] ==> s.flags[0]) then ConsumerLoopStep(s, fault) else s
  }

  /** The state after the events, in order. */
  function Run(s: State, evs: seq<Event>, fault: Fault): State
    decreases |evs|
  {
    if evs == [] then s else Run(Apply(s, evs[0], fault), evs[1..], fault)
  }

  /** The frames fed, in feed order. */
  function Fed(evs: seq<Event>): seq<Frame>
    decreases |evs|
  {
    if evs == [] then []
    else (if evs[0].Feed? then [evs[0].data] else []) + Fed(evs[1..])
  }

  /** The invariant of a failure-free run: initialized with nothing
      deferred, idle between calls, `Quiet`, and no buffered frame fails. */
  predicate Steady(s: State, fault: Fault) {
    Idle(s) && Quiet(s) && s.init && s.criticalQueue == [] && NoneFail(s.buffer, fault)
  }

  /** One event keeps `Steady` and appends what it feeds. */
  lemma ApplyPreservesOrder(s: State, e: Event, fault: Fault)
    requires Steady(s, fault)
    requires e.Feed? ==> fault(e.data).None?
    ensures var r := Apply(s, e, fault);
      && Steady(r, fault)
      && r.processed + r.buffer == s.processed + s.buffer + (if e.Feed? then [e.data] else [])
  {
    if e.Feed? {
      FeedEnqueues(s, e.data, fault);
    } else if s.run && (s.buffer == [] ==> s.flags[0]) {
      StepPreservesOrder(s, fault);
    }
  }

  lemma RunUnfold(s: State, evs: seq<Event>, fault: Fault)
    requires evs != []
    ensures Run(s, evs, fault) == Run(Apply(s, evs[0], fault), evs[1..], fault)
  {
  }

  /** No frame of `frames` fails. */
  predicate NoneFail(frames: seq<Frame>, fault: Fault) {
    forall i :: 0 <= i < |frames| ==> fault(frames[i]).None?
  }

  lemma NoneFailSplit(a: seq<Frame>, b: seq<Frame>, fault: Fault)
    requires NoneFail(a + b, fault)
    ensures NoneFail(a, fault) && NoneFail(b, fault)
  {
    forall i | 0 <= i < |a|
      ensures fault(a[i]).None?
    {
      assert a[i] == (a + b)[i];
    }
    forall i | 0 <= i < |b|
      ensures fault(b[i]).None?
    {
      assert b[i] == (a + b)[|a| + i];
    }
  }

  /** The first event's frame, if any, leads `Fed`, and a failure-free feed
      list stays failure-free without its first event. */
  lemma FedSplit(evs: seq<Event>, fault: Fault)
    requires evs != [] && NoneFail(Fed(evs), fault)
    ensures Fed(evs) == (if evs[0].Feed? then [evs[0].data] else []) + Fed(evs[1..])
    ensures evs[0].Feed? ==> fault(evs[0].data).None?
    ensures NoneFail(Fed(evs[1..]), fault)
  {
    var head := if evs[0].Feed? then [evs[0].data] else [];
    assert Fed(evs) == head + Fed(evs[1..]);
    NoneFailSplit(head, Fed(evs[1..]), fault);
    if evs[0].Feed? {
      assert head[0] == evs[0].data;
    }
  }

  /** Over any interleaving of whole-call feeds and passes in which no frame
      fails, the processed frames followed by the buffer are the frames
      already there followed by the frames fed, and the consumer stays
      `Steady`. */
  lemma {:induction false} OrderOverRuns(s: State, evs: seq<Event>, fault: Fault)
    requires Steady(s, fault)
    requires NoneFail(Fed(evs), fault)
    ensures var r := Run(s, evs, fault);
      && Steady(r, fault)
      && r.processed + r.buffer == s.processed + s.buffer + Fed(evs)
    decreases |evs|
  {
    if evs != [] {
      FedSplit(evs, fault);
      ApplyPreservesOrder(s, evs[0], fault);
      var s1 := Apply(s, evs[0], fault);
      OrderOverRuns(s1, evs[1..], fault);
      RunUnfold(s, evs, fault);
    }
  }

  /** From a newly initialized consumer, the frames are processed in feed
      order, each once: the processed frames are a prefix of those fed. */
  lemma OrderFromStart(evs: seq<Event>, fault: Fault)
    requires NoneFail(Fed(evs), fault)
    ensures var r := Run(Init(Fresh()), evs, fault);
      && Steady(r, fault)
      && r.processed + r.buffer == Fed(evs)
      && r.processed == Fed(evs)[..|r.processed|]
  {
    OrderOverRuns(Init(Fresh()), evs, fault);
    var r := Run(Init(Fresh()), evs, fault);
    assert (r.processed + r.buffer)[..|r.processed|] == r.processed;
  }

  // ---------------------------------------------------------------------
  // The feed as written: the window inside notify_and_unlock

  /** The successful feed of `ProcessDataAsync` up to the point where
      `SafeLockUp::notify_and_unlock` has set slot 0's flag and released the
      mutex, but has not yet called `notify()`. */
  function FeedUntilUnlock(s: State, data: Frame): (r: State)
    requires |s.flags| >= 1
    ensures r.buffer == s.buffer + [data] && |r.flags| == |s.flags| && r.flags[0]
  {
    GetData(s, data).(flags := s.flags[0 := true])
  }

  /** The rest of that feed: `notify()` sets slot 0's flag again, now without
      holding the mutex, and `PostGetData` follows. */
  function FeedAfterUnlock(s: State, fault: Fault): (r: State)
    requires |s.flags| >= 1
  {
    PostGetData(s.(flags := s.flags[0 := true]), false, fault).1
  }

  /** With nothing run in the window, the two halves are the whole-call feed. */
  lemma SplitFeedComposes(s: State, data: Frame, fault: Fault)
    requires Idle(s) && s.criticalQueue == [] && s.init
    ensures FeedAfterUnlock(FeedUntilUnlock(s, data), fault) == ProcessDataAsync(s, data, None, false, fault).1
  {
    FeedEnqueues(s, data, fault);
  }

  /** The code as written: feed d1 and let the worker process it; feed d2,
      and let a worker pass take the mutex between the unlock and the
      `notify()` of `notify_and_unlock`. That pass consumes the signal and
      processes d2; the late `notify()` then signals an empty buffer, and the
      next pass processes d2 a second time, although no enqueue failed. */
  lemma LateNotifyRedeliversFrame(d1: Frame, d2: Frame, fault: Fault)
    requires fault(d1).None? && fault(d2).None?
    ensures
      var a := ProcessDataAsync(Init(Fresh()), d1, None, false, fault);
      && a.1.run && a.1.buffer == [d1] && |a.1.flags| == 1
      && var t := ConsumerLoopStep(a.1, fault);
      && t.run && t.buffer == [] && t.processed == [d1] && |t.flags| == 1 && Quiet(t)
      && var h := FeedUntilUnlock(t, d2);
      && h.run && h.buffer == [d2]
      && var w := ConsumerLoopStep(h, fault);
      && w.processed == [d1, d2] && w.buffer == [] && |w.flags| == 1 && Quiet(w)
      && var n := FeedAfterUnlock(w, fault);
      && n.run && n.buffer == [] && |n.flags| == 1 && n.flags[0] && !Quiet(n)
      && var u := ConsumerLoopStep(n, fault);
      && u.processed == [d1, d2, d2] && u.buffer == []
  {
    var s0 := Init(Fresh());
    FeedEnqueues(s0, d1, fault);
    var a := ProcessDataAsync(s0, d1, None, false, fault);
    var t := ConsumerLoopStep(a.1, fault);
    assert t == a.1.(flags := [false], buffer := [], loaded := Some(d1), processed := [d1]);
    var h := FeedUntilUnlock(t, d2);
    assert h == t.(buffer := [d2], flags := [true]);
    var w := ConsumerLoopStep(h, fault);
    assert w == t.(loaded := Some(d2), processed := [d1, d2]);
    var n := FeedAfterUnlock(w, fault);
    assert n == w.(flags := [true]);
    assert n.flags[0 := false] == [false];
    var u := ConsumerLoopStep(n, fault);
    assert u == w.(processed := [d1, d2, d2]);
  }

  // ---------------------------------------------------------------------
  // Replay order of the deferred queue

  /** What `k` successive `PreGetData` calls raise, in call order. */
  function Replayed(s: State, k: nat): seq<Option<Exception>>
    decreases k
  {
    if k == 0 then [] else var p := PreGetData(s); [p.0] + Replayed(p.1, k - 1)
  }

  /** The deferred queue is replayed first in, first out: the i-th of the
      next k feeds raises the i-th queued exception, and afterwards exactly
      those k entries are gone. */
  lemma {:induction false} PreGetDataReplaysInOrder(s: State, k: nat)
    requires k <= |s.criticalQueue|
    ensures |Replayed(s, k)| == k
    ensures forall i :: 0 <= i < k ==> Replayed(s, k)[i] == Some(s.criticalQueue[i])
    decreases k
  {
    if k > 0 {
      var p := PreGetData(s);
      assert p.1.criticalQueue == s.criticalQueue[1..];
      PreGetDataReplaysInOrder(p.1, k - 1);
    }
  }
}
