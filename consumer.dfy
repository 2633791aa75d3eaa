/** `AsyncConsumer` with the buffer of `AsyncConsumerTest`, as a class whose
    methods update its fields in place and take slot 0 of a `Locks` through
    `SafeLockUp` guards. Each method is proved to perform exactly the
    transition of the same name in `ConsumerModel` on `Abstract()`, so the
    properties proved there hold of this class. */
module Consumer {

  import opened Wrappers
  import opened ErrorHandling
  import opened Locking
  import M = ConsumerModel

  class AsyncConsumerTest {
    var init: bool
    var run: bool
    var handlingError: bool
    var criticalQueue: seq<Exception>
    /** A worker thread exists (`th_loop_` holds a thread not yet joined). */
    var workerPresent: bool
    const lockDataTransfer: Locks
    /** `queue_data_buffer_`, front first. */
    var buffer: seq<M.Frame>
    /** `loaded_data_`; None while it is still a null pointer. */
    var loaded: Option<M.Frame>
    /** The frames `ProcessData` completed on, in order. */
    var processed: seq<M.Frame>
    var nullFrameProcessed: bool
    const width: int
    const height: int
    /** How `ProcessData` fails on a frame. */
    const fault: M.Fault

    ghost predicate Valid()
      reads this, lockDataTransfer, lockDataTransfer.locked
    {
      lockDataTransfer.Valid() && lockDataTransfer.n == 1 && !lockDataTransfer.locked[0]
    }

    ghost function Abstract(): M.State
      reads this, lockDataTransfer, lockDataTransfer.flag
    {
      M.State(init, run, handlingError, criticalQueue, workerPresent, lockDataTransfer.flag[..],
              buffer, loaded, processed, nullFrameProcessed)
    }

    constructor (width: int, height: int, fault: M.Fault)
      ensures Valid() && Abstract() == M.Fresh() && fresh(lockDataTransfer)
      ensures this.width == width && this.height == height && this.fault == fault
    {
      this.width := width;
      this.height := height;
      this.fault := fault;
      init, run, handlingError, criticalQueue, workerPresent := false, false, false, [], false;
      buffer, loaded, processed, nullFrameProcessed := [], None, [], false;
      lockDataTransfer := new Locks(1);
      new;
      assert lockDataTransfer.flag[..] == [false];
    }

    predicate IsDataBufferEmpty()
      reads this
    {
      buffer == []
    }

    /** The test consumer waits exactly when its buffer is empty. */
    predicate IsNeedWaitForData()
      reads this
    {
      IsDataBufferEmpty()
    }

    method Init()
      requires Valid()
      modifies this
      ensures Valid() && Abstract() == M.Init(old(Abstract()))
    {
      init := true;
    }

    method StartLoop(spawnFails: bool) returns (failure: Option<Exception>)
      requires Valid()
      modifies this
      ensures Valid() && (failure, Abstract()) == M.StartLoop(old(Abstract()), spawnFails)
    {
      failure := None;
      if !run {
        criticalQueue := [];
        run := true;
        if spawnFails {
          failure := Some(M.SpawnFailure);
        } else {
          workerPresent := true;
        }
      }
    }

    method StopLoop(caller: M.Caller)
      requires Valid()
      modifies this, lockDataTransfer.flag, lockDataTransfer.locked
      ensures Valid() && Abstract() == M.StopLoop(old(Abstract()), caller, fault)
      decreases M.Rank(caller), 0, 0
    {
      if run {
        var blocked := buffer == [] && !lockDataTransfer.flag[0];
        run := false;
        lockDataTransfer.NotifyAll();
        assert lockDataTransfer.flag[..] == M.AllSignaled(1);
        if caller == M.Producer && workerPresent {
          Join(blocked);
        }
      }
    }

    /** `th_loop_->join()`: the worker finishes its pass, leaves the loop and
        runs `PostCoreLoop`. */
    method Join(blocked: bool)
      requires Valid() && !run && lockDataTransfer.flag[0]
      modifies this, lockDataTransfer.flag, lockDataTransfer.locked
      ensures Valid() && Abstract() == M.Join(old(Abstract()), blocked, fault)
      decreases 1, 1, 0
    {
      if blocked {
        DefaultCoreLoop();
      }
      CleanUpBuffer();
      workerPresent := false;
    }

    method Close(caller: M.Caller)
      requires Valid()
      modifies this, lockDataTransfer.flag, lockDataTransfer.locked
      ensures Valid() && Abstract() == M.Close(old(Abstract()), caller, fault)
      decreases M.Rank(caller), 1, 0
    {
      StopLoop(caller);
      init := false;
    }

    method HandleError(caller: M.Caller)
      requires Valid()
      modifies this, lockDataTransfer.flag, lockDataTransfer.locked
      ensures Valid() && Abstract() == M.HandleError(old(Abstract()), caller, fault)
      decreases M.Rank(caller), 2, 0
    {
      handlingError := true;
      StopLoop(caller);
      handlingError := false;
    }

    method HandleCritical(e: Exception, caller: M.Caller)
      requires Valid()
      modifies this, lockDataTransfer.flag, lockDataTransfer.locked
      ensures Valid() && Abstract() == M.HandleCritical(old(Abstract()), e, caller, fault)
      decreases M.Rank(caller), 2, 0
    {
      handlingError := true;
      criticalQueue := criticalQueue + [e];
      Close(caller);
      handlingError := false;
    }

    method HandleException(e: Exception, caller: M.Caller) returns (level: ErrorLevel)
      requires Valid()
      modifies this, lockDataTransfer.flag, lockDataTransfer.locked
      ensures Valid() && (level, Abstract()) == M.HandleException(old(Abstract()), e, caller, fault)
      decreases M.Rank(caller), 3, 0
    {
      match e.level
      case Some(Warning) =>
        // handle_warning is an empty hook
        level := Warning;
      case Some(Error) =>
        HandleError(caller);
        level := Error;
      case Some(Critical) =>
        HandleCritical(e, caller);
        level := Critical;
      case _ =>
        HandleError(caller);
        level := Unknown;
    }

    method GetData(data: M.Frame)
      modifies this
      ensures buffer == old(buffer) + [data]
      ensures Abstract() == M.GetData(old(Abstract()), data)
    {
      buffer := buffer + [data];
    }

    method LoadDataForProcess()
      requires buffer != []
      modifies this
      ensures loaded.Some? && old(buffer) == [loaded.value] + buffer
      ensures Abstract() == M.LoadDataForProcess(old(Abstract()))
    {
      loaded := Some(buffer[0]);
      buffer := buffer[1..];
    }

    method ClearDataBuffer()
      modifies this
      ensures buffer == []
      ensures Abstract() == M.ClearDataBuffer(old(Abstract()))
    {
      buffer := [];
    }

    method ProcessData() returns (failure: Option<Exception>)
      modifies this
      ensures (failure, Abstract()) == M.ProcessData(old(Abstract()), fault)
    {
      failure := None;
      match loaded
      case None =>
        nullFrameProcessed := true;
      case Some(d) =>
        if fault(d).None? {
          processed := processed + [d];
        } else {
          failure := fault(d);
        }
    }

    method DefaultCoreLoop()
      requires Valid() && (buffer == [] ==> lockDataTransfer.flag[0])
      modifies this, lockDataTransfer.flag, lockDataTransfer.locked
      ensures Valid() && Abstract() == M.DefaultCoreLoop(old(Abstract()), fault)
      decreases 1, 0, 0
    {
      var failure: Option<Exception> := None;
      var lock := new SafeLockUp(lockDataTransfer, 0);
      if IsNeedWaitForData() {
        lock.Wait();
      } else {
        lock.SignalOff();
      }
      if !run {
        lock.Destruct();
        return;
      }
      if !IsDataBufferEmpty() {
        LoadDataForProcess();
      }
      lock.Unlock();
      if run {
        failure := ProcessData();
      }
      lock.Destruct();
      if failure.Some? {
        var _ := HandleException(failure.value, M.Worker);
      }
    }

    method CleanUpBuffer()
      requires Valid() && !run
      modifies this, lockDataTransfer.flag, lockDataTransfer.locked
      ensures Valid() && Abstract() == M.CleanUpBuffer(old(Abstract()), fault)
      decreases 1, 0, |buffer|
    {
      while !IsDataBufferEmpty()
        invariant Valid() && !run
        invariant M.CleanUpBuffer(Abstract(), fault) == M.CleanUpBuffer(old(Abstract()), fault)
        decreases |buffer|
      {
        LoadDataForProcess();
        var failure := ProcessData();
        if failure.Some? {
          var level := HandleException(failure.value, M.Worker);
          if level != Warning {
            ClearDataBuffer();
          }
        }
      }
    }

    /** One pass of `ConsumerLoop`; when the loop has stopped, the thread
        drains the buffer and ends. */
    method ConsumerLoopStep()
      requires Valid() && run && (buffer == [] ==> lockDataTransfer.flag[0])
      modifies this, lockDataTransfer.flag, lockDataTransfer.locked
      ensures Valid() && Abstract() == M.ConsumerLoopStep(old(Abstract()), fault)
    {
      DefaultCoreLoop();
      if !run {
        CleanUpBuffer();
        workerPresent := false;
      }
    }

    method PreGetData() returns (failure: Option<Exception>)
      requires Valid()
      modifies this
      ensures Valid() && (failure, Abstract()) == M.PreGetData(old(Abstract()))
    {
      failure := None;
      if criticalQueue != [] {
        failure := Some(criticalQueue[0]);
        criticalQueue := criticalQueue[1..];
      } else if !init {
        failure := Some(M.NotInitialized);
      }
    }

    method PostGetData(spawnFails: bool) returns (failure: Option<Exception>)
      requires Valid()
      modifies this, lockDataTransfer.flag, lockDataTransfer.locked
      ensures Valid() && (failure, Abstract()) == M.PostGetData(old(Abstract()), spawnFails, fault)
    {
      failure := None;
      if !run && !handlingError {
        var startFailure := StartLoop(spawnFails);
        if startFailure.Some? {
          var level := HandleException(startFailure.value, M.Producer);
          if level == Critical {
            failure := startFailure;
          }
        }
      }
    }

    /** `enqueueFault` is what `GetData` throws, if anything. */
    method ProcessDataAsync(data: M.Frame, enqueueFault: Option<Exception>, spawnFails: bool)
      returns (failure: Option<Exception>)
      requires Valid()
      modifies this, lockDataTransfer.flag, lockDataTransfer.locked
      ensures Valid()
      ensures (failure, Abstract()) == M.ProcessDataAsync(old(Abstract()), data, enqueueFault, spawnFails, fault)
    {
      failure := PreGetData();
      if failure.Some? {
        return;
      }
      var enqueueFailure: Option<Exception> := None;
      if !handlingError {
        var lock := new SafeLockUp(lockDataTransfer, 0);
        if enqueueFault.None? {
          GetData(data);
          lock.NotifyAndUnlock();
        } else {
          // GetData threw: unwinding runs the guard's destructor
          enqueueFailure := enqueueFault;
        }
        lock.Destruct();
      }
      if enqueueFailure.Some? {
        var level := HandleException(enqueueFailure.value, M.Producer);
        if level == Critical {
          failure := enqueueFailure;
          return;
        }
      }
      failure := PostGetData(spawnFails);
    }
  }
}
