/** `Worker.Builder`: collects the work queue, the number of worker threads, the mode and
    the callback, checking each value as it is set. */
module WorkerBuilder {
  import opened Errors

  const MaxThreadSize := 100
  const ModeAtomicWork := 0
  const ModeListWork := 1
  const DefaultThreadSize := 10

  /** A caller-supplied callback, seen only through the work interfaces it implements:
      `IAtomicWork` (one item per call) and `IListWork` (one segment per call). */
  datatype Callback = Callback(atomicWork: bool, listWork: bool)

  /** What `build()` hands to the worker: the builder's fields when it was called. */
  datatype Config<E> = Config(workQueue: seq<E>, totalThreadSize: int, mode: int, callback: Option<Callback>)
  {
    /** The thread count is one the builder accepts. */
    predicate Valid() {
      1 <= totalThreadSize < MaxThreadSize
    }
  }

  class Builder<E> {
    var workQueue: Option<seq<E>>
    var totalThreadSize: int
    var callback: Option<Callback>
    var mode: int

    /** What the guarded setters keep true of the fields. */
    ghost predicate Valid()
      reads this
    {
      1 <= totalThreadSize < MaxThreadSize
      && (mode == ModeAtomicWork || mode == ModeListWork)
      && (callback.Some? ==> callback.value.atomicWork || callback.value.listWork)
    }

    /** No work, 10 threads, atomic mode, no callback. */
    constructor ()
      ensures Valid()
      ensures workQueue == None && totalThreadSize == 10 && mode == 0 && callback == None
    {
      workQueue := None;
      totalThreadSize := DefaultThreadSize;
      callback := None;
      mode := ModeAtomicWork;
    }

    /** `setWork`: a null list is rejected and leaves the builder as it was. */
    method SetWork(work: Option<seq<E>>) returns (r: Outcome)
      requires Valid()
      modifies this`workQueue
      ensures Valid()
      ensures r.Pass? <==> work.Some?
      ensures r.Fail? ==> r.error == IllegalArgument && workQueue == old(workQueue)
      ensures r.Pass? ==> workQueue == work
    {
      if work.None? {
        return Fail(IllegalArgument);
      }
      workQueue := work;
      r := Pass;
    }

    /** `setTotalThreadSize`: only 1 to 99 threads are accepted. */
    method SetTotalThreadSize(size: int) returns (r: Outcome)
      requires Valid()
      modifies this`totalThreadSize
      ensures Valid()
      ensures r.Pass? <==> 1 <= size <= 99
      ensures r.Fail? ==> r.error == IllegalArgument && totalThreadSize == old(totalThreadSize)
      ensures r.Pass? ==> totalThreadSize == size
    {
      if size > 0 && size < MaxThreadSize {
        totalThreadSize := size;
        r := Pass;
      } else {
        r := Fail(IllegalArgument);
      }
    }

    /** `setMode`: only the atomic (0) and list (1) modes are accepted. */
    method SetMode(newMode: int) returns (r: Outcome)
      requires Valid()
      modifies this`mode
      ensures Valid()
      ensures r.Pass? <==> newMode == 0 || newMode == 1
      ensures r.Fail? ==> r.error == IllegalArgument && mode == old(mode)
      ensures r.Pass? ==> mode == newMode
    {
      if newMode != ModeAtomicWork && newMode != ModeListWork {
        r := Fail(IllegalArgument);
      } else {
        mode := newMode;
        r := Pass;
      }
    }

    /** `setCallback`: the callback must implement at least one of the two work
        interfaces; null implements neither. */
    method SetCallback(cb: Option<Callback>) returns (r: Outcome)
      requires Valid()
      modifies this`callback
      ensures Valid()
      ensures r.Pass? <==> cb.Some? && (cb.value.atomicWork || cb.value.listWork)
      ensures r.Fail? ==> r.error == IllegalArgument && callback == old(callback)
      ensures r.Pass? ==> callback == cb
    {
      if cb.Some? && (cb.value.atomicWork || cb.value.listWork) {
        callback := cb;
        r := Pass;
      } else {
        r := Fail(IllegalArgument);
      }
    }

    /** `build`: fails exactly when no work was set; otherwise the configuration carries
        the builder's fields, with a thread count and mode the setters accepted. */
    method Build() returns (r: Result<Config<E>>)
      requires Valid()
      ensures r.Failure? <==> workQueue.None?
      ensures r.Failure? ==> r.error == IllegalArgument
      ensures r.Success? ==> r.value.workQueue == workQueue.value && r.value.callback == callback
      ensures r.Success? ==> r.value.totalThreadSize == totalThreadSize && r.value.mode == mode
      ensures r.Success? ==> r.value.Valid() && (r.value.mode == 0 || r.value.mode == 1)
    {
      if workQueue.Some? {
        r := Success(Config(workQueue.value, totalThreadSize, mode, callback));
      } else {
        r := Failure(IllegalArgument);
      }
    }
  }

  /** A sequence of builder calls: `Build` without work fails; thread counts 100 and 0 are
      rejected and leave the default 10; 99 is accepted; with work set, `Build` succeeds in
      the default atomic mode. */
  method BuilderScenario()
  {
    var b := new Builder<int>();
    var r := b.Build();
    assert r == Failure(IllegalArgument);
    var o := b.SetTotalThreadSize(100);
    assert o.Fail? && b.totalThreadSize == 10;
    o := b.SetTotalThreadSize(0);
    assert o.Fail? && b.totalThreadSize == 10;
    o := b.SetTotalThreadSize(99);
    assert o.Pass? && b.totalThreadSize == 99;
    o := b.SetWork(Some([1, 2, 3]));
    r := b.Build();
    assert r.Success? && r.value.workQueue == [1, 2, 3] && r.value.mode == ModeAtomicWork;
  }
}
