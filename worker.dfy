/** A sequential model of `Worker`: the progress counter, the completion latch and the
    cancel flag, and what each worker's runner, `cancel` and `start` do to them when the
    workers run one after another. Callbacks are no-ops seen only through the interfaces
    they implement. */
module WorkerRun {
  import opened Errors
  import opened WorkerBuilder
  import Partition

  /** `x`, but never below zero: where `CountDownLatch` stops counting down. */
  function Max0(x: int): (r: nat)
    ensures r >= x && (r == 0 || r == x)
  {
    if x < 0 then 0 else x
  }

  /** Which exception, if any, the runner of worker `workId` throws before it touches the
      counter or the latch: an id outside [0, threads) fails in `getWork`; a missing
      callback or an unknown mode is an illegal state; a callback that lacks the interface
      the mode calls for is an illegal argument. */
  function Dispatch<E>(config: Config<E>, workId: int): (r: Outcome)
    requires config.Valid()
    ensures r.Pass? <==>
              0 <= workId < config.totalThreadSize && config.callback.Some?
              && ((config.mode == 0 && config.callback.value.atomicWork)
                  || (config.mode == 1 && config.callback.value.listWork))
    ensures r.Fail? && !(0 <= workId < config.totalThreadSize) ==> r.error == IllegalArgument
    ensures r.Fail? && 0 <= workId < config.totalThreadSize ==>
              (r.error == IllegalState <==> config.callback.None? || (config.mode != 0 && config.mode != 1))
  {
    if Partition.GetWork(config.workQueue, config.totalThreadSize, workId).Failure? then
      Fail(IllegalArgument)
    else if config.callback.None? then
      Fail(IllegalState)
    else if config.mode == ModeAtomicWork then
      if config.callback.value.atomicWork then Pass else Fail(IllegalArgument)
    else if config.mode == ModeListWork then
      if config.callback.value.listWork then Pass else Fail(IllegalArgument)
    else
      Fail(IllegalState)
  }

  /** Every valid worker id meets the same dispatch outcome: a mode/callback mismatch
      fails all workers alike. */
  lemma DispatchUniform<E>(config: Config<E>, i: nat, j: nat)
    requires config.Valid() && i < config.totalThreadSize && j < config.totalThreadSize
    ensures Dispatch(config, i) == Dispatch(config, j)
  {
  }

  /** How many items an atomic-mode worker with a segment of `size` items processes, when
      the flag was `canceled` before it began and `cancel()` is called while item
      `cancelAt` is being processed, if it is: in closed form. */
  function ItemsProcessed(size: nat, canceled: bool, cancelAt: Option<nat>): nat
  {
    if canceled then 0
    else if cancelAt.Some? && cancelAt.value < size then cancelAt.value + 1
    else size
  }

  /** The loop of the atomic runner, one item at a time from item `i` on: it stops at the
      end of the segment or once the flag is set, and the flag is set while item
      `cancelAt` is processed. The result is how many items it processes. */
  function ItemsFrom(size: nat, i: nat, canceled: bool, cancelAt: Option<nat>): (r: nat)
    requires i <= size
    decreases size - i
  {
    if i == size || canceled then 0
    else 1 + ItemsFrom(size, i + 1, cancelAt == Some(i), cancelAt)
  }

  /** Run from item `i` with the flag still clear, the step-by-step loop processes the
      items up to the closed form's count. */
  lemma {:induction false} ItemsFromRest(size: nat, i: nat, cancelAt: Option<nat>)
    requires i <= size && (cancelAt.None? || cancelAt.value >= i)
    ensures ItemsFrom(size, i, false, cancelAt) == ItemsProcessed(size, false, cancelAt) - i
    decreases size - i
  {
    if i < size {
      if cancelAt == Some(i) {
        assert ItemsFrom(size, i + 1, true, cancelAt) == 0;
      } else {
        ItemsFromRest(size, i + 1, cancelAt);
      }
    }
  }

  /** The closed form counts exactly the items the per-item loop processes: none when
      already cancelled, up to and including item `cancelAt` when it is cancelled there,
      and the whole segment otherwise. */
  lemma ItemsProcessedMatchesLoop(size: nat, canceled: bool, cancelAt: Option<nat>)
    ensures ItemsProcessed(size, canceled, cancelAt) == ItemsFrom(size, 0, canceled, cancelAt)
    ensures ItemsProcessed(size, canceled, cancelAt) <= size
  {
    if !canceled {
      ItemsFromRest(size, 0, cancelAt);
    }
  }

  class Worker<E> {
    const config: Config<E>
    /** `mCurrentWorkedCount`: items processed so far. */
    var currentWorkedCount: nat
    /** `mCompletedCount`: the latch count, from the thread count down to zero. */
    var completedCount: nat
    /** `mIsCanceled` */
    var isCanceled: bool

    /** The latch never exceeds the thread count, and a cancelled worker's latch is open. */
    ghost predicate Valid()
      reads this
    {
      config.Valid()
      && completedCount <= config.totalThreadSize
      && (isCanceled ==> completedCount == 0)
    }

    /** The latch starts at the thread count, the counter at zero, not cancelled. */
    constructor (config: Config<E>)
      requires config.Valid()
      ensures Valid() && this.config == config
      ensures currentWorkedCount == 0 && completedCount == config.totalThreadSize && !isCanceled
    {
      this.config := config;
      currentWorkedCount := 0;
      completedCount := config.totalThreadSize;
      isCanceled := false;
    }

    /** `addCurrentWorkedCount`: one more item done. */
    method AddCurrentWorkedCount()
      modifies this`currentWorkedCount
      ensures currentWorkedCount == old(currentWorkedCount) + 1
    {
      currentWorkedCount := currentWorkedCount + 1;
    }

    /** `CountDownLatch.countDown`: one step toward zero, never below it. */
    method CountDown()
      modifies this`completedCount
      ensures completedCount == Max0(old(completedCount) - 1)
    {
      if completedCount > 0 {
        completedCount := completedCount - 1;
      }
    }

    /** `allCountDown`: counts the latch down once per thread, which opens it. */
    method AllCountDown()
      requires completedCount <= config.totalThreadSize
      modifies this`completedCount
      ensures completedCount == 0
    {
      for i := 0 to config.totalThreadSize
        invariant completedCount == Max0(old(completedCount) - i)
      {
        CountDown();
      }
    }

    /** `cancel`: sets the flag and opens the latch; the counter is untouched. */
    method Cancel()
      requires Valid()
      modifies this`isCanceled, this`completedCount
      ensures Valid() && isCanceled && completedCount == 0
    {
      isCanceled := true;
      AllCountDown();
    }

    /** The runner of worker `workId`. On a thrown exception nothing changes. In atomic
        mode it adds one per item while not cancelled and then counts the latch down once;
        in list mode it adds the whole segment size at once and counts down once. */
    method Run(workId: int, cancelAt: Option<nat>) returns (r: Outcome)
      requires Valid()
      modifies this`currentWorkedCount, this`completedCount, this`isCanceled
      ensures Valid() && r == Dispatch(config, workId)
      ensures currentWorkedCount >= old(currentWorkedCount)
      ensures r.Fail? ==>
                currentWorkedCount == old(currentWorkedCount)
                && completedCount == old(completedCount) && isCanceled == old(isCanceled)
      ensures r.Pass? && config.mode == ModeAtomicWork ==>
                var size := Partition.WorkSize(|config.workQueue|, config.totalThreadSize, workId);
                currentWorkedCount == old(currentWorkedCount) + ItemsProcessed(size, old(isCanceled), cancelAt)
                && isCanceled == (old(isCanceled) || (cancelAt.Some? && cancelAt.value < size))
      ensures r.Pass? && config.mode == ModeListWork ==>
                currentWorkedCount
                == old(currentWorkedCount) + Partition.WorkSize(|config.workQueue|, config.totalThreadSize, workId)
                && isCanceled == old(isCanceled)
      ensures r.Pass? ==> completedCount == if isCanceled then 0 else Max0(old(completedCount) - 1)
    {
      var work := Partition.GetWork(config.workQueue, config.totalThreadSize, workId);
      if work.Failure? {
        return Fail(work.error);
      }
      if config.callback.None? {
        return Fail(IllegalState);
      }
      var callback := config.callback.value;
      if config.mode == ModeAtomicWork {
        if !callback.atomicWork {
          return Fail(IllegalArgument);
        }
        var singleWorkSize := Partition.GetSingleWorkSize(|config.workQueue|, config.totalThreadSize, workId).value;
        var i := 0;
        while i < singleWorkSize && !isCanceled
          invariant 0 <= i <= singleWorkSize
          invariant Valid()
          invariant currentWorkedCount == old(currentWorkedCount) + i
          invariant isCanceled == (old(isCanceled) || (cancelAt.Some? && cancelAt.value < i))
          invariant !isCanceled ==> completedCount == old(completedCount)
          invariant old(isCanceled) ==> i == 0
          invariant cancelAt.Some? && cancelAt.value < i ==> i == cancelAt.value + 1
        {
          // callback.doWork(item): a no-op, except that it may call cancel()
          var item := work.value[i];
          if cancelAt == Some(i) {
            Cancel();
          }
          AddCurrentWorkedCount();
          i := i + 1;
        }
        CountDown();
      } else if config.mode == ModeListWork {
        if !callback.listWork {
          return Fail(IllegalArgument);
        }
        // callback.doWork(work, size): a no-op
        var singleWorkSize := Partition.GetSingleWorkSize(|config.workQueue|, config.totalThreadSize, workId).value;
        currentWorkedCount := currentWorkedCount + singleWorkSize;
        CountDown();
      } else {
        return Fail(IllegalState);
      }
      r := Pass;
    }

    /** `start`, with the runners executed one after another and no cancellation while
        they run. When the callback fits the mode the latch ends at zero and the counter
        has grown by the queue size (by nothing in atomic mode if already cancelled);
        otherwise every runner throws and nothing changes. */
    method Start()
      requires Valid()
      modifies this`currentWorkedCount, this`completedCount, this`isCanceled
      ensures Valid() && isCanceled == old(isCanceled)
      ensures Dispatch(config, 0).Fail? ==>
                currentWorkedCount == old(currentWorkedCount) && completedCount == old(completedCount)
      ensures Dispatch(config, 0).Pass? ==> completedCount == 0
      ensures Dispatch(config, 0).Pass? ==>
                currentWorkedCount == old(currentWorkedCount)
                + (if config.mode == ModeAtomicWork && isCanceled then 0 else |config.workQueue|)
    {
      var queueSize := |config.workQueue|;
      var threads := config.totalThreadSize;
      var pass := Dispatch(config, 0).Pass?;
      for i := 0 to threads
        invariant Valid() && isCanceled == old(isCanceled)
        invariant pass ==> completedCount == Max0(old(completedCount) - i)
        invariant pass ==>
                    currentWorkedCount == old(currentWorkedCount)
                    + (if config.mode == ModeAtomicWork && isCanceled then 0
                       else Partition.SizesUpTo(queueSize, threads, i))
        invariant !pass ==>
                    currentWorkedCount == old(currentWorkedCount) && completedCount == old(completedCount)
      {
        DispatchUniform(config, 0, i);
        var outcome := Run(i, None);
      }
      Partition.SumOfSizes(queueSize, threads);
    }
  }

  /** A fresh worker over 1000 items and 10 threads in atomic mode: running all workers
      counts every item once and opens the latch; a later `cancel` changes no count. */
  method ThousandItemsScenario(queue: seq<int>)
    requires |queue| == 1000
  {
    var w := new Worker(Config(queue, 10, ModeAtomicWork, Some(Callback(true, false))));
    w.Start();
    assert w.currentWorkedCount == 1000 && w.completedCount == 0;
    w.Cancel();
    assert w.isCanceled && w.currentWorkedCount == 1000;
  }

  /** A per-item callback in list mode fails at dispatch and leaves the latch closed. */
  method MismatchScenario(queue: seq<int>)
  {
    var w := new Worker(Config(queue, 4, ModeListWork, Some(Callback(true, false))));
    var r := w.Run(0, None);
    assert r == Fail(IllegalArgument) && w.completedCount == 4 && w.currentWorkedCount == 0;
  }
}
