/** How a work queue of `queueSize` items is split among `threads` workers.
    Worker `i` owns the half-open range [StartIndex(i), StartIndex(i) + WorkSize(i)):
    every worker but the last gets floor(queueSize / threads) items and the last one
    also takes the remainder. */
module Partition {
  import opened Errors

  /** The share of every worker except the last (`getEverySingleWorkSize`). */
  function EverySingleWorkSize(queueSize: nat, threads: nat): (r: nat)
    requires threads >= 1
    ensures r * threads <= queueSize < r * threads + threads
  {
    queueSize / threads
  }

  /** a <= b implies n * a <= n * b, for a non-negative factor n. */
  lemma {:induction false} MulMonotonic(n: nat, a: nat, b: nat)
    requires a <= b
    ensures n * a <= n * b
  {
    if n > 0 {
      MulMonotonic(n - 1, a, b);
      assert n * a == (n - 1) * a + a;
      assert n * b == (n - 1) * b + b;
    }
  }

  /** The size of worker `workId`'s segment, for a worker id already known to be valid:
      the in-range branch of `getSingleWorkSize`. */
  function WorkSize(queueSize: nat, threads: nat, workId: nat): (r: nat)
    requires workId < threads
    ensures r == queueSize / threads + (if workId == threads - 1 then queueSize % threads else 0)
  {
    var every := EverySingleWorkSize(queueSize, threads);
    assert every * (threads - 1) == every * threads - every;
    if workId < threads - 1 then every
    else queueSize - every * (threads - 1)
  }

  /** The first index of worker `workId`'s segment: the in-range branch of
      `getSingleWorkStartIndex`. The segment never reaches past the end of the queue. */
  function StartIndex(queueSize: nat, threads: nat, workId: nat): (r: nat)
    requires workId < threads
    ensures r + WorkSize(queueSize, threads, workId) <= queueSize
  {
    var every := EverySingleWorkSize(queueSize, threads);
    MulMonotonic(every, workId, threads - 1);
    assert every * (threads - 1) == every * threads - every;
    every * workId
  }

  /** `getSingleWorkSize`: an id outside [0, threads) is rejected. */
  function GetSingleWorkSize(queueSize: nat, threads: nat, workId: int): (r: Result<int>)
    requires threads >= 1
    ensures r.Failure? <==> workId < 0 || workId >= threads
    ensures r.Failure? ==> r.error == IllegalArgument
    ensures r.Success? ==> r.value >= 0 && r.value == WorkSize(queueSize, threads, workId)
  {
    if workId >= 0 && workId < threads then Success(WorkSize(queueSize, threads, workId))
    else Failure(IllegalArgument)
  }

  /** `getSingleWorkStartIndex`: an id outside [0, threads) is rejected. */
  function GetSingleWorkStartIndex(queueSize: nat, threads: nat, workId: int): (r: Result<int>)
    requires threads >= 1
    ensures r.Failure? <==> workId < 0 || workId >= threads
    ensures r.Failure? ==> r.error == IllegalArgument
    ensures r.Success? ==> 0 <= r.value <= queueSize && r.value == StartIndex(queueSize, threads, workId)
  {
    if workId >= 0 && workId < threads then Success(StartIndex(queueSize, threads, workId))
    else Failure(IllegalArgument)
  }

  /** The segment of a valid worker: the `subList` call inside `getWork`. */
  function Work<E>(queue: seq<E>, threads: nat, workId: nat): (r: seq<E>)
    requires workId < threads
    ensures |r| == WorkSize(|queue|, threads, workId)
    ensures forall k :: 0 <= k < |r| ==> r[k] == queue[StartIndex(|queue|, threads, workId) + k]
  {
    var start := StartIndex(|queue|, threads, workId);
    queue[start..start + WorkSize(|queue|, threads, workId)]
  }

  /** `getWork`: the segment of worker `workId`, or IllegalArgument for an id outside
      [0, threads). */
  function GetWork<E>(queue: seq<E>, threads: nat, workId: int): (r: Result<seq<E>>)
    requires threads >= 1
    ensures r.Failure? <==> workId < 0 || workId >= threads
    ensures r.Failure? ==> r.error == IllegalArgument
    ensures r.Success? ==> r.value == Work(queue, threads, workId)
  {
    if workId >= 0 && workId < threads then Success(Work(queue, threads, workId))
    else Failure(IllegalArgument)
  }

  /** Each segment but the last ends exactly where the next one starts. */
  lemma {:induction false} Contiguous(queueSize: nat, threads: nat, workId: nat)
    requires workId + 1 < threads
    ensures StartIndex(queueSize, threads, workId) + WorkSize(queueSize, threads, workId)
            == StartIndex(queueSize, threads, workId + 1)
  {
    var every := EverySingleWorkSize(queueSize, threads);
    assert every * (workId + 1) == every * workId + every;
  }

  /** The last segment ends at the end of the queue. */
  lemma LastEndsAtQueueEnd(queueSize: nat, threads: nat)
    requires threads >= 1
    ensures StartIndex(queueSize, threads, threads - 1) + WorkSize(queueSize, threads, threads - 1)
            == queueSize
  {
  }

  /** Segments that start later begin no earlier. */
  lemma StartMonotonic(queueSize: nat, threads: nat, i: nat, j: nat)
    requires i <= j < threads
    ensures StartIndex(queueSize, threads, i) <= StartIndex(queueSize, threads, j)
  {
    MulMonotonic(EverySingleWorkSize(queueSize, threads), i, j);
  }

  /** Every segment lies inside the queue, so the `subList` bounds of `getWork` hold. */
  lemma InBounds(queueSize: nat, threads: nat, workId: nat)
    requires workId < threads
    ensures 0 <= StartIndex(queueSize, threads, workId)
    ensures StartIndex(queueSize, threads, workId)
            <= StartIndex(queueSize, threads, workId) + WorkSize(queueSize, threads, workId)
            <= queueSize
  {
  }

  /** With fewer items than workers, every worker but the last gets nothing and the last
      one gets the whole queue. */
  lemma SmallQueue(queueSize: nat, threads: nat, workId: nat)
    requires queueSize < threads && workId < threads
    ensures workId < threads - 1 ==> WorkSize(queueSize, threads, workId) == 0
    ensures workId == threads - 1 ==> WorkSize(queueSize, threads, workId) == queueSize
    ensures StartIndex(queueSize, threads, workId) == 0
  {
  }

  /** The sizes of the first `k` segments, added up. */
  function SizesUpTo(queueSize: nat, threads: nat, k: nat): (r: nat)
    requires k <= threads
  {
    if k == 0 then 0 else SizesUpTo(queueSize, threads, k - 1) + WorkSize(queueSize, threads, k - 1)
  }

  /** The first `k` segments together cover exactly the indices before the start of
      segment `k`. */
  lemma {:induction false} SizesUpToIsStart(queueSize: nat, threads: nat, k: nat)
    requires k < threads
    ensures SizesUpTo(queueSize, threads, k) == StartIndex(queueSize, threads, k)
  {
    if k > 0 {
      SizesUpToIsStart(queueSize, threads, k - 1);
      Contiguous(queueSize, threads, k - 1);
    }
  }

  /** All segment sizes add up to the queue size. */
  lemma SumOfSizes(queueSize: nat, threads: nat)
    requires threads >= 1
    ensures SizesUpTo(queueSize, threads, threads) == queueSize
  {
    SizesUpToIsStart(queueSize, threads, threads - 1);
    LastEndsAtQueueEnd(queueSize, threads);
  }

  /** Worker `workId`'s segment holds index `k`. */
  predicate Owns(queueSize: nat, threads: nat, workId: nat, k: nat)
    requires workId < threads
  {
    StartIndex(queueSize, threads, workId) <= k
    < StartIndex(queueSize, threads, workId) + WorkSize(queueSize, threads, workId)
  }

  /** The worker whose segment holds index `k`, computed directly from `k`. */
  function Owner(queueSize: nat, threads: nat, k: nat): (r: nat)
    requires threads >= 1
    ensures r < threads
  {
    var every := EverySingleWorkSize(queueSize, threads);
    if every == 0 || k / every >= threads - 1 then threads - 1 else k / every
  }

  /** Two different workers never own the same index. */
  lemma {:induction false} Disjoint(queueSize: nat, threads: nat, i: nat, j: nat, k: nat)
    requires i < j < threads
    ensures !(Owns(queueSize, threads, i, k) && Owns(queueSize, threads, j, k))
  {
    Contiguous(queueSize, threads, i);
    StartMonotonic(queueSize, threads, i + 1, j);
  }

  /** Index `k` of the queue lies in the segment of `Owner(k)`. */
  lemma {:induction false} OwnerOwns(queueSize: nat, threads: nat, k: nat)
    requires threads >= 1 && k < queueSize
    ensures Owns(queueSize, threads, Owner(queueSize, threads, k), k)
  {
    var every := EverySingleWorkSize(queueSize, threads);
    var last := threads - 1;
    if every == 0 || k / every >= last {
      if every > 0 {
        MulMonotonic(every, last, k / every);
      }
      assert StartIndex(queueSize, threads, last) <= k;
      LastEndsAtQueueEnd(queueSize, threads);
    } else {
      var q := k / every;
      assert every * q <= k < every * q + every;
      assert WorkSize(queueSize, threads, q) == every;
    }
  }

  /** The segments tile [0, queueSize): index `k` belongs to worker `workId` exactly when
      `k` is inside the queue and `workId` is its owner. */
  lemma ExactlyOneOwner(queueSize: nat, threads: nat, workId: nat, k: nat)
    requires workId < threads
    ensures Owns(queueSize, threads, workId, k) <==> k < queueSize && workId == Owner(queueSize, threads, k)
  {
    if k < queueSize {
      OwnerOwns(queueSize, threads, k);
      var o := Owner(queueSize, threads, k);
      if workId < o {
        Disjoint(queueSize, threads, workId, o, k);
      } else if o < workId {
        Disjoint(queueSize, threads, o, workId, k);
      }
    }
  }

  /** The segments of the first `k` workers, in worker order. */
  function Segments<E>(queue: seq<E>, threads: nat, k: nat): (r: seq<seq<E>>)
    requires k <= threads
    ensures |r| == k
  {
    if k == 0 then [] else Segments(queue, threads, k - 1) + [Work(queue, threads, k - 1)]
  }

  /** Concatenation of a sequence of segments. */
  function Flatten<E>(segments: seq<seq<E>>): (r: seq<E>)
  {
    if segments == [] then [] else Flatten(segments[..|segments| - 1]) + segments[|segments| - 1]
  }

  /** The first `k` segments, put back together, are the queue up to the start of segment `k`. */
  lemma {:induction false} FlattenPrefix<E>(queue: seq<E>, threads: nat, k: nat)
    requires k < threads
    ensures Flatten(Segments(queue, threads, k)) == queue[..StartIndex(|queue|, threads, k)]
  {
    if k > 0 {
      var s := Segments(queue, threads, k);
      assert s[..k - 1] == Segments(queue, threads, k - 1);
      FlattenPrefix(queue, threads, k - 1);
      Contiguous(|queue|, threads, k - 1);
      var a := StartIndex(|queue|, threads, k - 1);
      var b := StartIndex(|queue|, threads, k);
      assert queue[..a] + queue[a..b] == queue[..b];
    }
  }

  /** Putting all segments back together in worker order gives back the whole queue:
      every item is handed to exactly one worker, and in order. */
  lemma SegmentsRebuildQueue<E>(queue: seq<E>, threads: nat)
    requires threads >= 1
    ensures Flatten(Segments(queue, threads, threads)) == queue
  {
    var last := threads - 1;
    var s := Segments(queue, threads, threads);
    assert s[..last] == Segments(queue, threads, last);
    FlattenPrefix(queue, threads, last);
    LastEndsAtQueueEnd(|queue|, threads);
    var a := StartIndex(|queue|, threads, last);
    assert queue[..a] + queue[a..] == queue;
  }

  /** 23 items among 5 workers: four segments of 4 and a last one of 7. */
  lemma TwentyThreeAmongFive()
    ensures forall i :: 0 <= i < 4 ==> WorkSize(23, 5, i) == 4 && StartIndex(23, 5, i) == 4 * i
    ensures WorkSize(23, 5, 4) == 7 && StartIndex(23, 5, 4) == 16
  {
  }
}
