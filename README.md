# Worker: a verified model of a bounded-parallelism work splitter

`Worker<E>` splits a list of work items among N threads. Worker `i` gets a contiguous
segment of the list. Every segment but the last has `size / N` items, and the last segment
takes the remainder. Each worker processes its segment through a caller-supplied callback.
In atomic mode the callback gets one item at a time. In list mode it gets the whole
segment at once. A progress counter records how many items were processed. A
`CountDownLatch` that starts at N is counted down once per finished worker. `cancel()`
sets a flag and counts the latch down N times. A `Builder` checks the queue, the thread
count (1 to 99), the mode (0 = atomic, 1 = list) and the callback before building a worker.

The model has four modules:

- `Errors` (errors.dfy): `IllegalArgumentException` and `IllegalStateException` as an
  `Error` value, with `Option` for nullable references and `Result`/`Outcome` for calls
  that may throw.
- `Partition` (partition.dfy): the partition arithmetic as pure functions. It also holds
  the lemmas showing that the segments tile the queue: they are contiguous, in bounds,
  pairwise disjoint, each index has exactly one owner, the sizes add up to the queue size,
  and concatenating the segments in worker order gives back the queue.
- `WorkerBuilder` (builder.dfy): the `Builder` class. Its setters either update exactly
  one field or fail with `IllegalArgument` and change nothing. `Build` returns a
  `Config`, which holds the values of the builder's fields.
- `WorkerRun` (worker.dfy): the `Worker` class, holding the counter, the latch count and
  the cancel flag as plain fields. `Run` is one worker's runner, `Start` runs all N
  runners one after another, and `Cancel`, `AllCountDown`, `CountDown` and
  `AddCurrentWorkedCount` are modelled as in the source. `Valid()` is the invariant every
  method keeps: the latch count stays between 0 and N, and a cancelled worker's latch is
  at 0. The counter never decreases.

Callbacks are modelled only by which interfaces they implement: `Callback(atomicWork,
listWork)`, and `None` for null. A callback's work is a no-op, with one exception:
`Run`'s `cancelAt` argument names the item during which `cancel()` is called. This
stands for a cancellation that arrives in the middle of an atomic-mode segment.

The comment at the head of Worker/Worker.java (lines 7-8) asks list-mode callbacks to
call `addCurrentWorkedCount` for each item. But line 109 also adds the segment size
after the callback returns. A callback that follows the comment would therefore get every
item counted twice. The model follows the code: the list-mode callback adds nothing, and
the runner adds the segment size.

Java `int` overflow cannot occur in the partition arithmetic. Every intermediate value,
`(S/N)*i` and `(S/N)*(N-1)` included, lies between 0 and the list size S, and a Java
list's size is itself an `int`. The bounds are stated by `StartIndex` and `WorkSize`.
For this reason the model uses unbounded integers there.

## Model

| member | source | states |
|---|---|---|
| `Partition.EverySingleWorkSize` | Worker/Worker.java:162-164 | the common share r is floor(S/N): r*N <= S < r*N + N |
| `Partition.WorkSize` | Worker/Worker.java:144-148 | a valid worker's segment size is S/N, plus S%N for the last worker; it is never negative |
| `Partition.StartIndex` | Worker/Worker.java:156 | a valid worker's segment, starting at (S/N)*i, ends at or before S |
| `Partition.GetSingleWorkSize` | Worker/Worker.java:142-152 | fails with IllegalArgument exactly when workId < 0 or workId >= N; otherwise returns the non-negative WorkSize |
| `Partition.GetSingleWorkStartIndex` | Worker/Worker.java:154-160 | fails with IllegalArgument exactly when workId is outside [0, N); otherwise returns a start within [0, S] |
| `Partition.Work` | Worker/Worker.java:136 | the subList has WorkSize items, and item k is queue item start + k |
| `Partition.GetWork` | Worker/Worker.java:134-140 | fails with IllegalArgument exactly when workId is outside [0, N); otherwise returns the worker's segment |
| `Partition.Contiguous` | Worker/Worker.java:142-160 | each segment but the last ends where the next one starts |
| `Partition.LastEndsAtQueueEnd` | Worker/Worker.java:147 | the last segment ends at S |
| `Partition.InBounds` | Worker/Worker.java:134-136 | 0 <= start <= start + size <= S for every valid worker, so the subList call is in bounds |
| `Partition.SmallQueue` | Worker/Worker.java:142-164 | when S < N every segment starts at 0, the non-last ones are empty, and the last one holds all S items |
| `Partition.SizesUpToIsStart` | Worker/Worker.java:142-160 | the sizes of the first k segments add up to the start of segment k |
| `Partition.SumOfSizes` | Worker/Worker.java:142-164 | the N segment sizes add up to S |
| `Partition.Disjoint` | Worker/Worker.java:142-160 | no index lies in two different workers' segments |
| `Partition.OwnerOwns` | Worker/Worker.java:142-164 | every index below S lies in the segment of the worker Owner computes |
| `Partition.ExactlyOneOwner` | Worker/Worker.java:134-164 | index k lies in worker i's segment if and only if k < S and i is k's owner, so the segments tile [0, S) |
| `Partition.FlattenPrefix` | Worker/Worker.java:134-136 | the first k segments, concatenated, are the queue up to segment k's start |
| `Partition.SegmentsRebuildQueue` | Worker/Worker.java:134-136 | all N segments, concatenated in worker order, are exactly the queue |
| `Partition.TwentyThreeAmongFive` | Worker/Worker.java:142-164 | 23 items among 5 workers give segments of sizes 4, 4, 4, 4, 7 starting at 0, 4, 8, 12, 16 |
| `WorkerBuilder.Builder.constructor` | Worker/Worker.java:166-175 | defaults: no work queue, 10 threads, atomic mode, no callback |
| `WorkerBuilder.Builder.SetWork` | Worker/Worker.java:177-184 | succeeds exactly for a non-null list and stores it; on failure the builder is unchanged |
| `WorkerBuilder.Builder.SetTotalThreadSize` | Worker/Worker.java:186-194 | succeeds exactly when 1 <= size <= 99 and stores it; on failure the builder is unchanged |
| `WorkerBuilder.Builder.SetMode` | Worker/Worker.java:196-204 | succeeds exactly for mode 0 or 1 and stores it; on failure the builder is unchanged |
| `WorkerBuilder.Builder.SetCallback` | Worker/Worker.java:206-214 | succeeds exactly for a callback implementing IAtomicWork or IListWork; on failure the builder is unchanged |
| `WorkerBuilder.Builder.Build` | Worker/Worker.java:216-222 | fails with IllegalArgument exactly when no work was set; otherwise carries the builder's fields, with 1 <= N < 100 and mode 0 or 1 |
| `WorkerRun.Dispatch` | Worker/Worker.java:92-119 | the runner passes its checks exactly when workId is valid, a callback is set and it implements the mode's interface; the kind of exception otherwise |
| `WorkerRun.DispatchUniform` | Worker/Worker.java:92-119 | all valid worker ids pass or fail the checks alike |
| `WorkerRun.ItemsFromRest` | Worker/Worker.java:98-101 | run from item i with the flag clear, the per-item loop processes the closed-form count minus i items |
| `WorkerRun.ItemsProcessedMatchesLoop` | Worker/Worker.java:97-102 | the closed-form count (0 when already cancelled, up to and including the item during which cancel() is called, else the whole segment) equals the number of items the per-item loop processes, and is at most the segment size |
| `WorkerRun.Worker.constructor` | Worker/Worker.java:31-37 | the latch starts at N, the counter at 0, and the flag is false |
| `WorkerRun.Worker.AddCurrentWorkedCount` | Worker/Worker.java:43-45 | the counter grows by exactly one |
| `WorkerRun.Worker.CountDown` | Worker/Worker.java:102 | the latch count drops by one, but never below zero |
| `WorkerRun.Worker.AllCountDown` | Worker/Worker.java:128-132 | N count-downs bring any latch count of at most N to zero |
| `WorkerRun.Worker.Cancel` | Worker/Worker.java:63-67 | afterwards the flag is set and the latch is 0; the counter is unchanged |
| `WorkerRun.Worker.Run` | Worker/Worker.java:88-122 | on an exception nothing changes; atomic mode adds one per item until cancelled, list mode adds the segment size at once; both count the latch down once; the counter never decreases |
| `WorkerRun.Worker.Start` | Worker/Worker.java:69-72 | with a callback that fits the mode, running all N workers adds S to the counter (0 in atomic mode when already cancelled) and drives the latch to 0; with a mismatch nothing changes |

## Left out

- The thread pool: `Executors.newFixedThreadPool`, `execute`, `shutdownNow` and
  `shutDown` (lines 34, 65, 69-82, 124-126). Workers run one after another. No
  interleaving is modelled except a `cancel()` arriving during an atomic-mode item
  (`cancelAt`).
- The supervisory task that waits on the latch and then calls `onComplete` (lines
  73-81), and `await` / `await(time, unit)` (lines 47-61). These blocking waits,
  timeouts and `InterruptedException` handling have no sequential meaning. The latch
  reaching 0 is what would release them.
- The getters `getCurrentWorkedCount` and `isCanceled` (lines 39-41, 84-86). The model
  reads the fields directly.
- The memory visibility of the non-volatile `mIsCanceled`, and the atomicity of
  `AtomicLong` and `CountDownLatch`. These are modelled as plain fields.
- The bodies of the callbacks `doWork` and `onComplete` (lines 225-235). These are
  caller-supplied code. A callback that throws, and so leaves the latch short, is not
  modelled.
- Aliasing between a worker and its builder. The Java worker keeps a reference to the
  builder, so a setter called after `build()` changes the worker's configuration. `Build`
  instead takes a copy of the fields.
- `subList` returns a view of the list. `Work` returns a copy of the items.
- `start()` after `cancel()`: the shut-down pool would reject the new tasks. `Start`
  runs them.
- A second `start()`: Java either runs the workers again or has them rejected, depending
  on whether the supervisor's `shutDown()` (line 77) has already run. `Start` can be
  called again and then adds S to the counter again.
- `MAX_THREAD_SIZE`, `MODE_ATOMIC_WORK` and `MODE_LIST_WORK` (lines 22-24) are
  `public static` but not `final`, so a caller could change the guards of
  `setTotalThreadSize` and `setMode` and the default mode. The model fixes them at
  100, 0 and 1.
- WorkerRun.Worker.Start: covers only runs with no cancellation during the run (each
  runner gets no `cancelAt`). A mid-run cancellation is stated per worker by `Run`.
