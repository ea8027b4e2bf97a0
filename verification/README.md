# firey, modelled and proved

firey is a reactor library for Linux servers: one event loop per thread over epoll, a timerfd for timers, a
double-buffered asynchronous logger, a bounded thread pool, TCP connections that live across several loops, and an
incremental HTTP parser on top of a compacting byte buffer. This project models the parts of it that carry state from
one call to the next and proves what they are for.

Each part comes as a pair of modules.

* The *machine*: a state, the operations as functions on it, the small steps in which callbacks, other threads and the
  kernel interleave, and theorems about every run (`TimerQueue`, `EventLoop`, `Lifecycle`, `OutputStream`,
  `AsyncLogging`, `ThreadPool`, `Poller`, `Http`; the longer theories are in `TimerQueueTheorems`,
  `TimerCancellation`, `TimerAdding`, `TimerAsAsked`, `LifecycleTheorems`, `LifecycleProgress`, `HttpTheorems`,
  `HttpGrammar`, `HttpServing` and `HttpPipeline`).
* The *object*: a class with the fields of the C++ class, whose methods change them in place with the loops and branches
  of the code, each proved to do to the object's abstract value exactly what the machine's operation does
  (`TimerQueueObject`, `EventLoopObject`, `LifecycleObject`, `OutputStreamObject`, `AsyncLoggingObject`,
  `ThreadPoolObject`, `PollerObject`, `HttpObject`). `Buffer` and `LogStream` hold their classes
  directly; `Common` holds what several share.

An operation that is a function, such as `TimerQueue.Cancel`, has no row of its own below: its rows are the method
proved equal to it and the lemmas about it. `dafny verify dfyconfig.toml` checks the whole project.

What the environment does is nondeterministic: the clock and the allocator (any address not in use, so addresses come
back after a delete), how many bytes a `write` takes and which error it gives, when `epoll_wait` and a timed wait
return, which waiter a signal wakes, and the steps of other threads between any two steps of the loop. What the kernel
keeps (the timerfd, the eventfd counter, the epoll interest set, the descriptors in use) is part of the state.

## Where the code does less than it seems to

Where a failure depends on a condition, the condition is exact and proved in both directions. None is assumed away.

* A cancel on the loop thread that overtakes another thread's queued `addTimerInLoop` is lost, and the cancelled timer
  goes off (`TimerCancellation.CancelExactly`, `TimerCancellation.LostCancelRuns`).
* `addTimer` on another thread reads the timer after handing it over; a one-shot timer may then have been run and deleted
  (`TimerAdding.ReturnReadsLiveExactly`, `TimerAdding.ReturnReadsFreed`).
* A functor the loop thread queues before `loop()` gets no wakeup (`EventLoop.NoLostWakeup`).
* `isWriting()` compares the whole interest set, so a connection that also reads never drains its output buffer, and
  `shutdown` closes its write side with bytes waiting (`OutputStream.DrainsExactly`, `OutputStream.DrainThenShut`).
* `assert(remaining<len)` in `sendInLoop` fails on every buffered, refused or empty send
  (`OutputStream.RemainingAssertExactly`); the release build compiles it out, and so does the model.
* `startRead` after the close, `stopRead` after the destroy, and `forceClose` of a connection whose entry in the active
  list is still to be handled can each make a later assert fail, and nothing else a user does can
  (`LifecycleTheorems.CarefulExactly`, `LifecycleTheorems.DestroyDecided`, `LifecycleTheorems.BackAfterDestroy`).
* `stopRead` does nothing on a connection that also wants to write and has not been told to `startRead` before, again
  because the channel compares its whole interest set (`LifecycleTheorems.StopReadLostExactly`).
* `stop` of the thread pool does not wait for the queue (`ThreadPool.StopDrainsExactly`).
* Only the first two characters of the version are compared, so HTTP/1.1 is read as HTTP/1.0
  (`HttpTheorems.VersionRightExactly`), and a bad request line is never consumed (`HttpTheorems.FailureIsPermanent`).
* One message gets at most one request served, so requests sent back to back can stay in the buffer
  (`HttpPipeline.AllServedExactly`), and what follows a request that does not ask for Keep-Alive is served but not answered,
  also in HTTP/1.1, where section 6.3 of RFC 7230 keeps the connection (`HttpPipeline.AnsweredExactly`,
  `HttpPipeline.KeptAliveExactly`).
* `convert` writes nothing for zero, and only for zero (`LogStream.ConvertReadsBack`).

## Model

| member | source | states |
|---|---|---|
| `TimerQueueTheorems.LiveTimersHaveOneOwner` | net/TimerQueueff.cpp:88-216 | In every state reachable by adds, cancels and firings, also those made inside callbacks and with addresses reused: the second index is the (address, sequence) image of the first and as large; every key is its timer's expiry; the live timers are exactly the queued ones, the batch of the firing in progress and those still being added, in disjoint sets. So nothing is deleted twice or leaked, and the loop thread uses nothing after its delete; the one read on another thread is the subject of `TimerAdding.ReturnReadsLiveExactly`. |
| `TimerAdding.ReturnReadsLiveExactly` | net/TimerQueueff.cpp:153-158 | The timer is alive when the last line of `addTimer` reads its sequence, in every continuation, if and only if the call is on the loop thread or the timer repeats. |
| `TimerAdding.HandedOverStaysExactly` | net/TimerQueueff.cpp:153-158 | A timer another thread has handed over is alive in every continuation without a cancel of its unreturned id if and only if it repeats, also when handed over in the middle of a firing. |
| `TimerAdding.ReturnReadsFreed` | net/TimerQueueff.cpp:88-158 | For a one-shot timer, the run in which the loop thread has inserted, run and deleted it before `addTimer` returns on the other thread. |
| `TimerQueue.StepKeepsInv` | net/TimerQueueff.cpp:88-216 | Every single step (allocate, add, cancel, begin a firing, run one callback, end it) keeps the agreement of the indexes, single ownership, unique sequences and the record of the batch. |
| `TimerQueue.CancelKeepsCore` | net/TimerQueueff.cpp:197-216 | A cancel in the middle of a batch, of a queued, running, stale or unknown id, keeps the indexes and the ownership right. |
| `TimerQueue.RestartKeepsCore` | net/TimerQueueff.cpp:110-118 | Restarting a timer of the batch and inserting it into both indexes hands it from the batch to the queue with its ownership intact. |
| `TimerQueueTheorems.SizesAgree` | net/TimerQueueff.cpp:131-148 | The equal-size asserts hold, because taking (address, sequence) is injective on timers with the right keys. |
| `TimerQueueTheorems.FiringRunsExactlyTheExpired` | net/TimerQueueff.cpp:88-105 | A firing at `now` takes exactly the timers with expiry at most `now`, in (expiry, address) order; whatever callbacks and other threads do meanwhile, the log of runs grows by exactly the ids of that batch, one each and in order, so a timer added during the batch does not run in it; the firing can end exactly when all have run. |
| `TimerQueueTheorems.FiringEndsExactly` | net/TimerQueueff.cpp:102-128 | At the end of a firing the queue has gained exactly the batch's repeating timers that were not cancelled, keyed at `now` plus their interval, and the heap has lost exactly the others. |
| `TimerAsAsked.GoesOffAsAsked` | net/TimerQueueff.cpp:88-189 | From `addTimer` on, as long as nobody cancels it, a timer is in no batch before its time; the first firing at its time or later that finds it queued runs it exactly once; at the end of that firing it is queued again for the firing's time plus its interval, or gone, as asked. |
| `TimerAsAsked.NeverEarly` | net/TimerQueueff.cpp:130-150 | In every run without a cancel of it and without a firing at its time or later, a timer keeps waiting with the time and interval asked for and is in no batch. |
| `TimerAsAsked.ArmedExactly` | net/TimerQueueff.cpp:27-52 | The descriptor is set exactly when a timer earlier than all others is added and at the end of a firing with a valid earliest time, and then for that time but no closer than 100us; it runs out when read at its deadline. |
| `TimerQueueTheorems.ResetExact` | net/TimerQueueff.cpp:107-118 | The loop in `reset` restarts and deletes exactly those, for every batch. |
| `TimerQueueTheorems.ResetRestartsTimer` | net/Timerff.cpp:19-22 | A restarted timer is the same object with only its expiry changed, to `now` plus its interval. |
| `TimerQueueTheorems.ResetKeepsOtherTimers` | net/TimerQueueff.cpp:107-118 | `reset` leaves every timer outside the batch as it was. |
| `TimerQueueTheorems.AlwaysWakeable` | net/TimerQueueff.cpp:27-52 | From any state in which it holds, and in every run, whenever the handler is not running and a timer is queued, the timerfd is armed for no later than the larger of the earliest expiry and the last arming plus 100us. |
| `TimerQueueTheorems.NeverAsleep` | net/TimerQueueff.cpp:27-52 | The same in every run of a new queue. |
| `TimerQueueTheorems.EndStaysWakeable` | net/TimerQueueff.cpp:120-128 | The end of `reset` leaves the descriptor armed early enough although it skips arming for the invalid time 0. |
| `TimerQueueTheorems.CancelStaysWakeable` | net/TimerQueueff.cpp:197-216 | Cancelling any timer, the earliest included, does not leave the queue asleep. |
| `TimerQueueTheorems.AddStaysWakeable` | net/TimerQueueff.cpp:160-189 | After adding a timer, the earliest or not, the queue is wakeable again. |
| `TimerQueueTheorems.CancelKillsUnlessInFlight` | net/TimerQueueff.cpp:197-216 | The state after cancelling a live timer is dead for it (gone, or in the batch and barred from restarting) if and only if it was not still waiting to be inserted: the invariant behind `TimerCancellation.CancelExactly`. |
| `TimerCancellation.CancelExactly` | net/TimerQueueff.cpp:192-216 | For a live timer, in every continuation of its cancel on the loop thread it never runs beyond the batch in progress, if and only if it is not still waiting to be inserted. |
| `TimerCancellation.LostCancelRuns` | net/TimerQueueff.cpp:153-168 | From every state with the timer still waiting to be inserted, the run in which the add arrives after the cancel and the cancelled timer goes off. |
| `TimerQueueTheorems.CancelledNeverRunsAgain` | net/TimerQueueff.cpp:197-216 | After a cancel of a timer that has reached the queue, in every continuation its id is never run beyond the batch in progress, and between firings it is not live, however its address is reused. |
| `TimerQueueTheorems.StaleCancelTouchesNothing` | net/TimerQueueff.cpp:197-216 | Cancelling an id that is not live changes no timer, index or descriptor, and does not change which timers of a running batch will be restarted. |
| `TimerQueue.First` | net/TimerQueueff.cpp:120-123 | `timers_.begin()` is the least key in the (expiry, address) order, for every non-empty set. |
| `TimerQueue.InOrder` | net/TimerQueueff.cpp:130-150 | The copied range is strictly sorted, without repetition, and has exactly the set's elements. |
| `TimerQueueObject.TimerQueueff.constructor` | net/TimerQueueff.cpp:63-72 | A new queue is the machine's initial state and satisfies the invariant. |
| `TimerQueueObject.TimerQueueff.NewTimer` | net/Timerff.cpp:7-15 | The object takes the machine's allocation step, with the expiry, the repetition and the interval asked for and a sequence no other live timer has. |
| `TimerQueueObject.TimerQueueff.AddTimer` | net/TimerQueueff.cpp:153-158 | On the loop thread: the machine's allocation and insertion; the timer is queued under the time asked for, with its interval, and the id returned names it. |
| `TimerQueueObject.TimerQueueff.ReturnId` | net/TimerQueueff.cpp:157 | The id read from a timer that has not been deleted is its own. |
| `TimerQueueObject.TimerQueueff.InsertTimer` | net/TimerQueueff.cpp:170-189 | Both indexes gain the timer and nothing else changes; the result says whether it became the earliest. |
| `TimerQueueObject.TimerQueueff.AddTimerInLoop` | net/TimerQueueff.cpp:160-168 | The object takes the machine's add step, arming exactly when the earliest timer changed. |
| `TimerQueueObject.TimerQueueff.CancelInLoop` | net/TimerQueueff.cpp:197-216 | The object takes the machine's cancel step, and remembers the id exactly if it is not queued while callbacks run. |
| `TimerQueueObject.TimerQueueff.GetExpiredTimer` | net/TimerQueueff.cpp:130-150 | Returns the expired keys in order and takes exactly them out of both indexes. |
| `TimerQueueObject.TimerQueueff.Reset` | net/TimerQueueff.cpp:107-128 | The restart loop and the arming are the machine's end of a firing. |
| `TimerQueueObject.TimerQueueff.HandleTimerfdRead` | net/TimerQueueff.cpp:88-105 | One call of the handler, with any actions in any callback, is the run of the machine that begins the firing, runs one callback for each expired timer, and ends it; afterwards no firing is in progress. So every theorem about firings holds of it. |
| `EventLoop.NoLostWakeup` | net/EventLoopff.cpp:76-180 | In all interleavings from the start of `loop()` the loop is never blocked in poll over a queued functor or a quit request without a positive eventfd or a thread about to write it, if and only if `loop()` was entered with no uncovered functor. |
| `EventLoop.OthersMayQueueEarly` | net/EventLoopff.cpp:139-148 | That condition holds after any calls of other threads before `loop()`. |
| `EventLoop.QueuedWorkEndsPoll` | net/EventLoopff.cpp:139-172 | With work queued and no thread between its push and its write, poll can return with the eventfd ready. |
| `EventLoop.OneTurnRunsEverything` | net/EventLoopff.cpp:82-94 | From there the loop can, in one turn of its own, execute everything that was queued. |
| `EventLoop.TurnRunsWhatWasQueued` | net/EventLoopff.cpp:82-94 | In every interleaving that passes a swap and the end of its batch, whatever handlers, functors and other threads do, everything queued before the swap has been executed. |
| `EventLoop.ExactlyOnceInOrder` | net/EventLoopff.cpp:139-163 | In every interleaving executed functors, then the rest of the batch, then the queue are exactly those enqueued before and those given to `queueInLoop` in the run, by any thread, in order; both logs only grow. |
| `EventLoop.LogOfRun` | net/EventLoopff.cpp:139-148 | The functors enqueued in a run are exactly those its threads gave to `queueInLoop`, in order. |
| `EventLoop.QuitEndsLoop` | net/EventLoopff.cpp:76-106 | After `quit` by any thread, in every continuation the next test of `quit_` ends the loop for good. |
| `EventLoop.QueuedDuringBatchWaits` | net/EventLoopff.cpp:151-163 | Until a batch ends only functors taken by its swap run; everything queued since, by any thread, is still in the queue, in order. |
| `EventLoopObject.EventLoopff.WriteEventFd` | net/EventLoopff.cpp:166-172 | A wakeup adds one to the eventfd unless it is full, so it is positive afterwards. |
| `EventLoopObject.EventLoopff.QueueInLoop` | net/EventLoopff.cpp:139-148 | On the loop thread: the functor stands in the queue right behind what was there, and while functors are being called the eventfd is written, with any steps of other threads in between, as a run of the machine. |
| `EventLoopObject.EventLoopff.SwapFunctors` | net/EventLoopff.cpp:154-158 | The swap takes the whole queue and leaves it empty, as the machine's step. |
| `EventLoopObject.EventLoopff.CallFunctor` | net/EventLoopff.cpp:159-161 | One functor call is a run of machine steps that takes exactly one functor off the batch; the functor may queue others and quit, with steps of other threads before each call, between a push and its wakeup, and before the functor returns. |
| `EventLoopObject.EventLoopff.DoPendingFunctors` | net/EventLoopff.cpp:151-163 | For all functors that queue others or quit, with steps of other threads before the swap, inside every functor and after it, the call is the run of the machine that swaps, calls each swapped functor once, and ends with the batch empty. |
| `EventLoopObject.EventLoopff.Turn` | net/EventLoopff.cpp:82-94 | One turn of the loop, with any user code in its handlers and functors and any steps of other threads: it ends the loop exactly if `quit_` is set, and otherwise is the run of the machine through poll, handlers and functors back to the test. |
| `EventLoopObject.EventLoopff.UserCode` | net/EventLoopff.cpp:99-148 | What user code does to its own loop is that run of machine steps, and leaves the loop where it was in its turn. |
| `EventLoopObject.EventLoopff.QuitOnLoop` | net/EventLoopff.cpp:99-106 | `quit` on the loop thread is the machine's step, without a wakeup. |
| `EventLoopObject.EventLoopff.HandleWakeupRead` | net/EventLoopff.cpp:174-180 | The read empties the eventfd, as the machine's step. |
| `AsyncLogging.NoLineLostSilently` | base/logger/AsyncLoggingff.cpp:29-133 | In every interleaving the lines appended, cut only where longer than a whole buffer, are in order those of the finished turns, those being written, those this turn drops, the filled buffers and the current one; the file is the rendering of the same turns, with one notice carrying the right count where buffers were dropped, which happens only to more than 25 waiting and keeps the first two. Without over-long lines nothing is cut. |
| `AsyncLogging.FileIsPrefixOfLog` | base/logger/AsyncLoggingff.cpp:70-133 | Without such a drop, the lines in the file followed by the unwritten ones are the lines appended, cut only where longer than a whole buffer: nothing lost, repeated or reordered. |
| `AsyncLogging.NothingTruncated` | base/logger/AsyncLoggingff.cpp:29-51 | Although a buffer stores only what fits, the line just appended is stored whole if and only if it fits an empty buffer: there is always room. |
| `AsyncLogging.StepConserves` | base/logger/AsyncLoggingff.cpp:29-133 | Each critical section and each write keeps that accounting of lines, file and drop rule. |
| `AsyncLogging.Run` | base/logger/AsyncLoggingff.cpp:36-131 | Every run, of any interleaving, keeps what recycling needs; without it the next step would not be defined. |
| `AsyncLogging.StepKeepsRecycling` | base/logger/AsyncLoggingff.cpp:36-131 | Every step keeps what recycling needs: a used-up spare means a filled buffer waits, the back end's spares are there and empty at the top of its turn, and after the critical section enough buffers are being written to refill them. |
| `AsyncLogging.RecyclingNeverRunsDry` | base/logger/AsyncLoggingff.cpp:70-131 | In every reachable state at the top of a turn both spares are present and empty and at most four buffers exist besides the waiting ones; both `!bufferToWrite.empty()` asserts hold. |
| `AsyncLogging.StopEnds` | base/logger/AsyncLoggingff.cpp:70-135 | After `stop`, in every continuation the back end's next test of `running_` is its last, and nothing is written after it. |
| `AsyncLoggingObject.AsyncLoggingff.constructor` | base/logger/AsyncLoggingff.cpp:9-27 | Four distinct empty buffers, as the machine's initial state. |
| `AsyncLoggingObject.AsyncLoggingff.Append` | base/logger/AsyncLoggingff.cpp:29-51 | The machine's append, carried out on buffer objects; every buffer stays in one place with the bytes of its lines, and the only new object is the one for a used-up spare. |
| `AsyncLoggingObject.AsyncLoggingff.EnterSwap` | base/logger/AsyncLoggingff.cpp:78-90 | The machine's critical section of the back end, moving the objects between fields without sharing one. |
| `AsyncLoggingObject.AsyncLoggingff.CheckExcess` | base/logger/AsyncLoggingff.cpp:94-103 | The machine's treatment of a backlog. |
| `AsyncLoggingObject.AsyncLoggingff.WriteNext` | base/logger/AsyncLoggingff.cpp:105-108 | The file is given exactly the bytes of the next buffer's lines. |
| `AsyncLoggingObject.AsyncLoggingff.TakeBack` | base/logger/AsyncLoggingff.cpp:110-131 | Once all are written, two of the buffers are emptied and become the spares, as in the machine; every other buffer keeps its bytes. |
| `ThreadPool.NoLostSignal` | base/thread/ThreadPoolff.cpp:67-103 | In every interleaving, whichever waiter a signal wakes: while a worker waits unsignalled, queued tasks are at most the workers on their way; while a caller waits unsignalled, free slots are at most the callers on their way; the queue never exceeds its bound. |
| `ThreadPool.QueuedWorkIsPickedUp` | base/thread/ThreadPoolff.cpp:86-103 | With a task queued and a worker waiting, some worker is on its way; with a task queued and none on its way, none waits. |
| `ThreadPool.CanFinish` | base/thread/ThreadPoolff.cpp:67-124 | From every reachable state of a running pool with a worker that has not left, some continuation without a new call takes every task and lets every caller go. |
| `ThreadPool.TasksInOrder` | base/thread/ThreadPoolff.cpp:67-103 | Tasks taken followed by the queue are the tasks submitted before and those that callers put in during the run while the pool ran and had room, first in, first out, each once; no worker is lost or in two places. |
| `ThreadPool.NobodyWaitsAfterStop` | base/thread/ThreadPoolff.cpp:46-53 | After `stop` no worker and no caller waits, in every continuation. |
| `ThreadPool.StopDrainsExactly` | base/thread/ThreadPoolff.cpp:46-124 | From every reachable state, `stop` leaves an empty queue once every worker has left, in every continuation, if and only if there are no more queued tasks than workers inside `take`; a worker executing, or created and not yet past its first test of `running_`, may leave at once. |
| `ThreadPool.StopMayAbandonTasks` | base/thread/ThreadPoolff.cpp:111-124 | In particular a single worker that is executing when the pool stops may leave the whole queue behind. |
| `ThreadPool.AbandonedForGood` | base/thread/ThreadPoolff.cpp:111-124 | With every worker gone no task is taken any more and none leaves the queue. |
| `ThreadPool.StepKeepsInv` | base/thread/ThreadPoolff.cpp:46-124 | Each arrival, offer, first test, take, finish, spurious wakeup and stop keeps the coverage of tasks and slots. |
| `ThreadPoolObject.ThreadPoolff.Run` | base/thread/ThreadPoolff.cpp:67-84 | The machine's offer: the caller ends up waiting exactly if the pool runs and is full, and otherwise a running pool gets the task at the end and signals. |
| `ThreadPoolObject.ThreadPoolff.TestRunning` | base/thread/ThreadPoolff.cpp:117-124 | The test of `running_`, before the first task and after each, is the machine's. |
| `ThreadPoolObject.ThreadPoolff.Take` | base/thread/ThreadPoolff.cpp:86-103 | The machine's take: wait, or the head of the queue with a signal to a caller when the pool is bounded, or nothing once it has stopped. |
| `ThreadPoolObject.ThreadPoolff.Stop` | base/thread/ThreadPoolff.cpp:46-53 | Both conditions are broadcast. |
| `LifecycleTheorems.NoAssertFails` | net/TcpServerff.cpp:43-104 | Of all runs of accepts, messages, polls, reads, user calls and releases on any number of loops, with user calls at any moment, exactly those fail an assert in which a destroy finds its connection reading, end of file is handled on a connection already closed, or a connection is dropped while a loop knows its channel. No run fails the assert on the erase count, on `kConnecting`, on the state at the end, or on a reused descriptor. |
| `LifecycleTheorems.CarefulExactly` | net/TcpConnectionff.cpp:165-224 | In a quiet state a call can be made without any later failure, unless later calls cause one, if and only if it is careful: no `startRead` after the close, no `stopRead` after the destroy while `isReading` says yes, no `forceClose` of an open connection whose entry in the active list is still to be handled. |
| `LifecycleTheorems.DoomedFails` | net/TcpConnectionff.cpp:227-315 | A closed connection that still reads fails in some run without any careless call, the loop going through its turns in order: the pending destroy finds it reading, or the next poll reports it and end of file closes it a second time. |
| `LifecycleTheorems.CarefulRunsSucceed` | net/TcpServerff.cpp:43-104 | Runs with careful calls only fail no assert. |
| `LifecycleTheorems.CarefulLife` | net/TcpConnectionff.cpp:227-315 | With careful calls a connection is in its poller exactly from establish to destroy, and a closed one reads nothing. |
| `LifecycleTheorems.DestroyDecided` | net/TcpConnectionff.cpp:196-251 | In every run from a close on, the delivered destroy succeeds if and only if the last of the calls of `startRead` and `stopRead` since the close is not `startRead`. |
| `LifecycleTheorems.ReadSinceClose` | net/TcpConnectionff.cpp:196-224 | Between close and destroy a connection has read interest if and only if that last call is `startRead`. |
| `LifecycleTheorems.BackAfterDestroy` | net/TcpConnectionff.cpp:196-251 | In every run from a destroy on, the channel is in no poller, and dropping the connection passes the asserts of both destructors, if and only if nobody has called `startRead`, or `stopRead` while `isReading` said yes. |
| `LifecycleTheorems.StaleEndOfFile` | net/TcpConnectionff.cpp:165-192 | A connection closed by another handler of the same poll fails the assert of `handleClose` when, the close callbacks done, its own entry says end of file. |
| `Lifecycle.StepSucceedsExactly` | net/TcpServerff.cpp:43-104 | Each step fails an assert if and only if it is one of those three missteps, and otherwise keeps the invariant. |
| `Lifecycle.EndOfFileSucceedsExactly` | net/TcpConnectionff.cpp:254-315 | Handling end of file of a reported connection succeeds if and only if nothing has closed it since the poll. |
| `Lifecycle.FreeSucceedsExactly` | net/TcpConnectionff.cpp:53-59 | Dropping a destroyed connection passes the asserts of its destructor and its channel's if and only if no poller knows the channel. |
| `Lifecycle.DeliverSucceedsExactly` | net/EventLoopff.cpp:151-163 | Running the head of a loop's queue succeeds unless it destroys a connection that reads. |
| `LifecycleTheorems.OneLifeEach` | net/TcpConnectionff.cpp:227-315 | In every reachable state each connection has passed an initial part of accept, establish, close, erase, destroy, each once; it is in the map until erased, in its poller from establish to destroy, and not before nor once dropped; of its three messages exactly the awaited one is queued, once, on the right loop. |
| `LifecycleTheorems.EstablishReads` | net/TcpConnectionff.cpp:227-238 | Delivering the establish message makes the connection connected, reading and known to its loop's poller. |
| `LifecycleTheorems.AcceptMakes` | net/TcpServerff.cpp:43-71 | Accepting makes one connection under a new name for the descriptor and loop given, connected and reading at once on the main loop, and otherwise with its establish message at the end of the loop's queue. |
| `LifecycleTheorems.ReadsWhileOpen` | net/TcpConnectionff.cpp:196-224 | In every run an open connection reads exactly if the last of its calls of `startRead` and `stopRead` that had an effect says so. |
| `LifecycleTheorems.StopReadLostExactly` | net/TcpConnectionff.cpp:217-224 | `stopRead` leaves an open connection reading if and only if it reads, wants to write too, and `isReading` says no. |
| `LifecycleTheorems.ReleaseFrees` | net/TcpConnectionff.cpp:53-59 | When the last reference goes the descriptor is free again. |
| `LifecycleProgress.ReachesDestroy` | net/TcpConnectionff.cpp:227-315 | From every quiet state each closed connection can be brought to its destroy by the loops alone, without a call, an accept or an end of file. |
| `LifecycleProgress.Delivers` | net/EventLoopff.cpp:82-163 | From every quiet state any message in a loop's queue can be delivered by the loop alone, which moves its connection's life on. |
| `LifecycleTheorems.RunMovesForward` | net/TcpServerff.cpp:43-104 | Milestones are never undone and connections never forgotten. |
| `Lifecycle.NoCollision` | net/Pollerff.cpp:79-82 | A channel new to its poller, on a reused descriptor or not, finds the descriptor free there. |
| `Lifecycle.EstablishDelivered` | net/TcpConnectionff.cpp:227-238 | Delivering the establish message succeeds and keeps the invariant. |
| `Lifecycle.RemoveDelivered` | net/TcpServerff.cpp:90-104 | Delivering the remove message succeeds (the erase finds its one entry) and keeps the invariant, by which the destroy message is then the one in flight. |
| `Lifecycle.DestroyDelivered` | net/TcpConnectionff.cpp:241-251 | Delivering the destroy message succeeds if and only if the connection has no read interest, and then keeps the invariant, by which the channel is in no poller. |
| `Lifecycle.BeginCloseKeepsInv` | net/TcpConnectionff.cpp:304-311 | Closing an established connection, by end of file or `forceClose`, succeeds and keeps the invariant, by which it is then disconnected without interest. |
| `Lifecycle.FinishCloseKeepsInv` | net/TcpServerff.cpp:85-88 | The close callback succeeds and keeps the invariant: from then on the remove message, or on the main loop already the destroy message, is the one in flight. |
| `Lifecycle.ActKeepsInv` | net/TcpConnectionff.cpp:145-224 | Shutdown, force close, start and stop of reading, and asking for write interest, also by a send that comes after the shutdown, at any stage after the establishment, pass their asserts and keep the invariant. |
| `LifecycleTheorems.StartReadAfterCloseFails` | net/TcpConnectionff.cpp:165-251 | With the destroy next and nothing reading, a user call makes the destroy fail its assert if and only if it is `startRead`. |
| `LifecycleTheorems.StopReadAfterDestroyReturns` | net/TcpConnectionff.cpp:196-224 | On a destroyed connection `stopRead` gives the dead channel back to its poller if and only if `isReading` says yes, and otherwise changes nothing; `startRead` always does; no other call changes anything. |
| `LifecycleObject.TcpServerff.NewConnection` | net/TcpServerff.cpp:43-71 | The registry gains the connection under a new name; the state is the machine's. |
| `LifecycleObject.TcpServerff.HandleClose` | net/TcpConnectionff.cpp:304-315 | With its asserts as proved assertions, the state is the machine's after the close. |
| `LifecycleObject.TcpServerff.HandleRead` | net/TcpConnectionff.cpp:254-271 | The next entry of an active list: bytes leave the connection as it is, end of file closes it. |
| `LifecycleObject.TcpServerff.ForceClose` | net/TcpConnectionff.cpp:165-192 | On the loop thread it closes an open connection at once and leaves a closed one alone. |
| `LifecycleObject.TcpServerff.StartReadInLoop` | net/TcpConnectionff.cpp:202-209 | The machine's call; afterwards the connection reads and `isReading` says yes. |
| `LifecycleObject.TcpServerff.StopReadInLoop` | net/TcpConnectionff.cpp:217-224 | The machine's call; afterwards `isReading` says no, and the channel still reads exactly if it read, wrote, and `isReading` said no before. |
| `LifecycleObject.TcpServerff.RemoveConnectionInLoop` | net/TcpServerff.cpp:90-104 | The erase removes one entry, as asserted, and the destroy message is queued. |
| `LifecycleObject.TcpServerff.ConnectionDestroy` | net/TcpConnectionff.cpp:241-251 | The channel leaves its poller with no interest left. |
| `LifecycleObject.TcpServerff.RunFunctor` | net/EventLoopff.cpp:151-163 | Running the next swapped functor of a loop is the machine's delivery, unless that is a misstep. |
| `LifecycleObject.TcpServerff.SwapFunctors` | net/EventLoopff.cpp:154-158 | The machine's swap of a loop's queue. |
| `OutputStream.StreamConserved` | net/TcpConnectionff.cpp:96-141 | For every pattern of sends, partial writes, would-blocks, errors, writable events, half-closes and closes, the bytes on the wire followed by the output buffer are the concatenation of the sends that did not break; and until the close the write bit is set exactly when bytes wait. |
| `OutputStream.RunConserves` | net/TcpConnectionff.cpp:96-301 | The same from any state in which it holds. |
| `OutputStream.CallbacksExactly` | net/TcpConnectionff.cpp:110-134 | A run queues one write-complete callback for each send taken whole at once and each writable event that took all that waited, and one high-water callback for each send whose left-over bytes take the waiting ones from below the mark to it or past it; no others. |
| `OutputStream.SendEffect` | net/TcpConnectionff.cpp:96-141 | What a send writes, keeps and asks for, for each answer of the kernel. |
| `OutputStream.DrainsExactly` | net/TcpConnectionff.cpp:274-301 | Waiting bytes are written by a writable event if and only if read interest is off; otherwise nothing changes. |
| `OutputStream.ReadingBlocksDrain` | net/TcpConnectionff.cpp:274-301 | A reading connection stays as it is through any number of writable events. |
| `OutputStream.ShutdownWaitsExactly` | net/TcpConnectionff.cpp:145-162 | `shutdown` itself closes the write side over waiting bytes if and only if some wait and read interest is on. |
| `OutputStream.DrainThenShut` | net/TcpConnectionff.cpp:96-301 | In every continuation of a `shutdown`, with partial writes, would-blocks, errors, sends still queued by other threads, changes of read interest and the close, the write side is shut exactly when everything accepted is on the wire, if and only if nothing was waiting at the call or read interest was off. |
| `OutputStream.LastWriteShuts` | net/TcpConnectionff.cpp:277-292 | While draining with read interest off, the write that takes the rest shuts the write side with everything on the wire. |
| `OutputStream.DrainsInTime` | net/TcpConnectionff.cpp:274-301 | While draining with read interest off, as many writable events that each take something as bytes are waiting shut the write side with everything on the wire. |
| `OutputStream.RemainingAssertExactly` | net/TcpConnectionff.cpp:100-127 | The assert in `sendInLoop` holds if and only if nothing was waiting and the kernel took at least one byte. |
| `OutputStreamObject.TcpConnectionff.SendInLoop` | net/TcpConnectionff.cpp:96-141 | On the connection object and its in-place buffer: exactly the machine's send. |
| `OutputStreamObject.TcpConnectionff.HandleWrite` | net/TcpConnectionff.cpp:274-301 | Exactly the machine's reaction to a writable event; a write-complete callback is queued exactly if the write took all that waited. |
| `OutputStreamObject.TcpConnectionff.Shutdown` | net/TcpConnectionff.cpp:145-162 | Exactly the machine's half-close. |
| `OutputStreamObject.TcpConnectionff.PerformAll` | net/TcpConnectionff.cpp:96-301 | After any calls on a new connection, wire and buffer hold the accepted sends in order, and the callbacks queued are those counted from the calls. |
| `Poller.KernelMirrored` | net/Pollerff.cpp:71-157 | After every legal run of enable, disable and remove calls the kernel's interest set is exactly the added channels with their events and pointers; no `epoll_ctl` adds a present descriptor or changes an absent one. |
| `Poller.CallSucceedsExactly` | net/Pollerff.cpp:71-131 | A call passes all asserts and system calls if and only if it is legal: no second channel on a known descriptor, no removal of an unknown or interested channel; then the mirror still agrees. |
| `Poller.CallEffect` | net/Channelff.h:44-55 | Each legal enable and disable changes its own interest bit only, and no other channel's; afterwards the kernel watches the descriptor with that interest, unless it was removed or a watched channel lost its last interest. |
| `Poller.InterestFollowsCalls` | net/Channelff.h:44-55 | After a legal run each channel wants input exactly if the last call that says anything about input enables it, likewise for output, and the kernel has that interest for every descriptor it watches. |
| `Poller.UpdateSucceedsExactly` | net/Pollerff.cpp:71-108 | Setting any interest succeeds if and only if a new channel's descriptor is free. |
| `Poller.RemoveSucceedsExactly` | net/Pollerff.cpp:110-131 | Removing succeeds if and only if the channel is known and has no interest. |
| `PollerObject.Pollerff.UpdateChannel` | net/Pollerff.cpp:71-108 | The object does the machine's update on channel objects. |
| `PollerObject.Pollerff.RemoveChannel` | net/Pollerff.cpp:110-131 | The object does the machine's removal. |
| `PollerObject.Pollerff.Perform` | net/Channelff.h:42-58 | Each call sets and clears exactly the interest bits it names, and the kernel then has them, as the machine's call. |
| `PollerObject.Pollerff.FillActiveChannels` | net/Pollerff.cpp:59-69 | For every report of the kernel both asserts hold, and the active list is the reported channels in order, with the reported events. |
| `Buffer.IntRoundTrip` | net/Bufferff.h:251-357 | An integer of any width, negative ones included, read back from its network-order bytes is the integer written. |
| `Buffer.BigEndianRoundTrip` | net/Bufferff.h:251-357 | The same for the unsigned value of the bytes. |
| `Buffer.ByteAt` | net/Bufferff.h:251-275 | Byte k of w is the digit of weight 256^(w-1-k): network byte order. |
| `Buffer.EncodeIsNetworkBytes` | net/Bufferff.h:251-275 | The bytes of an integer, negative or not, are those of its two's complement, most significant first. |
| `Buffer.FindCrlf` | net/Bufferff.h:78-83 | The first CR LF of a text, or nothing exactly if there is none. |
| `Buffer.Bufferff.constructor` | net/Bufferff.h:35-43 | An empty buffer with the cheap prefix and the asked-for room. |
| `Buffer.Bufferff.FindCRLF` | net/Bufferff.h:78-83 | The search over the readable bytes finds the first CR LF, without reading past them. |
| `Buffer.Bufferff.Retrieve` | net/Bufferff.h:116-127 | The readable bytes lose exactly the first `len`. |
| `Buffer.Bufferff.RetrieveAsString` | net/Bufferff.h:171-177 | What is returned followed by what is left is what was there. |
| `Buffer.Bufferff.Unwrite` | net/Bufferff.h:236-240 | The readable bytes lose exactly the last `len`. |
| `Buffer.Bufferff.MoveDown` | net/Bufferff.h:443-451 | The overlapping forward copy keeps the readable bytes. |
| `Buffer.Bufferff.MakeSpace` | net/Bufferff.h:434-453 | The contents stay, the room suffices, the assert in the copying branch holds, and the size is at most the larger of the old size and 2*(readable+len)+7. |
| `Buffer.Bufferff.EnsureWritableBytes` | net/Bufferff.h:211-219 | The same, and nothing moves when the room sufficed. |
| `Buffer.Bufferff.Append` | net/Bufferff.h:190-196 | The data is appended, within the same bound on growth. |
| `Buffer.Bufferff.Prepend` | net/Bufferff.h:364-371 | The data is put in front. |
| `Buffer.Bufferff.Shrink` | net/Bufferff.h:406-413 | The contents stay, the reserve is there, and the new size is at most the larger of a new buffer's and 2*(readable+reserve)+7. |
| `Buffer.Bufferff.ReadFd` | net/Bufferff.cpp:13-37 | Through either path exactly the bytes read are appended, with the size at most the larger of the old one and twice the new contents plus 7; an error changes nothing and is reported. |
| `Buffer.Bufferff.ReadInt` | net/Bufferff.h:286-357 | Returns the integer whose network-order bytes come first, whichever it is, and takes them off. |
| `Http.ChunkingInvariant` | http/HttpContextff.cpp:53-109 | Two ways of cutting the same bytes into messages, also between CR and LF, lead to the same outcome, request (but for its receive time) and remaining bytes. |
| `Http.FeedIsParse` | http/HttpContextff.cpp:53-109 | Feeding pieces, from any resumable context and pending bytes, equals parsing everything at once, up to the first failure or completion. |
| `Http.ParseSplit` | http/HttpContextff.cpp:53-109 | Parsing a prefix and then resuming on the rest is parsing the whole. |
| `Http.LeftoverHasNoLine` | http/HttpContextff.cpp:53-109 | When parsing pauses, what is left contains no complete line. |
| `Http.ParseTimeless` | http/HttpContextff.cpp:66-72 | The receive time influences nothing but itself. |
| `HttpTheorems.RoundTrip` | http/HttpContextff.cpp:7-109 | Parsing a rendered request of any supported method, path, query and trimmed headers, whatever follows it, completes with the same fields and leaves exactly what followed; the version comes out collapsed. |
| `HttpTheorems.RoundTripInChunks` | http/HttpContextff.cpp:7-109 | The same however the rendered bytes are cut. |
| `HttpTheorems.RequestLineParses` | http/HttpContextff.cpp:7-51 | A rendered request line sets method, path, query and the collapsed version. |
| `HttpGrammar.GoodLineExactly` | http/HttpContextff.cpp:7-51 | A request line is good if and only if it is one of the five method names, a space, a target without spaces, a space, and eight characters: "HTTP/", 1 or 2, a point, anything. |
| `HttpGrammar.GoodLineSets` | http/HttpContextff.cpp:7-51 | What a good line sets: the method, the target up to its first question mark as path, the rest as query, the version by its major number; nothing else. |
| `HttpGrammar.MethodExactly` | http/HttpRequestff.h:66-88 | Each of the five method names is recognised, and no other text. |
| `HttpGrammar.FailsExactly` | http/HttpContextff.cpp:53-109 | Parsing fails if and only if a request line is expected and the first whole line is not good; never in headers. |
| `HttpTheorems.HeadersParse` | http/HttpContextff.cpp:81-101 | Rendered headers and the empty line fill the header map and complete the request. |
| `HttpGrammar.HeaderLineExactly` | http/HttpContextff.cpp:81-101 | A header line sets the field before its first colon; a line without a colon, empty or not, completes the request. |
| `HttpGrammar.TrimExactly` | http/HttpRequestff.h:143-158 | The value stored is the text after the colon without exactly the blanks at its two ends. |
| `HttpTheorems.HeaderMapExact` | http/HttpRequestff.h:143-158 | With distinct names the parsed map holds exactly the headers sent. |
| `HttpTheorems.VersionRightExactly` | http/HttpContextff.cpp:31-47 | A rendered version is read back right if and only if it is not 1.1. |
| `HttpTheorems.Http11NeverParsed` | http/HttpContextff.cpp:34-41 | No version text at all yields `kHttp11`. |
| `HttpTheorems.FailureIsPermanent` | http/HttpContextff.cpp:62-74 | After a bad request line every later call fails on it again and consumes nothing. |
| `HttpTheorems.MethodAssertExactly` | http/HttpRequestff.h:66-88 | After a rejected request line the assert in `setMethod` holds at the next call if and only if the line named no known method. |
| `HttpServing.EachRequestServedOnce` | http/HttpServerff.cpp:49-67 | Requests rendered by a client and arriving one after the other, each cut anywhere into messages of its own, are each served exactly once, in order, with the fields that were sent (version collapsed), and the parser is left ready for the next. `HttpPipeline.ServedInOrder` has the messages that straddle two requests. |
| `HttpGrammar.RejectsExactly` | http/HttpServerff.cpp:56-60 | A message is answered with 400 if and only if it makes parsing fail. |
| `HttpGrammar.RejectsForEver` | http/HttpServerff.cpp:56-60 | And then so is every later message. |
| `HttpPipeline.ServedInOrder` | http/HttpServerff.cpp:49-67 | However the bytes of requests sent back to back are cut into messages, also across the borders of requests, the requests served are the first ones, in order, each once, with the fields sent: one for each message that finds a whole request in the buffer. |
| `HttpPipeline.AllServedExactly` | http/HttpServerff.cpp:49-67 | All of them are served if and only if after any number of messages there are at least as many to come as requests not yet arrived as a whole. |
| `HttpPipeline.AnsweredExactly` | http/HttpServerff.cpp:69-90 | For any application, with state of its own and whatever it looks at, the i-th request is answered if and only if it is served and the application has left no earlier response closing. |
| `HttpPipeline.AnsweredWhileKept` | http/HttpServerff.cpp:69-90 | With an application that leaves the response as it was made, the i-th request is answered if and only if it is served and every earlier one, as sent, asked to keep the connection. |
| `HttpPipeline.KeptAliveExactly` | http/HttpServerff.cpp:72-77 | The response is told to keep the connection if and only if the last Connection header says Keep-Alive, or the version is 2.0 and it does not say close; so an HTTP/1.1 request without the header has it closed. |
| `HttpServing.SentRequestServedOnce` | http/HttpServerff.cpp:49-67 | The same for one request. |
| `HttpServing.PiecesServedOnce` | http/HttpServerff.cpp:49-67 | From any resumable context: if parsing everything at once completes a request and leaves nothing, serving it in pieces replies once, with that request. |
| `HttpServing.ServingIsFeeding` | http/HttpServerff.cpp:49-67 | Messages that do not complete the request leave the context where feeding the parser leaves it, with no reply. |
| `HttpObject.HttpRequestff.SetMethod` | http/HttpRequestff.h:66-88 | The method named by the text; success exactly for "GET", "POST", "HEAD", "PUT" and "DELETE". |
| `HttpObject.HttpRequestff.AddHeader` | http/HttpRequestff.h:143-158 | The trimming loops set the field to the trimmed value, as the specification's trim. |
| `HttpObject.HttpContextff.ProcessRequestLine` | http/HttpContextff.cpp:7-51 | On the context object: the specification's request line, also the fields a failing line leaves set. |
| `HttpObject.HttpContextff.ParseRequest` | http/HttpContextff.cpp:53-109 | From any state but completion the loop ends, and context, result and remaining buffer are those of the specification. |
| `HttpObject.HttpContextff.Reset` | http/HttpContextff.h:31-36 | The context is new again. |
| `LogStream.DecimalRoundTrip` | base/logger/LogStreamff.cpp:35-55 | The canonical decimal text of every integer parses back to it. |
| `LogStream.DecimalExactly` | base/logger/LogStreamff.cpp:35-55 | The text digit by digit: the last character is the last digit, and a minus sign stands in front exactly for a negative number. |
| `LogStream.ConvertReadsBack` | base/logger/LogStreamff.cpp:35-55 | The text `convert` writes parses back to the value if and only if the value is not zero. |
| `LogStream.DigitsLength` | base/logger/LogStreamff.cpp:80-90 | A number below a power of ten has at most that many digits. |
| `LogStream.Fits` | base/logger/LogStreamff.cpp:80-90 | Every value of every integer type, the minimum included, has at most 20 digits. |
| `LogStream.OneDigit` | base/logger/LogStreamff.cpp:41-46 | With truncating division the table yields the right digit for either sign, and the quotient keeps the other digits. |
| `LogStream.FixedBufferff.Append` | base/logger/LogStreamff.h:49-55 | What fits is appended, never past the end. |
| `LogStream.FixedBufferff.ReverseRange` | base/logger/LogStreamff.cpp:53 | The in-place reversal reverses the range and touches nothing else. |
| `LogStream.FixedBufferff.Convert` | base/logger/LogStreamff.cpp:36-55 | For every value of every integer type the bytes written are the decimal text (empty for zero) with the terminator inside the 32 bytes allowed, and earlier bytes are untouched. |
| `LogStream.FixedBufferff.FormatInteger` | base/logger/LogStreamff.cpp:92-101 | The text is appended whole if 32 bytes are free and not at all otherwise. |
| `EventLoopObject.EventLoopff.constructor` | net/EventLoopff.cpp:42-64 | A new loop is the machine's initial state. |
| `ThreadPoolObject.ThreadPoolff.constructor` | base/thread/ThreadPoolff.cpp:25-44 | A started pool is the machine's initial state, with every worker before its first test of `running_`. |
| `LifecycleObject.TcpServerff.constructor` | net/TcpServerff.cpp:12-30 | A new server is the machine's initial state. |
| `LifecycleObject.TcpServerff.UpdateChannel` | net/Pollerff.cpp:71-108 | The three-way update with its asserts is the machine's change of interest. |
| `LifecycleObject.TcpServerff.ConnectionEstablished` | net/TcpConnectionff.cpp:227-238 | With its assert, the machine's establishment. |
| `LifecycleObject.TcpServerff.RemoveConnection` | net/TcpServerff.cpp:85-88 | The close callback, run at once on the main loop and queued from any other, is the machine's end of a close and keeps the invariant. |
| `OutputStreamObject.TcpConnectionff.constructor` | net/TcpConnectionff.cpp:25-51 | A new connection is the machine's initial state over an empty buffer. |
| `OutputStreamObject.TcpConnectionff.Send` | net/TcpConnectionff.cpp:62-79 | Nothing unless connected, otherwise the machine's send. |
| `PollerObject.Pollerff.FreshAgrees` | net/Pollerff.cpp:18-25 | A new poller agrees with any new channels, so the runs of `Poller.KernelMirrored` can start from it. |
| `Buffer.Bufferff.RetrieveAll` | net/Bufferff.h:158-162 | Nothing readable is left. |
| `Buffer.Bufferff.AppendInt` | net/Bufferff.h:251-275 | Exactly the integer's bytes are appended, two's complement, most significant first. |
| `Buffer.Bufferff.PrependInt` | net/Bufferff.h:377-401 | Exactly the integer's bytes are put in front, two's complement, most significant first. |
| `HttpObject.HttpContextff.constructor` | http/HttpContextff.h:20-23 | A new context expects a request line and has an empty request. |
| `AsyncLoggingObject.AsyncLoggingff.TestRunning` | base/logger/AsyncLoggingff.cpp:70 | The machine's test of `running_`. |
| `AsyncLoggingObject.AsyncLoggingff.Stop` | base/logger/AsyncLoggingff.h:45-50 | The machine's stop. |

## Left out

* Real system calls: sockets, epoll, eventfd, timerfd, errno texts and signals are replaced by what they may return.
* The destructors `~TcpServerff`, `~TimerQueueff` and `~EventLoopff`: their users must outlive pending work, which the code does not enforce.
* Calls on a connection from another thread, which race on the unlocked `setState`, and `forceCloseWithDelay`. Calls from another connection's handler on the same loop are in the model.
* Calls on a connection before it is established or after its last reference is gone: the user has no reference then.
* Cross-thread `send` of a raw pointer: the lifetime of the data is the caller's; the queued `sendInLoop` itself is modelled with its bytes.
* The difference between the clock that stamps timers and the monotonic clock of the timerfd: one clock is used, which may jump.
* Wrap-around of 64-bit counters, `size_t` sums and `time_t`: sequence numbers, sizes and times are unbounded. `shrink` goes through `toString`, whose cast to `int` is exact below 2 GiB, which is assumed.
* An interval is given in whole microseconds, as `addTime` truncates it; the floating-point product is not modelled. A repeating timer whose interval truncates to zero is included.
* `waitForSeconds` is a wait that may end at any time; its arithmetic is not modelled.
* Mutexes are taken as correct: a critical section is one step.
* What the logger still holds when `running_` becomes false is not written by the code; conservation is therefore stated as an invariant, not as a promise about `stop`. A line longer than a whole buffer fails an assert in the debug build and is cut in the release build, which the model follows.
* The text and time stamp of the logger's notice: any text.
* `LogFileff` and `AppendFileff`: an append-only sequence; rolling and flushing are not modelled.
* Hexadecimal pointers, `double` and `Fmt` output: they repeat `convert` or rest on `snprintf`.
* `ThreadPoolff::run` without threads, which runs the task in place, tasks that call `run` of their own pool, and thread joining.
* Initialisation callbacks, `EventLoopThreadPoolff`, `CountDownLatchff`, `Acceptorff`, `Socket`, `InetAddressff`, names of connections (a number stands for a name) and response printing: they would only add easy members.
* In `Lifecycle` an entry of an active list stands for its read event; a stale write event finds `isWriting` false and does nothing. The order of error, read and write events inside `handleEventWithGuard` is not modelled.
* HTTP bodies: the code does not implement them; what follows the headers is taken for the next request.
* In `HttpPipeline` only the server shuts a connection down; the text of a response is not modelled.
* Header names and values with a locale other than the C locale's `isspace`.
* The failure of the assert in `setMethod` (`HttpTheorems.MethodAssertExactly`) as an outcome of the parser: the model follows the release build.
- LogStream.FixedBufferff.Convert: writes nothing for zero, as the code does, so it does not promise the text "0".
- ThreadPool.NobodyWaitsAfterStop: says nothing about tasks still queued, because the code may abandon them.
- HttpTheorems.RoundTrip: promises the collapsed version only, because the code compares two of the three characters.
