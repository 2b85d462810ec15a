# Verified model of the executors library

The library is a set of small concurrency engines over intrusive queues. This
project models them in Dafny and proves what they promise: which thread may
touch what, that no operation is lost or completed twice, in which order
operations are served, and when a wait, a join or a run may end.

Parts that one thread executes at a time are classes whose methods follow the
code branch by branch. Parts that interleave are step machines: every locked
region and every atomic operation is one step, any thread may take any enabled
step, and the theorems quantify over all runs. Where a part is both, the class
and the step machine are stated with the same functions.

| file | what it models |
|---|---|
| `Basics.dfy` | optional values, finite sets of numbers, and how FIFO queues compose over steps |
| `Durations.dfy`, `TimerSpec.dfy` | saturating subtraction; what a timer queue holds, as values |
| `TimerQueues.dfy` | the heap with back indices, the linked list of active timers, and their waits |
| `Reactor.dfy`, `ReactorOrder.dfy`, `ReactorService.dfy` | the reactor as a step machine, what it releases and in what order, and its locked regions as methods |
| `Strand.dfy`, `StrandProgress.dfy`, `CallStack.dfy` | any number of threads and strands, and what a turn of an invoker achieves; the stack that decides inline dispatch |
| `Scheduler.dfy`, `SchedulerOrder.dfy`, `OneThreadRun.dfy` | the work counter with deltas, as steps; which operations run, in what order, until when; `_Run` on one thread |
| `Channel.dfy`, `ChannelQueue.dfy`, `ChannelErrors.dfy`, `VoidChannel.dfy`, `ChannelClasses.dfy` | both channel templates, their meaning as a queue, their error codes, and their lockstep |
| `ForkJoin.dfy`, `ForkJoinCalls.dfy` | the fork/join pool with nested joins and borrowed threads; whole calls on it |
| `Services.dfy`, `ServiceCalls.dfy`, `ExecutionContexts.dfy` | racing and re-entrant registration of services; whole calls; the list they are kept in |
| `Coinvoker.dfy` | the join counter of codispatch and copost |
| `Recycler.dfy`, `OpQueue.dfy` | the block recycler with its in-band tags; the intrusive queue |

`dafny verify dfyconfig.toml` checks everything.

## What the code does that its description does not say

The model follows the code. Where a promise holds only under a condition, the
exact condition is proved, with an input or a run that breaks it:

- The scheduler can stop while a handler still runs, since a post may lend out
  the running handler's own unit of work. In every run, with any number of
  contexts, a stop by the counter is too early exactly if a context other than
  the one that settles has lent its unit (`Scheduler.StopsEarlyExactlyWhenLent`);
  `Scheduler.TwoContextsMayStopEarly` is such a run. Schedulers on which nobody
  takes the lending branch, such as all with a concurrency hint of one, and those
  with one context at a time, stop exactly when nothing is left
  (`Scheduler.StopsExactlyWhenDoneUnlessLent`,
  `Scheduler.OneThreadStopsExactlyWhenDone`, `Scheduler.SoloStopsExactlyWhenDone`).
- Cancelling waiting gets leaves a buffered channel in a state in which a put
  blocks although there is room (`Channel.CancelStaysTightExactlyWhen`,
  `Channel.PutsBlockAfterCancel`).
- Resetting a channel that holds values leaves a state variable that claims a
  value (`Channel.ResetKeepsInvExactlyWithoutBuffer`); and resetting a buffered
  one on which gets wait leaves puts blocked
  (`Channel.ResetRestoresStartExactlyWhen`).
- If a head of a coinvoker is dropped and another completes last, the tail is
  dispatched with a missing result (`Coinvoker.MissingExactlyWhenDropped`).
- `join` is left not only when its group is idle, but also by an exception of a
  function that it borrowed (`ForkJoin.JoinLeftExactlyWhen`). A function that
  joins its own group gets out of the join only that way
  (`ForkJoin.OwnGroupJoinEndsOnlyByException`, with a run in
  `ForkJoin.OwnGroupJoinLeftByException`).

## Model

| member | source | states |
|---|---|---|
| `Durations.SafeSubtract` | include/experimental/bits/timer.h:27-74 | no representable duration is nearer to the true difference than the result, and no intermediate result overflows 64 bits |
| `TimerSpec.EnqueueConserves` | include/experimental/bits/timer_queue.h:90-123 | enqueueing adds one occurrence of the operation and of no other |
| `TimerSpec.CancelConserves` | include/experimental/bits/timer_queue.h:169-186 | every wait is either still queued or handed over by the cancel, as often as before |
| `TimerSpec.RemovalConserves` | include/experimental/bits/timer_queue.h:141-167 | every wait of the removed timers is handed over, as often as it was queued |
| `TimerSpec.DrainDone` | include/experimental/bits/timer_queue.h:141-153 | a drain that stops when nothing is due has taken exactly the timers due, in order of expiry |
| `TimerSpec.OpsOfInOrder` | include/experimental/bits/timer_queue.h:146-151 | what is taken of several timers is in the order of the timers |
| `TimerSpec.OpsOfOne` | include/experimental/bits/timer_queue.h:149-149 | and of one timer in the order of its waits |
| `TimerSpec.TakenInOrder` | include/experimental/bits/timer_queue.h:320-324 | what is taken of a later queue of the set comes after that of earlier ones |
| `TimerSpec.PassLeavesNothingDue` | include/experimental/bits/timer_queue.h:320-324 | after a pass every timer still active in a queue expires after that queue's reading, or never |
| `TimerSpec.CancelTakesWaits` | include/experimental/bits/timer_queue.h:173-184 | a cancel of an active timer takes the oldest max waits, or all, and leaves expiry and all other timers alone |
| `TimerQueues.TopIsEarliest` | include/experimental/bits/timer_queue.h:133-153 | in a heap whose every edge is ordered, no entry is earlier than the first |
| `TimerQueues.SiftUpStep` | include/experimental/bits/timer_queue.h:189-198 | a swap with the parent moves the only misplaced edge up |
| `TimerQueues.SiftDownStep` | include/experimental/bits/timer_queue.h:200-214 | a swap with the lesser child moves the only misplaced edges down |
| `TimerQueues.ReplacedByLast` | include/experimental/bits/timer_queue.h:231-243 | after the last entry replaces a removed one, wherever that was, sifting up or down as the code decides repairs the heap |
| `TimerQueues.TimerQueue.ListedExactlyOnce` | include/experimental/bits/timer_queue.h:110-115 | following the links from the head meets every active timer exactly once, latest activation first, with prev the predecessor |
| `TimerQueues.TimerQueue.EarliestIsLeast` | include/experimental/bits/timer_queue.h:130-153 | the first heap entry is the earliest expiry of any active timer, and the heap is empty exactly if none will expire |
| `TimerQueues.TimerQueue.LinkedIffActive` | include/experimental/bits/timer_queue.h:93-93 | the test "has a predecessor or is the head" is true exactly of timers with waits, which are exactly the active ones |
| `TimerQueues.TimerQueue.SwapHeap` | include/experimental/bits/timer_queue.h:216-223 | swaps two entries and keeps every entry and its timer pointing at each other |
| `TimerQueues.TimerQueue.UpHeap` | include/experimental/bits/timer_queue.h:189-198 | restores heap order and back indices; the first entry changes only for an earlier one that was sifted |
| `TimerQueues.TimerQueue.DownHeap` | include/experimental/bits/timer_queue.h:200-214 | restores heap order and back indices |
| `TimerQueues.TimerQueue.EnqueueTimer` | include/experimental/bits/timer_queue.h:90-123 | the wait is last in its timer's FIFO, an active timer keeps its expiry, no other timer changes, all structure is kept, and true is returned exactly if the earliest expiry strictly dropped or first appeared |
| `TimerQueues.TimerQueue.RemoveFromHeap` | include/experimental/bits/timer_queue.h:227-245 | removal from any heap position keeps order and back indices and removes that timer only |
| `TimerQueues.TimerQueue.RemoveFromList` | include/experimental/bits/timer_queue.h:247-255 | unlinking from any place keeps the doubly linked list of all others |
| `TimerQueues.TimerQueue.RemoveTimer` | include/experimental/bits/timer_queue.h:225-256 | heap, list and back indices stay in agreement without the timer |
| `TimerQueues.TimerQueue.GetReadyTimers` | include/experimental/bits/timer_queue.h:141-153 | terminates; moves out exactly the waits of timers due at the clock reading, in order of expiry and FIFO within a timer, and leaves exactly those that expire later or never |
| `TimerQueues.TimerQueue.CancelTimer` | include/experimental/bits/timer_queue.h:169-186 | moves out at most max waits, and fewer only if none is left, oldest first and marked as cancelled; the timer stays active with its expiry exactly if waits are left; no other timer changes; true exactly if any was moved |
| `TimerQueues.TimerQueue.GetAllTimers` | include/experimental/bits/timer_queue.h:155-167 | moves out every wait of every active timer in list order and leaves an empty, valid queue |
| `TimerQueues.TimerQueue.Empty` | include/experimental/bits/timer_queue.h:125-128 | the head of the list is null exactly if nobody waits |
| `TimerQueues.TimerQueue.WaitDuration` | include/experimental/bits/timer_queue.h:130-139 | at most max, oversleeps no expiry, and is max or the time to some expiry |
| `Reactor.PlacesAfter` | include/experimental/bits/reactor.h:46-115 | no step but an enqueue changes in how many places a wait is, counting queues, reactor queue, running, completed, destroyed |
| `Reactor.StepKeepsInv` | include/experimental/bits/reactor.h:46-115 | every step keeps: each wait in exactly one place, and each released wait with its reason |
| `Reactor.RunKeepsInv` | include/experimental/bits/reactor.h:36-115 | so in every state of every run |
| `Reactor.ExactlyOnce` | include/experimental/bits/reactor.h:36-115 | a wait is completed once or destroyed once, never both; with success only if the clock had reached its timer's expiry, as cancelled only if a cancel picked it |
| `ReactorOrder.EnqueueAppends` | include/experimental/bits/reactor.h:78-87 | in every run an enqueue puts the wait behind those on its timer and changes nothing else |
| `ReactorOrder.CancelTakesOldest` | include/experimental/bits/timer_queue.h:169-186 | in every run a cancel takes the oldest waits of its timer, at most max and fewer only if none is left, and changes no other timer |
| `ReactorOrder.CancelMarksWhatItTakes` | include/experimental/bits/timer_queue.h:175-181 | and appends exactly those to the reactor's queue, in order, marked as cancelled |
| `ReactorOrder.CancelPicksNoMoreThanAsked` | include/experimental/bits/timer.h:194-197 | a cancel picks at most max waits never picked before, and fewer only if its timer has none left |
| `ReactorOrder.PassDrains` | include/experimental/bits/reactor.h:105-105 | after a drain no queue holds a wait whose expiry its reading had reached |
| `ReactorOrder.CompletedInOrderOfRelease` | include/experimental/bits/reactor.h:105-112 | until a shutdown or the destructor, what drains and cancels released is, in that order, completed, then running, then in the reactor's queue |
| `ReactorOrder.DueWaitsComplete` | include/experimental/bits/reactor.h:105-114 | every wait that is due at a drain has completed when the thread waits again |
| `ReactorOrder.DueWaitsCompleteInOrder` | include/experimental/bits/reactor.h:105-114 | and waits due at one drain complete in order of expiry, and FIFO on one timer |
| `ReactorOrder.ShutdownGivesUpAll` | include/experimental/bits/reactor.h:46-53 | a shutdown leaves nobody waiting and nothing to complete |
| `ReactorOrder.DestructGivesUpRest` | include/experimental/bits/reactor.h:118-123 | the destructor destroys what is left in the reactor's queue, in order |
| `ReactorOrder.StopsForGood` | include/experimental/bits/reactor.h:36-44 | once told to stop, the thread never drains again, and leaves when its wait is over |
| `ReactorService.ReactorService.AddTimerQueue` | include/experimental/bits/reactor.h:55-60 | a queue joins the set at the front and disturbs no other |
| `ReactorService.ReactorService.EnqueueTimer` | include/experimental/bits/reactor.h:78-87 | enqueues on the given queue, leaves all others as they are, and asks for a wake-up exactly if that queue's earliest expiry dropped |
| `ReactorService.ReactorService.CancelTimer` | include/experimental/bits/reactor.h:89-97 | the oldest waits, at most max and fewer only if none is left, go to the back of the reactor's queue, which is woken exactly if there are any |
| `ReactorService.ReactorService.GetReadyTimers` | include/experimental/bits/timer_queue.h:320-324 | one pass drains every queue at its own clock reading, and leaves nothing due |
| `ReactorService.ReactorService.ShutdownService` | include/experimental/bits/reactor.h:46-53 | gives up every wait of every queue and of the reactor's queue, and leaves all empty |
| `ReactorService.ReactorService.PopOrWait` | include/experimental/bits/reactor.h:106-109 | takes the oldest operation, if there is one |
| `ReactorService.ReactorService.WaitDuration` | include/experimental/bits/timer_queue.h:311-318 | the set's bound is exactly the least of max and the saturated times to expiry of all queues |
| `Strand.StepKeepsInv` | include/experimental/bits/strand.h:286-402 | every step of every thread keeps one place for each strand's token, and the queues' agreement with it |
| `Strand.RunKeepsInv` | include/experimental/bits/strand.h:286-402 | so in every state of every run |
| `Strand.Exclusion` | README.md:216-216 | no two threads are ever inside operations of one strand, and its loop is never entered twice |
| `Strand.ReadyIffToken` | include/experimental/bits/strand.h:286-402 | the flag is set exactly while one thread or one submitted invoker carries the token, and there is never a second |
| `Strand.OnlyHolderTouchesReadyQueue` | include/experimental/bits/strand.h:295-376 | a thread that changes or reads the ready queue outside the lock carries the token, and no other thread or invoker does |
| `Strand.FifoAndNoLoss` | include/experimental/bits/strand.h:290-402 | what was enqueued, in lock order, is what was run, then the ready queue, then a claimed operation not pushed yet, then the waiting queue; also when operations throw |
| `Strand.QuiescentMeansAllRun` | include/experimental/bits/strand.h:290-402 | once all threads have returned and no invoker is submitted, everything has been run in order |
| `StrandProgress.HistoriesAreExact` | include/experimental/bits/strand.h:307-319 | what the order laws call enqueued and run is what the calls enqueued and what the threads' frames run |
| `StrandProgress.InlineRunsAtOnce` | include/experimental/bits/strand.h:326-330 | a dispatch from inside the strand runs on that thread at once and touches no queue |
| `StrandProgress.EnqueuedBeforeExitIsRunByNext` | include/experimental/bits/strand.h:290-304 | everything enqueued before one turn of an invoker ended has been run when a later turn ends, unless an operation threw in between |
| `StrandProgress.NothingRunsBetweenThrowAndExit` | include/experimental/bits/strand.h:286-318 | an exception ends the turn: nothing of the strand is begun before the exit guard has run |
| `StrandProgress.TurnCanEnd` | include/experimental/bits/strand.h:286-319 | a thread in the loop can, by steps of its own, run all that is ready in order, make ready what waits, submit the invoker again exactly if that is something, and return |
| `Strand.StrandImpl.LockedClaim` | include/experimental/bits/strand.h:335-346 | joins the waiting queue or claims the token |
| `Strand.StrandImpl.PopFront` | include/experimental/bits/strand.h:314-318 | takes the oldest ready operation, or reports that there is none |
| `Strand.StrandImpl.LockedRelease` | include/experimental/bits/strand.h:292-297 | all that waited becomes ready behind what was, nothing waits, and the token is kept exactly if that is something |
| `Strand.StrandImpl.PushClaimed` | include/experimental/bits/strand.h:348-349 | the claimed operation is last in the ready queue |
| `Strand.StrandImpl.Invoke` | include/experimental/bits/strand.h:307-319 | undisturbed, the call operator runs all that was ready, in order, makes ready all that waited, and is deferred again exactly if that is something |
| `CallStack.ThreadStack.Contains` | include/experimental/bits/call_stack.h:54-64 | finds the innermost context with the key, or none exactly if the thread is in none |
| `CallStack.ThreadStack.Enter` | include/experimental/bits/call_stack.h:29-40 | the new context is innermost |
| `CallStack.ThreadStack.Leave` | include/experimental/bits/call_stack.h:42-45 | the stack is as before the context was entered |
| `Scheduler.StepKeepsInv` | include/experimental/bits/scheduler.h:49-115 | every step keeps counter + deltas = remaining work, and one holder of the mutex |
| `Scheduler.RunKeepsInv` | include/experimental/bits/scheduler.h:49-157 | so in every state of every run |
| `Scheduler.Accounting` | include/experimental/bits/scheduler.h:361-423 | outstanding work + deltas = external + queued + private + posts under way; at zero, nothing remains exactly if the deltas cancel out |
| `Scheduler.NoSelfDeadlock` | include/experimental/bits/scheduler.h:49-79 | a context with a non-zero delta, or about to stop or lock, does not hold the mutex |
| `Scheduler.CounterIsExact` | include/experimental/bits/scheduler.h:361-423 | in every run the counter = external + queued + posts under way + what contexts are about to publish + one per busy context that has not lent its unit |
| `Scheduler.StopsEarlyExactlyWhenLent` | include/experimental/bits/scheduler.h:49-107 | in every run, when the counter stops the scheduler, something is left exactly if a context other than the settling one has lent its unit, and nothing but such contexts is left |
| `Scheduler.StopsExactlyWhenDoneUnlessLent` | include/experimental/bits/scheduler.h:361-423 | with any number of contexts, as long as no post lends, settling work stops the scheduler exactly if no external, queued, private or running work is left |
| `Scheduler.OneThreadStopsExactlyWhenDone` | include/experimental/bits/scheduler.h:371-378 | so with a concurrency hint of one |
| `Scheduler.SoloStopsExactlyWhenDone` | include/experimental/bits/scheduler.h:49-107 | and so with one context at a time, lending or not |
| `Scheduler.TwoContextsMayStopEarly` | include/experimental/bits/scheduler.h:379-382 | a run with two contexts in which the counter reaches zero while a handler runs |
| `SchedulerOrder.EachOperationOnce` | include/experimental/bits/scheduler.h:361-423 | in every run each operation was submitted as often as it was taken, is queued, is private to a context, or is on its way |
| `SchedulerOrder.TakenInOrderOfPublication` | include/experimental/bits/scheduler.h:242-243 | what was published to the global queue, in the order of the mutex, is what was taken, in order, and then the queue |
| `SchedulerOrder.PublishedInOrderOfSubmission` | include/experimental/bits/scheduler.h:371-378 | what one context's handlers left to it to publish is published in that order |
| `SchedulerOrder.StopIsNotForgotten` | include/experimental/bits/scheduler.h:103-115 | once the counter reached zero or a stop was asked for, until a restart the scheduler is stopped or somebody is about to stop it |
| `SchedulerOrder.NothingTakenWhileStopped` | include/experimental/bits/scheduler.h:239-240 | while it is stopped no operation is taken |
| `SchedulerOrder.StoppedExactlyByStop` | include/experimental/bits/scheduler.h:109-127 | it is stopped exactly if a stop got the mutex since the last restart |
| `SchedulerOrder.StopNeedsOnlyTheMutex` | include/experimental/bits/scheduler.h:109-115 | whoever is about to stop it can as soon as the mutex is free |
| `OneThreadRun.Scheduler.Lock` | include/experimental/bits/scheduler.h:64-78 | settles the delta, stopping exactly if that reaches zero, and publishes the private queue behind the global one |
| `OneThreadRun.Scheduler.DoRunOne` | include/experimental/bits/scheduler.h:234-253 | runs the front handler, or nothing if stopped; has to wait exactly if nothing is queued and it is not stopped |
| `OneThreadRun.Scheduler.Run` | include/experimental/bits/scheduler.h:129-144 | terminates without waiting, has run the breadth-first worklist of the queue, returns its length (saturating), and leaves the scheduler stopped with counter zero |
| `OneThreadRun.WorklistFinishesLevel` | include/experimental/bits/scheduler.h:361-423 | all handlers queued run before any they spawn |
| `OneThreadRun.WorklistIsLevelOrder` | include/experimental/bits/scheduler.h:361-423 | the worklist runs a forest level by level, each level in spawn order |
| `OneThreadRun.WorklistRunsEachOnce` | include/experimental/bits/scheduler.h:129-144 | every handler of the forest is run exactly once |
| `Channel.InvMeansDefined` | include/experimental/bits/channel.h:240-461 | in a state that a run can reach, every branch finds the value or waiter that it dereferences |
| `Channel.StepKeepsInv` | include/experimental/bits/channel.h:240-461 | every call keeps what the pair of end states says about buffer and waiters |
| `Channel.RunKeepsInv` | include/experimental/bits/channel.h:240-461 | so in every state of every run |
| `Channel.InvMeansReachable` | include/experimental/bits/channel_base.h:105-110 | and conversely, every state with that property is reached by some run |
| `Channel.NobodyWaitsInVain` | include/experimental/bits/channel.h:371-461 | buffer within capacity; putters and getters never wait together; no getter waits while a value is there |
| `Channel.RunStaysTight` | include/experimental/bits/channel.h:240-276 | without cancel and reset, a put waits or would block only if the buffer is full and no getter waits |
| `Channel.CancelStaysTightExactlyWhen` | include/experimental/bits/channel_base.h:221-233 | a cancel keeps that exactly if neither getters wait on a buffered channel nor putters on a closed one |
| `Channel.PutsBlockAfterCancel` | include/experimental/bits/channel_base.h:229-232 | runs that break it: a put blocks on an empty buffered channel, and a get waits on a closed empty one |
| `Channel.ResetKeepsInvExactlyWithoutBuffer` | include/experimental/bits/channel_base.h:190-197 | after a reset every call is defined exactly if the buffer was not in use; otherwise the next get reads an empty buffer |
| `Channel.ResetRestoresStartExactlyWhen` | include/experimental/bits/channel_base.h:190-197 | otherwise the channel is as good as new exactly if it is unbuffered, or puts were neither blocked nor met by waiting gets; if not, puts block on the empty channel |
| `Channel.TightResetRestoresStartExactlyWhen` | include/experimental/bits/channel_base.h:190-197 | in states reached without cancel and reset, that is exactly if no gets wait on a buffered channel |
| `ChannelQueue.StepIsQueueStep` | include/experimental/bits/channel.h:240-461 | every call delivers from the front, accepts at the back, and a cancel cuts off only what waiting putters brought |
| `ChannelQueue.ChannelIsQueue` | include/experimental/bits/channel.h:240-461 | in every run, delivered values, then buffer, then waiting putters' values are the accepted values in order, without those withdrawn by cancels |
| `ChannelQueue.StepCompletesInOrder` | include/experimental/bits/channel.h:371-461 | every call completes waiting operations first come, first served |
| `ChannelQueue.CompletedInOrderOnce` | include/experimental/bits/channel.h:371-461 | in every run, the operations started are those completed followed by those waiting, in order, so each completes at most once |
| `ChannelQueue.CloseKeepsValues` | include/experimental/bits/channel_base.h:199-219 | a close keeps all values and completes exactly the waiting getters, in order, with a broken pipe |
| `ChannelQueue.CloseThenDrain` | include/experimental/bits/channel.h:305-350 | after a close, gets deliver all pending values in order, waiting putters' included, and then a broken pipe for ever |
| `ChannelQueue.ClosedNeverAccepts` | include/experimental/bits/channel.h:269-274 | after a close every put fails with a broken pipe and changes nothing, and no get is left waiting |
| `ChannelErrors.HandlerErrors` | include/experimental/bits/channel.h:371-461 | in every run a handler gets operation_canceled exactly by a cancel or reset, broken_pipe exactly by a close of its waiting get or at its own start on a closed end, and success by every other call; a get gets a value exactly with success |
| `ChannelErrors.CancelEndsAllWaiting` | include/experimental/bits/channel_base.h:221-227 | a cancel or reset completes everybody who waits, in order |
| `ChannelErrors.SuccessIsDeliveredOrBuffered` | include/experimental/bits/channel.h:335-343 | in every run the values of the puts that were told success are, in that order, those delivered and then those in the buffer |
| `ChannelErrors.ClosedExactlyByClose` | include/experimental/bits/channel_base.h:190-201 | the put end is closed exactly if there was a close since the last reset |
| `ChannelErrors.PutErrors` | include/experimental/bits/channel.h:240-276 | a put fails with broken_pipe exactly on a closed channel, would block exactly if its end is blocked, and else succeeds, which means delivered or buffered |
| `ChannelErrors.GetErrors` | include/experimental/bits/channel.h:305-352 | a get succeeds exactly if the channel holds a value, and returns the oldest; else its end is closed or blocked, and it says which |
| `ChannelErrors.ErrorsWithoutCancel` | include/experimental/bits/channel.h:240-352 | without cancel and reset, a put would block exactly on a full open channel on which no get waits, and a get finds a broken pipe exactly once the channel was closed and is empty |
| `VoidChannel.StepKeepsInv` | include/experimental/bits/channel_void.h:164-372 | every call keeps what the pair of end states says about counter and waiters |
| `VoidChannel.SameInv` | include/experimental/bits/channel_void.h:164-372 | that is exactly what it says about the channel with values, up to values |
| `VoidChannel.Lockstep` | include/experimental/bits/channel_void.h:164-372 | forgetting the values before a call or after it gives the same state, error code and completions in the same order |
| `VoidChannel.RunForgets` | include/experimental/bits/channel_void.h:164-372 | every run with values is, without them, a run of the void channel with the same outcomes |
| `VoidChannel.RunLifts` | include/experimental/bits/channel_void.h:164-372 | every run of the void channel comes from one with values |
| `VoidChannel.CounterStaysInRange` | include/experimental/bits/channel_void.h:240-246 | the counter is within the capacity and is never decremented at zero |
| `ChannelClasses.ValueChannel.constructor` | include/experimental/bits/channel_base.h:105-110 | a new channel is the start state of its capacity |
| `ChannelClasses.ValueChannel.Put` | include/experimental/bits/channel.h:240-276 | the branches of the code are the step Put |
| `ChannelClasses.ValueChannel.Get` | include/experimental/bits/channel.h:305-352 | the branches of the code are the step Get |
| `ChannelClasses.ValueChannel.StartPut` | include/experimental/bits/channel.h:371-410 | the branches of the code are the step StartPut |
| `ChannelClasses.ValueChannel.StartGet` | include/experimental/bits/channel.h:412-461 | the branches of the code are the step StartGet |
| `ChannelClasses.ValueChannel.Close` | include/experimental/bits/channel_base.h:199-219 | the loop over the waiters is the step Close |
| `ChannelClasses.ValueChannel.Cancel` | include/experimental/bits/channel_base.h:221-233 | the loop over the waiters is the step Cancel |
| `ChannelClasses.ValueChannel.Reset` | include/experimental/bits/channel.h:206-210 | is the step Reset, after which the channel can be used exactly if its buffer was not in use |
| `ChannelClasses.CountingChannel.Put` | include/experimental/bits/channel_void.h:164-199 | the branches of the code are the void step Put |
| `ChannelClasses.CountingChannel.Get` | include/experimental/bits/channel_void.h:226-269 | the branches of the code are the void step Get |
| `ChannelClasses.CountingChannel.StartPut` | include/experimental/bits/channel_void.h:287-325 | the branches of the code are the void step StartPut |
| `ChannelClasses.CountingChannel.StartGet` | include/experimental/bits/channel_void.h:327-372 | the branches of the code are the void step StartGet |
| `ChannelClasses.CountingChannel.Close` | include/experimental/bits/channel_base.h:199-219 | the shared close is the void step Close |
| `ChannelClasses.CountingChannel.Cancel` | include/experimental/bits/channel_base.h:221-233 | the shared cancel is the void step Cancel |
| `ChannelClasses.CountingChannel.Reset` | include/experimental/bits/channel_void.h:129-134 | is the void step Reset, after which the channel can be used exactly if its counter was not in use |
| `ForkJoin.StepKeepsInv` | src/examples/executor/fork_join.cpp:69-228 | every step keeps the accounting of every group and of the pool |
| `ForkJoin.RunKeepsInv` | src/examples/executor/fork_join.cpp:31-228 | so in every state of every run |
| `ForkJoin.Accounting` | src/examples/executor/fork_join.cpp:100-115 | a group's count = external + queued + running on all threads; use count = pool itself + groups with work; no counter underflows |
| `ForkJoin.JoinReturnsExactlyWhenIdle` | src/examples/executor/fork_join.cpp:222-228 | the loop test of a join ends it exactly if nothing of the group is queued, running on any thread, or outstanding outside |
| `ForkJoin.JoinLeftExactlyWhen` | src/examples/executor/fork_join.cpp:81-97 | in every run, a thread gets out of a join exactly if its loop test finds the group idle or a function that it borrowed throws |
| `ForkJoin.JoinWaitsOnlyForOthers` | src/examples/executor/fork_join.cpp:222-228 | a join waits without executing anything only if the queue is empty and work of the group is running or outstanding |
| `ForkJoin.OwnGroupJoinEndsOnlyByException` | src/examples/executor/fork_join.cpp:222-228 | from the moment a function joins its own group, over any number of later steps, its thread stays in the join exactly as long as no function that the join borrowed throws |
| `ForkJoin.OwnGroupJoinLeftByException` | src/examples/executor/fork_join.cpp:91-96 | a run in which that happens, with the group still busy |
| `ForkJoin.LoopLeftExactlyWhenAllIdle` | src/examples/executor/fork_join.cpp:31-40 | a pool thread leaves its loop exactly if the pool was stopped and all groups are idle, and then the queue is empty |
| `ForkJoin.QueueIsFifo` | src/examples/executor/fork_join.cpp:69-79 | functions begin in the order in which they were queued, each once |
| `ForkJoinCalls.DispatchRunsInlineExactlyWhenLoaded` | src/examples/executor/fork_join.cpp:118-134 | a dispatch runs on the caller's thread exactly if more than 16 functions per thread are queued, and else queues; never both |
| `ForkJoinCalls.DispatchBoundsQueue` | src/examples/executor/fork_join.cpp:122-122 | without posts the queue never holds more than one function beyond that |
| `ForkJoinCalls.JoinReturnedMeansIdleOrThrown` | src/examples/executor/fork_join.cpp:222-228 | a call of join that is over has found its group idle at some moment since it began, or was left by an exception of a function that it borrowed |
| `ForkJoinCalls.StoppedExactlyByStop` | src/examples/executor/fork_join.cpp:147-152 | the pool is stopped exactly after its destructor asked for it |
| `ForkJoinCalls.LoopLeftExactlyAfterStop` | src/examples/executor/fork_join.cpp:31-40 | a pool thread leaves its loop exactly after that, once all groups are idle |
| `ForkJoin.Pool.DoWorkStarted` | src/examples/executor/fork_join.cpp:100-104 | the group counts one more, and the pool one more busy group exactly if it was idle |
| `ForkJoin.Pool.DoWorkFinished` | src/examples/executor/fork_join.cpp:107-114 | the group counts one less, and the pool one busy group less exactly if it becomes idle |
| `ForkJoin.Pool.DoDispatch` | src/examples/executor/fork_join.cpp:118-134 | counts the work, and queues it unless more than 16 functions per thread are queued, in which case the caller executes it |
| `ForkJoin.Pool.DoPost` | src/examples/executor/fork_join.cpp:137-144 | queues and counts the function |
| `Services.NotSeenNotThere` | include/experimental/bits/execution_context.h:174-182 | looking only at what was registered since the call began finds a duplicate exactly if there is one in the whole list |
| `Services.StepKeepsInv` | include/experimental/bits/execution_context.h:153-227 | every step of every thread keeps unique keys, order of the list, and the fate of every object |
| `Services.OneServicePerKey` | include/experimental/bits/execution_context.h:153-189 | never two services with one key, and all calls for a key return the same object |
| `Services.MadeAtMostOnce` | include/experimental/bits/execution_context.h:191-227 | make_service succeeds at most once for a key, and is refused only for a key that has a service |
| `Services.EachObjectOnce` | include/experimental/bits/execution_context.h:167-188 | every constructed object is in the list or was discarded as a duplicate, once |
| `Services.GivenServicesOutlive` | include/experimental/bits/execution_context.h:63-89 | a service obtained during another's construction is behind it in the list, so it is shut down and destroyed after it |
| `ServiceCalls.CallsEndAsTheListSays` | include/experimental/bits/execution_context.h:153-227 | in every run a call that finds its key returns that service, or throws if it is make_service; one that does not constructs, and then registers and returns, a new service |
| `ServiceCalls.ThrowLeavesNoTrace` | include/experimental/bits/execution_context.h:170-172 | a constructor that throws ends its call and registers nothing |
| `ServiceCalls.ReturnedBeforeOutlives` | include/experimental/bits/execution_context.h:63-89 | whatever any call had returned when a service was registered is behind it in the list for ever |
| `ExecutionContexts.ExecutionContext.Walk` | include/experimental/bits/execution_context.h:161-167 | finds a service with the key in a stretch of the list, or none exactly if there is none |
| `ExecutionContexts.ExecutionContext.Publish` | include/experimental/bits/execution_context.h:174-188 | registers the new service at the head exactly if no duplicate was put in front of what the call has seen; otherwise finds the duplicate |
| `ExecutionContexts.ExecutionContext.HasService` | include/experimental/bits/execution_context.h:229-245 | true exactly if a service with the key is in the list |
| `ExecutionContexts.ExecutionContext.NotifyFork` | include/experimental/bits/execution_context.h:35-61 | each service is told once: before a fork in list order, after it in the reverse order |
| `ExecutionContexts.ExecutionContext.ShutdownContext` | include/experimental/bits/execution_context.h:63-79 | shuts down exactly the services that had not been yet, each once, in list order |
| `ExecutionContexts.ExecutionContext.DestroyContext` | include/experimental/bits/execution_context.h:81-89 | destroys every service once, in list order |
| `Coinvoker.StepKeepsInv` | include/experimental/bits/coinvoker.h:96-114 | every step keeps counter = heads that point to the tail, and the life of the tail tied to it |
| `Coinvoker.RunKeepsInv` | include/experimental/bits/coinvoker.h:83-114 | so in every state of every run |
| `Coinvoker.AliveWhilePointedTo` | include/experimental/bits/coinvoker.h:157-169 | while a head points to the tail it is alive, so no head touches a freed tail, and the counter never underflows |
| `Coinvoker.FreedExactlyOnce` | include/experimental/bits/coinvoker.h:101-114 | never freed twice; freed once exactly when no head points to it and no dispatch is under way, dropped heads included |
| `Coinvoker.DispatchedOnceWithAllResults` | include/experimental/bits/coinvoker.h:83-130 | if no head is dropped, the tail is dispatched exactly once, exactly when the last head has completed, with all results |
| `Coinvoker.ArgumentsInOrder` | include/experimental/bits/coinvoker.h:127-131 | the arguments are the results concatenated by index |
| `Coinvoker.ResultsAreFromHeads` | include/experimental/bits/coinvoker.h:96-99 | a slot holds the result that its own head set, which sets it once |
| `Coinvoker.MissingExactlyWhenDropped` | include/experimental/bits/coinvoker.h:101-114 | the last count-down dispatches exactly if it is a completion, and then a result is missing exactly if a head was dropped |
| `Coinvoker.DroppedHeadIsMissed` | include/experimental/bits/coinvoker.h:101-114 | a run of two heads in which that happens |
| `Coinvoker.CoinvokerTail.Prime` | include/experimental/bits/coinvoker.h:83-94 | counts the heads, or without heads dispatches and frees at once |
| `Coinvoker.CoinvokerTail.Dispatch` | include/experimental/bits/coinvoker.h:127-131 | collects the results of all slots by index, if all are there |
| `Coinvoker.CoinvokerTail.StoreResult` | include/experimental/bits/coinvoker.h:96-99 | fills one empty slot in place and no other |
| `Coinvoker.CoinvokerTail.CountDown` | include/experimental/bits/coinvoker.h:101-108 | dispatches with the results and frees exactly if the counter reaches zero |
| `Coinvoker.CoinvokerTail.Release` | include/experimental/bits/coinvoker.h:110-114 | frees without dispatch exactly if the counter reaches zero |
| `Recycler.Recyclers.Allocate` | include/experimental/bits/small_block_recycler.h:47-69 | yields a block of at least size + 1 bytes with its tag in place that no client has; the cached block exactly if it is large enough; every other block is where it was, or moved up a slot |
| `Recycler.Recyclers.Deallocate` | include/experimental/bits/small_block_recycler.h:71-99 | the block goes to the first slot, or only if that is taken to the second, or is freed; a null pointer changes nothing |
| `Recycler.Recyclers.Write` | include/experimental/bits/small_block_recycler.h:47-99 | a client that writes what it asked for disturbs no tag |
| `OpQueue.Queue.Pop` | include/experimental/bits/operation.h:56-65 | removes the front operation and unlinks it; nothing on an empty queue |
| `OpQueue.Queue.Push` | include/experimental/bits/operation.h:67-79 | appends one operation through the links |
| `OpQueue.Queue.Splice` | include/experimental/bits/operation.h:81-93 | appends all operations of another queue in order, in constant time, and empties that queue |
| `OpQueue.Queue.DestroyAll` | include/experimental/bits/operation.h:44-51 | destroys every operation once, front to back |
| `OpQueue.LinksDetermineContents` | include/experimental/bits/operation.h:53-93 | the front link determines the whole contents, so no ghost state is needed to know them |

## Left out

- Moving timers and channels: `_Move_timer` trusts an index that removal does not reset, and leaves the source linked.
- A reset of a channel that holds values, beyond the lemma that says what it leaves behind.
- Condition variables: notifications, spurious wake-ups, fairness and liveness; waiting is a step that may end at any time.
- Memory orders: locked regions and atomic operations are steps of one interleaving.
- Real clocks and thread creation: clock readings are parameters of a drain, and threads may appear at any time.
- The inner executor of a strand: it is assumed to run every submitted invoker once, and never to run a posted or deferred one inside the call.
- `_Remove_timer_queue` and the links of `__timer_queue_set`: the set of timer queues is a sequence that only grows.
- TimerQueues.TimerQueue.EnqueueTimer: asks for a heap below the size limit of a vector, and for an operation that is not waiting on the timer already.
- The queues of operations inside the other classes are sequences; `OpQueue` shows the intrusive form and that it behaves as one.
- The scheduler's timed and polling variants of `_Run`: their steps are among those of the step machine, their clocks are not modelled.
- Shutdown of the scheduler, strand and channel services: the operations left over are destroyed and nothing else happens.
- An exception that leaves a pool thread of the fork/join pool: it ends the program, so it ends the run.
- `join_guard`: an exception that leaves `join` inside its destructor ends the program; the model has calls of `join` that may be unwound.
- Exceptions while the heads of a coinvoker are still being constructed, before the counter is set.
- Handlers, allocators, completion tokens and type traits: an operation is an identifier.
- The polymorphic executor, executor_work, await and coroutine support, and the examples other than fork_join: easy or I/O.
