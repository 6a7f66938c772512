# Verified model of baamhackl's task engine

baamhackl watches directories and runs a command for every changed file. This project models the part
that decides what runs when and what becomes of the files, in Dafny, and proves what it is meant to
guarantee:

- **Queue.** `HeapOrder` and `PrioQueue` are the binary heap whose items know their own position: the
  sifting of `container/heap` on a mutable item list, and the queue as a multiset with minimum extraction.
- **Scheduler.** `SequenceNumbers` holds the wrapping numbers that order tasks, `SchedulerCore` what each
  locked section does to the state, `Scheduler` the object over two priority queues that does it.
  `SchedulerProtocol` is the step relation of all threads: one step per locked section, one per later
  `event.Set`, with one-token events and a clock that only advances. `SchedulerSafety`, `SchedulerRuns`,
  `SchedulerOrder`, `SchedulerWaiters` and `SchedulerTermination` prove what holds in every reachable
  state and over every run.
- **Handler.** `RetryStrategy` and `HandlerTask` are the back-off, one attempt and the task that repeats
  it. `HandlerProtocol` puts the handler's mutex, its pending map and its counters on top of the
  scheduler's threads; `Handler` is the object. `HandlerSafety`, `HandlerStages`, `HandlerInvariants` and
  `HandlerMetrics` hold the invariants, `HandlerRuns` the results over runs.
- **Handler among files.** `HandlerFiles` adds the files: anybody may change them at any time, and what a
  run of a task returns follows from what its two looks at the file find. `HandlerDisposition` says where
  files end up. `HandlerProgress` and `HandlerLaunch` build continuations, in which runs end, the mutex is
  given up and a waiting task is started. With them `HandlerChanges` says which changes go by unseen, and
  `HandlerCommands` which are followed by another command.
- **Names and files.** `Utf8`, `Text`, `Calendar` and `UniqueNames` make names and read times back from them,
  `Retention` decides what is pruned, `Moves` and `Archive` move files without overwriting, `Buckets`
  compacts histogram buckets in place.

A run of the scheduler is a sequence of states and actions from an initial state (`SchedulerRuns.IsRun`);
a handler's run contains one, index by index (`HandlerRuns.HandlerRunIsSchedulerRun`), and a run among
files contains a handler's (`HandlerFiles.FileRunIsHandlerRun`). So what is proved about the inner layers
holds in the outer ones.

Check everything with `dafny verify dfyconfig.toml`.

## What turned out not to hold

- Sequence numbers 2^63 apart are each below the other (`SequenceNumbers.SeqLessBreaksDown`). One number
  is below another, and not also above it, if and only if the way from the first to the second is less
  than 2^63 modulo 2^64 (`SequenceNumbers.SeqLessIsTicketOrderIff`).
- With two threads in Stop or Quiesce, one can be left behind (`SchedulerWaiters.TwoStopsCanGetStuck`),
  and one that is left behind in Stop waits until its context is cancelled
  (`SchedulerWaiters.StuckForGood`). `SchedulerWaiters.StuckIff` names the only steps that leave a waiter
  behind, and `SchedulerWaiters.SoleWaiterNeverStuck` is the guarantee for one waiter.
- A change can go by unseen (`HandlerExamples.ChangeCanBeSwallowed`). If it finds a task for its file
  pending, that task may end without looking at the file again: a run can fail for good before its first
  look, for instance because the journal directory cannot be made, even if the task is still queued when
  the change is reported. `HandlerChanges.SwallowedIff`: this can happen unless the command is being run.
  If no run fails before its first look and Stop is not called from then on, it can happen exactly while
  the run has found no regular file, or has a permanent result but not yet the lock, or if the task waits
  and Stop was called before (`HandlerChanges.SwallowedByReliableIff`).
- A change that is seen need not be handled. A file changed during its command gets another one if and
  only if the task has a retry left and the scheduler was not stopped
  (`HandlerCommands.ChangeDuringCommandIff`); `HandlerCommands.CommandFollowsIff` is the condition for
  changes at any time, and `HandlerCommands.CommandCanFollow` shows that the command can then be started.
  Without a retry left the changed file is left at its input path (`HandlerTask.LeftAtInputIff`).
- Pending tasks of a stopped scheduler are forgotten. If one waits, no run ever looks at its file
  (`HandlerChanges.StoppedNeverLooks`); if its command is being run, no other follows
  (`HandlerChanges.StoppedNeverStarts`). Otherwise every waiting task can be started
  (`HandlerLaunch.WaitingCanStart`).
- The first generated name is not cut to the length of a directory entry (`UniqueNames.FirstFitsIff`). So
  files with names of more than 237 bytes are never handled, although shorter candidates would follow:
  their task directory cannot be made (`Archive.HandledIff`, `Archive.LongNameIsNeverHandled`).
- Without the assumption that nobody else touches the file, a completed task may leave it at its input path
  (`HandlerTask.ModifiedFileStays`); `HandlerTask.LeftAtInputIff` says exactly when.

## Model

| member | source | states |
|---|---|---|
| HeapOrder.SiftUpStep | internal/prioqueue/prioqueue.go:35-39 | swapping an item with its larger parent leaves at most that item below its parent |
| HeapOrder.SiftDownStep | internal/prioqueue/prioqueue.go:35-39 | swapping an item with its smallest child leaves at most that item above its children |
| HeapOrder.RootIsMinimal | internal/prioqueue/prioqueue.go:101-107 | no element of a heap is below its root |
| PrioQueues.PrioQueue.Swap | internal/prioqueue/prioqueue.go:35-39 | exchanges two items and keeps every item's index equal to its position |
| PrioQueues.PrioQueue.Up | internal/prioqueue/prioqueue.go:80-89 | turns a sequence with one item that is too small into a heap of the same items |
| PrioQueues.PrioQueue.Down | internal/prioqueue/prioqueue.go:91-98 | turns a sequence with one item out of order into a heap, or reports that the item is not too large |
| PrioQueues.PrioQueue.DownOrUp | internal/prioqueue/prioqueue.go:116-125 | restores the heap whichever way the item is out of order |
| PrioQueues.PrioQueue.DropLast | internal/prioqueue/prioqueue.go:53-65 | the last item leaves the queue and forgets its index |
| PrioQueues.PrioQueue.Push | internal/prioqueue/prioqueue.go:78-89 | the contents grow by exactly the value; heap order and indices are kept |
| PrioQueues.PrioQueue.Peek | internal/prioqueue/prioqueue.go:100-107 | a minimum of the contents, none only if they are empty |
| PrioQueues.PrioQueue.Pop | internal/prioqueue/prioqueue.go:91-98 | returns what Peek showed and removes exactly that |
| PrioQueues.PrioQueue.Clear | internal/prioqueue/prioqueue.go:109-114 | empties the queue, and every item forgets its index |
| PrioQueues.PrioQueue.Update | internal/prioqueue/prioqueue.go:116-120 | after one value changed, the queue is in order again with the same contents |
| PrioQueues.PrioQueue.Remove | internal/prioqueue/prioqueue.go:122-125 | removes exactly the given item from wherever it is |
| PrioQueues.MinimumFirst | internal/prioqueue/prioqueue.go:100-107 | the item at the root carries a minimum of the contents |
| PrioQueues.Drain | internal/prioqueue/prioqueue.go:91-98 | popping until the queue is empty gives its contents as a sorted permutation |
| SequenceNumbers.NextSequenceNumber | internal/scheduler/scheduler.go:16-24 | sequence numbers are never zero |
| SequenceNumbers.TicketFollowsCounter | internal/scheduler/scheduler.go:16-24 | the wrapping counter follows an unbounded one |
| SequenceNumbers.SeqLessByDistance | internal/scheduler/scheduler.go:54-61 | how the wrapping comparison relates any two numbers, by their distance modulo 2^64 |
| SequenceNumbers.SeqLessIsTicketOrderIff | internal/scheduler/scheduler.go:54-61 | one of any two numbers is below the other and not also above it iff the way to it is less than 2^63 modulo 2^64 |
| SequenceNumbers.SeqLessBreaksDown | internal/scheduler/scheduler.go:54-61 | two numbers that are each below the other |
| SequenceNumbers.TicketsSkipZero | internal/scheduler/scheduler.go:16-24 | how far the counter is after any number of draws, given that it skips zero |
| SequenceNumbers.SequenceOrderIsDrawOrder | internal/scheduler/scheduler.go:54-61 | among fewer than 2^63 consecutive draws the comparison is a strict total order, that of drawing |
| SchedulerCore.NextByOrderIsOldest | internal/scheduler/scheduler.go:164-171 | the task taken from the insertion-order queue was drawn before all others in it |
| Schedulers.Scheduler.constructor | internal/scheduler/scheduler.go:50-80 | a new scheduler is idle, with as many slots as there are processors |
| Schedulers.Scheduler.SetSlots | internal/scheduler/scheduler.go:83-93 | slots become the count, but at least one |
| Schedulers.Scheduler.Enqueue | internal/scheduler/scheduler.go:95-111 | panics exactly for a task without number or already queued; otherwise the task joins the queue that fits its due time |
| Schedulers.Scheduler.PopNextLocked | internal/scheduler/scheduler.go:147-172 | takes the earliest due task, else the first in insertion order, else nothing and gives the exact wait |
| Schedulers.Scheduler.PopDue | internal/scheduler/scheduler.go:150-162 | takes the earliest task if it is due; otherwise tells the wait for the earliest due time and changes nothing |
| Schedulers.Scheduler.PopOldest | internal/scheduler/scheduler.go:164-172 | takes the first task in insertion order while nothing is due |
| Schedulers.Scheduler.LoopRound | internal/scheduler/scheduler.go:174-230 | one round of the loop leaves, sleeps or launches as the protocol decides, with the state to match |
| Schedulers.Scheduler.FinishTask | internal/scheduler/scheduler.go:232-241 | the task is no longer active and queued again unless finished |
| Schedulers.Scheduler.QueuesNonEmpty | internal/scheduler/scheduler.go:242-244 | tells whether any task is queued |
| Schedulers.Scheduler.Quiesced | internal/scheduler/scheduler.go:283-288 | tells whether nothing is active or queued |
| Schedulers.Scheduler.StopCheck | internal/scheduler/scheduler.go:316-324 | once no loop and no task is active, the queues are emptied |
| Schedulers.Scheduler.Start | internal/scheduler/scheduler.go:253-262 | panics iff stopped or started before, otherwise one loop more is active |
| Schedulers.Scheduler.LoopEnd | internal/scheduler/scheduler.go:264-268 | one loop less is active |
| Schedulers.Scheduler.RequestStop | internal/scheduler/scheduler.go:305-307 | the stop flag is set |
| Schedulers.Scheduler.SetUnqueued | internal/scheduler/task.go:45-70 | the fields of a task that is in no queue change, and the queues stay in order |
| Schedulers.Scheduler.TakeRound | internal/scheduler/scheduler.go:174-230 | a round of the loop takes the object from the state before a step of the protocol to the state after it |
| Schedulers.Scheduler.Take | internal/scheduler/scheduler.go:83-339 | so does every other section, and it panics exactly when the step does |
| Schedulers.SectionsAreOk | internal/scheduler/scheduler.go:95-111 | in reachable states the sections may be entered, as long as the tickets of tasks without due time are less than 2^63 apart |
| SchedulerSafety.TasksStep | internal/scheduler/scheduler.go:97-248 | every step keeps each task in one place with fields that agree |
| SchedulerSafety.ControlStep | internal/scheduler/scheduler.go:174-339 | every step keeps the counters equal to the threads they count, at most one loop, and nothing running once Stop has returned |
| SchedulerSafety.WakeStep | internal/scheduler/scheduler.go:83-248 | no step leaves the loop asleep with something to do and no notification under way |
| SchedulerSafety.NoPanic | internal/scheduler/scheduler.go:97-104 | neither panic of enqueue can happen |
| SchedulerRuns.InvHolds | internal/scheduler/scheduler.go:26-339 | the three invariants hold in every reachable state |
| SchedulerRuns.TaskConservation | internal/scheduler/scheduler.go:97-248 | every task is in exactly one of five places, the active count is the number of runners, no task has two holders, item pointers tell where tasks are |
| SchedulerRuns.NoLostWakeup | internal/scheduler/scheduler.go:174-230 | a loop that waits unnotified has no slot or no task, and a timer not later than any due time |
| SchedulerRuns.LoopIsWoken | internal/scheduler/scheduler.go:210-220 | a waiting loop that ought to stop or could launch is notified, about to be, or its timer has fired |
| SchedulerRuns.WakeupsAreSignalled | internal/scheduler/event.go:7-22 | over every run, each of the three events wakes threads at most as often as it was set, and holds at most one token |
| SchedulerRuns.PanicsIfQueued | internal/scheduler/scheduler.go:97-111 | in every reachable state enqueue would panic for exactly the tasks that are queued or abandoned |
| SchedulerRuns.QuiesceReturnsIff | internal/scheduler/scheduler.go:279-297 | over every run, Quiesce returns iff no task is queued, due or not, and none is running; otherwise it waits |
| SchedulerRuns.StopReturnsIff | internal/scheduler/scheduler.go:314-336 | over every run, Stop returns iff no loop and no task is running; otherwise it waits with the queues as they are |
| SchedulerRuns.NoLaunchAfterStop | internal/scheduler/scheduler.go:302-310 | after the stop flag is set no task and no loop starts and the active count never grows |
| SchedulerRuns.StartsOnce | internal/scheduler/scheduler.go:253-274 | Start succeeds at most once in a run |
| SchedulerRuns.HaltedForever | internal/scheduler/scheduler.go:316-324 | stopped with nothing active, the scheduler stays so |
| SchedulerRuns.StopReturnsHalted | internal/scheduler/scheduler.go:302-339 | Stop returns only with empty queues, whose tasks are abandoned, and nothing ever runs again |
| SchedulerOrder.SlotBound | internal/scheduler/scheduler.go:83-93 | between changes of the slots the active count exceeds them only by what ran before |
| SchedulerOrder.LaunchNeedsSlot | internal/scheduler/scheduler.go:187-190 | every launch finds fewer active tasks than slots and adds one |
| SchedulerOrder.NeverStartsEarly | internal/scheduler/scheduler.go:153-161 | no task is launched before its due time |
| SchedulerOrder.RetrySpacing | internal/scheduler/task.go:61-70 | after a task asked for a retry, every later start of it is at least the delay later |
| SchedulerOrder.AddedIsDue | internal/scheduler/scheduler.go:116-138 | Add gives a new task the due time that was asked for, counted from the call, or none |
| SchedulerOrder.AddJoinsQueue | internal/scheduler/scheduler.go:126-145 | over every run, a task added with a delay joins the time queue, due when the delay has passed since the call; one added without joins the insertion-order queue |
| SchedulerOrder.DelayedAdd | internal/scheduler/scheduler.go:116-122 | over every run, no start of a task added with a delay comes before the delay has passed |
| SchedulerOrder.UndelayedMayStart | internal/scheduler/scheduler.go:174-230 | with a slot free and a task without due time queued the loop neither leaves nor sleeps, and may launch the task that comes first if none is due |
| SchedulerOrder.LaunchesFirst | internal/scheduler/scheduler.go:147-172 | over every run, the loop launches the task that is due first of all if any is due, otherwise the one without due time that was drawn first |
| SchedulerOrder.SleepsUntilDue | internal/scheduler/scheduler.go:184-221 | over every run, the loop sleeps without timer for lack of a slot or of tasks, otherwise until the earliest due time of all |
| SchedulerOrder.QueuedUntilLaunch | internal/scheduler/scheduler.go:164-169 | a task stays in the insertion-order queue until it is launched, or abandoned by a call of Stop that has returned |
| SchedulerOrder.StartsInAddOrder | internal/scheduler/scheduler.go:124-145 | a task enqueued before another's number was drawn is launched first |
| SchedulerWaiters.StuckIff | internal/scheduler/scheduler.go:290-295 | the only steps that leave a waiter behind are another waiter's: taking the last token, clearing the queues |
| SchedulerWaiters.SoleWaiterNeverStuck | internal/scheduler/scheduler.go:282-336 | a sole waiter whose condition holds has a token or is about to get one |
| SchedulerWaiters.StuckForGood | internal/scheduler/scheduler.go:316-336 | whoever is left behind in Stop waits as long as its context is not cancelled |
| SchedulerWaiters.TwoStopsCanGetStuck | internal/scheduler/scheduler.go:316-336 | a reachable state in which the second of two calls of Stop is left behind |
| SchedulerTermination.InternalStepsRunOut | internal/scheduler/scheduler.go:302-336 | after the stop flag is set, every step of a thread under way lowers a measure |
| SchedulerTermination.StepsAreBounded | internal/scheduler/scheduler.go:302-336 | so many steps can be taken at most |
| SchedulerTermination.NothingLeftButReturned | internal/scheduler/scheduler.go:302-336 | when no thread can step, nothing is active and no call of Stop still waits |
| SchedulerTermination.StopTerminates | internal/scheduler/scheduler.go:302-339 | a sole call of Stop returns when the threads under way run on to their end |
| RetryStrategy.Strategy.Advance | internal/handlerretrystrategy/strategy.go:27-40 | delay and remaining retries change as specified, not at all once used up |
| RetryStrategy.Strategy.Current | internal/handlerretrystrategy/strategy.go:42-48 | the delay, or Stop when no retry remains |
| RetryStrategy.DelayBounds | internal/handlerretrystrategy/strategy.go:27-40 | delays never shrink and never exceed a positive maximum |
| RetryStrategy.StrategyYieldsDelays | internal/handlerretrystrategy/strategy.go:18-48 | exactly RetryCount delays, then Stop for good |
| RetryStrategy.CapCommutes | internal/handlerretrystrategy/strategy.go:32-38 | capping every step equals capping the uncapped sequence |
| RetryStrategy.UncappedDelay | internal/handlerretrystrategy/strategy.go:32-38 | without maximum the k-th delay is at most initial * factor^k and less by at most the sum of the lower powers |
| RetryStrategy.FuzzWithin | internal/fuzzduration/fuzzduration.go:8-13 | jitter stays within half the factor on either side |
| RetryStrategy.FuzzKeepsMeaning | internal/fuzzduration/fuzzduration.go:10-13 | jitter never turns Stop into a delay or a positive delay into Stop |
| RetryStrategy.FuzzFollowsDraw | internal/fuzzduration/fuzzduration.go:10-13 | the draw decides where in the range the result is, to less than one unit, and the result grows with it |
| RetryStrategy.FuzzAtEnds | internal/fuzzduration/fuzzduration.go:10-13 | the draw zero gives the lower end of the range, the draw in the middle no jitter |
| HandlerTask.AsTaskError | internal/scheduler/taskerror.go:22-34 | a task error for every error, none for nil |
| HandlerTask.ErrorClassification | internal/scheduler/taskerror.go:22-50 | errors that mention no task error are permanent; wrapping changes nothing; of joined errors the first that mentions a task error counts; a task error counts by its delay, and only one that is not negative is a retry |
| HandlerTask.AsTaskErrorKeepsError | internal/scheduler/taskerror.go:22-34 | an error that mentions no task error becomes the cause of a permanent one; otherwise a task error that it mentions is returned |
| HandlerTask.Site.RunAttempt | internal/handlerattempt/handlerattempt.go:97-139 | one attempt: what it does to the file, whether it failed, for good, and with the lock |
| HandlerTask.Site.MoveToArchive | internal/journal/journal.go:81-94 | the file moves to the directory for its result, or nothing changes |
| HandlerTask.Site.RunWithLog | internal/handlertask/handlertask.go:110-136 | the attempt inside its log and directory, either of which may fail |
| HandlerTask.Task.Prepare | internal/handlertask/handlertask.go:58-84 | journal directory and strategy are made once |
| HandlerTask.Task.Run | internal/handlertask/handlertask.go:70-147 | one run of the task: progress, file, result and lock |
| HandlerTask.ProgressAt | internal/handlertask/handlertask.go:107-146 | before its k-th run a task has used up k retries, and k is at most RetryCount |
| HandlerTask.AttemptBudget | internal/handlertask/handlertask.go:107-146 | at most RetryCount + 1 runs; a run is final if and only if it is number RetryCount; that one ends the task |
| HandlerTask.RetryDelayAt | internal/handlertask/handlertask.go:138-146 | run k asks for the k-th delay, give or take 5% |
| HandlerTask.FileDisposition | internal/handlertask/handlertask.go:70-147 | for the Task object alone, called until it is done: undisturbed, a completed task leaves the file in the success directory iff some command succeeded, in the failure directory iff all RetryCount + 1 failed, never at its input path |
| HandlerTask.RunArchives | internal/handlerattempt/handlerattempt.go:122-136 | whatever fails or interferes, a run archives an undisturbed file and nothing else |
| HandlerTask.RunSucceedsIff | internal/handlerattempt/handlerattempt.go:97-139 | Task.Run returns nil iff it got to the command, that succeeded, the file is gone or was unchanged and moved, and no other call failed; it is locked iff it got to the command |
| HandlerTask.MissingEndsTask | internal/handlerattempt/handlerattempt.go:124-131 | a file gone after the command ends the task whatever retries are left, with an error iff the command or the closing of the log failed |
| HandlerTask.FailureIsRetriedIff | internal/handlertask/handlertask.go:137-146 | an error asks for another run with the fuzzed delay iff it is not for good: no journal directory, no command, no regular file before or no file after it |
| HandlerTask.RunEndsIff | internal/handlertask/handlertask.go:107-146 | after k retries a run ends the task iff it succeeds, fails for good, or no retry is left |
| HandlerTask.RunLeavesFiles | internal/handlerattempt/handlerattempt.go:113-136 | what is at the input path and in the archives after any run |
| HandlerTask.LeftAtInputIff | internal/handlerattempt/handlerattempt.go:122-136 | exactly when a completed task leaves something at the input path |
| HandlerTask.ModifiedFileStays | internal/handlerattempt/handlerattempt.go:132-133 | a file modified during its last command stays at the input path |
| Handlers.Handler.Enter | watch/handler.go:104-115 | under the lock, a name that is not pending gets a task, as the protocol's step has it |
| Handlers.Handler.Exit | watch/handlermetrics.go:123-125 | the change is counted |
| Handlers.Handler.Report | watch/handler.go:76-87 | final results and retries are told apart as the scheduler does and counted |
| Handlers.Handler.Forget | watch/handler.go:81-84 | the name is no longer pending |
| HandlerStages.StageStep | watch/handler.go:59-119 | how every step moves a task between waiting, being tried and being gone |
| HandlerInvariants.PendingStep | watch/handler.go:59-119 | every step keeps the pending map equal to the tasks that are not gone |
| HandlerInvariants.RunsStep | internal/handlertask/handlertask.go:107-146 | every step keeps attempts equal to retries plus the run in progress, within the budget |
| HandlerInvariants.OutcomeByBudget | internal/handlertask/handlertask.go:138-146 | a failure after k retries is retried iff k is below RetryCount, with the k-th delay |
| HandlerMetrics.TotalsStep | watch/handlermetrics.go:123-149 | every step keeps the balance of created, finished and pending tasks |
| HandlerMetrics.RetriesStep | watch/handlermetrics.go:139-141 | every step keeps the retry counter equal to the sum over all tasks |
| HandlerRuns.HandlerRunIsSchedulerRun | watch/handler.go:92-119 | a handler's run is a run of the scheduler, index by index |
| HandlerRuns.PendingIsLive | watch/handler.go:59-119 | in every reachable state the pending map holds exactly the names of tasks that have not brought back a permanent result, one task each |
| HandlerRuns.DroppedIffFinished | watch/handler.go:78-87 | of the tasks whose result has reached the scheduler or is on its way, exactly the finished ones are no longer pending; queued ones are |
| HandlerRuns.NoOverlap | watch/handler.go:59-119 | two runs for one name never overlap |
| HandlerRuns.RunFollowsProtocol | internal/handlertask/handlertask.go:70-147 | Task.Run returns what the protocol allows: locked iff the command was started, and with the outcome that the protocol computes |
| HandlerRuns.TaskBudget | internal/scheduler/task.go:51-75 | over every run no task starts more than RetryCount + 1 times |
| HandlerRuns.RetriedUntilLast | internal/handlertask/handlertask.go:138-146 | a failed run is followed by another iff it was not number RetryCount |
| HandlerRuns.AttemptSpacing | internal/scheduler/task.go:61-70 | from the end of run k to any later start at least the k-th delay passes, less 5% |
| HandlerRuns.MetricConservation | watch/handlermetrics.go:123-149 | created = finished + pending - those between final report and deletion; changes cover created tasks but for one call under way; retries within the budget |
| HandlerRuns.CountersTally | watch/handlermetrics.go:123-149 | over every run the counters are the numbers of reported changes, of runs that asked for another and of runs that ended their task; failures are those of the last that did not succeed |
| HandlerChanges.ChangeAfterLock | watch/handler.go:104-115 | a change reported after a run took the lock is covered by a task created since or by a retry asked for since |
| HandlerChanges.SwallowedIff | watch/handler.go:106-114 | in every reachable state, a change that finds its name pending can go by without any later look at the file iff the task's command is not being run |
| HandlerChanges.SwallowedByReliableIff | internal/handlerattempt/handlerattempt.go:97-101 | if no run fails before its first look and Stop is not called afterwards: iff the run found no regular file, or has a permanent result but not the lock, or the task waits and Stop was called before |
| HandlerChanges.StoppedNeverLooks | internal/scheduler/scheduler.go:178-182 | over every run: once Stop was called, no step is a look at the file of a task that waits |
| HandlerChanges.StoppedNeverStarts | internal/scheduler/scheduler.go:178-182 | over every run: once Stop was called, a task none of whose runs has still to take its first look never takes one, so no other command is started for it |
| HandlerProgress.MutexFreed | watch/handler.go:59-119 | whoever holds the handler's mutex can give it up by steps that leave a given task, its run and its file alone, unless a run of that task holds it |
| HandlerProgress.RunEnded | internal/scheduler/scheduler.go:232-251 | whatever is running can end and free its slot, by steps that leave a queued task in its queue and its file alone |
| HandlerLaunch.WaitingCanStart | internal/scheduler/scheduler.go:147-230 | in every reachable state, whoever runs and whoever holds the handler's mutex, a waiting task can be started iff the scheduler was not stopped; no calls from outside but that of Start are needed, and the file, the retries and the names are as before |
| HandlerExamples.ChangeCanBeSwallowed | internal/handlertask/handlertask.go:81-83 | reachable states in which a change can go by unseen: its task is queued; its run was refused; Stop was called |
| HandlerFiles.RunInSteps | internal/handlertask/handlertask.go:70-147 | Task.Run fails before it looks, finds no regular file, or runs its command and takes the lock, with the results and files of the steps that the protocol takes |
| HandlerFiles.FInvHolds | internal/handlerattempt/handlerattempt.go:97-113 | in every run among files each run past its first look has found a regular file, besides the handler's invariants |
| HandlerFiles.FileRunIsHandlerRun | watch/handler.go:59-119 | a run among files is a run of the handler, index by index |
| HandlerFiles.FileStands | watch/handler.go:104-115 | only its own runs and outsiders change the file of a pending task |
| HandlerDisposition.FileDispositionInRuns | internal/handlerattempt/handlerattempt.go:97-139 | in every run, a task for an undisturbed file leaves it, once done, in the success directory iff some command succeeded, in the failure directory iff all RetryCount + 1 failed, never at its input path |
| HandlerCommands.CommandFollowsIff | internal/handlerattempt/handlerattempt.go:97-136 | a change that finds its name pending can be left without any later command iff not: the file is regular, and the task waits with the scheduler not stopped, or its run has still to look, or its command is being run on a file that has changed since with a retry left and the scheduler not stopped |
| HandlerCommands.CommandCanFollow | internal/handlerattempt/handlerattempt.go:97-113 | in those cases some continuation does start another command, with nobody touching the file, nothing failing before the look and no call of Stop |
| HandlerCommands.ChangeDuringCommandIff | internal/handlerattempt/handlerattempt.go:132-133 | a file changed during its command can be left without another one iff no retry is left or the scheduler was stopped |
| Utf8.DecodeEncoded | internal/uniquename/text.go:9-12 | the UTF-8 encoding of a character is read back, whatever follows |
| Utf8.EncodeDecoded | internal/uniquename/text.go:9-12 | no other bytes are read as that character |
| Text.Utf8LengthIsEncoded | internal/uniquename/text.go:13-23 | the length counted for a character is that of its encoding: 1 below 0x80, 2 below 0x800, 3 below 0x10000, otherwise 4 |
| Text.BytesAreEncoded | internal/uniquename/text.go:13-23 | the length counted for a text is that of its encoding, from which it is read back |
| Text.UmlautHasThreeBytes | internal/uniquename/text_test.go:69-77 | an a with a combining diaeresis takes three bytes |
| Text.CombineWithMaxLen | internal/uniquename/text.go:13-46 | panics iff the middle part does not fit; otherwise the best cut |
| Text.BestByLoops | internal/uniquename/text.go:20-43 | what the two loops find is best: the most of the prefix with the whole suffix, or else the most of the suffix |
| Text.BestCutIsUnique | internal/uniquename/text.go:9-12 | there is one best cut |
| Text.CutBytesAreBytes | internal/uniquename/text.go:45 | the length of the cut text |
| Calendar.ParseFormat | internal/uniquename/uniquename.go:34-38 | a clock reading written in the time layout is read back if it is a time of the calendar, and refused otherwise |
| Calendar.ParseFormatZone | internal/uniquename/uniquename.go:35-38 | an offset written in the zone layout is read back if it has at most 24 hours and 60 minutes, and refused otherwise |
| Calendar.FormatParse | internal/uniquename/uniquename.go:116-119 | nothing is read as a time but what is written for a time of the calendar |
| Calendar.FormatParseZone | internal/uniquename/uniquename.go:116-119 | nothing is read as an offset but what is written for one |
| Calendar.LayoutsShowReference | internal/uniquename/uniquename.go:34-38 | in each layout, Go's reference time looks like the layout's description |
| Calendar.CompactIsRead | internal/uniquename/uniquename.go:98 | the compact layout tells date and time |
| Calendar.ClockRoundTrip | internal/uniquename/uniquename.go:76-78 | date and time of day of a second lead back to it |
| Calendar.DayRoundTrip | internal/uniquename/uniquename.go:116-119 | the days of a valid date lead back to it |
| Calendar.ClockIsRead | internal/uniquename/uniquename.go:76-78 | every clock reading is read off the second that it stands for |
| Calendar.DaysInClosedForm | internal/uniquename/uniquename.go:116-119 | the days of a date are those of the Gregorian calendar in closed form |
| UniqueNames.Divided | internal/uniquename/uniquename.go:60-72 | a name is divided without loss, never before its first part, and with a short second part |
| UniqueNames.Generator.constructor | internal/uniquename/uniquename.go:50-84 | the generator's parts |
| UniqueNames.New | internal/uniquename/uniquename.go:50-84 | fails exactly for an empty name |
| UniqueNames.Generator.Next | internal/uniquename/uniquename.go:86-106 | first the name itself with the time prefix, then best cuts told apart by time or random number |
| UniqueNames.Extension | internal/uniquename/uniquename.go:61 | the end of the name from its last dot on, empty iff there is none |
| UniqueNames.HexInjective | internal/uniquename/uniquename.go:95-97 | different random numbers give different candidates' parts |
| UniqueNames.HexRoundTrip | internal/uniquename/uniquename.go:95-97 | hexadecimal digits are read back as the number, without leading zero |
| UniqueNames.UniqTellsRandom | internal/uniquename/uniquename.go:95-97 | without a time, what tells candidates apart is the random number in hexadecimal |
| UniqueNames.StampOfReference | internal/uniquename/uniquename.go:76-78 | the time prefix of Go's reference time in its own zone |
| UniqueNames.UniqIsShort | internal/uniquename/uniquename.go:93-102 | the part that tells candidates apart has at most 17 bytes, so combining never panics |
| UniqueNames.NumberedFits | internal/uniquename/uniquename.go:93-103 | every candidate after the first has at most 255 bytes |
| UniqueNames.NumberedShape | internal/uniquename/uniquename.go:93-103 | a cut candidate is a start of the first part, the part in brackets in full, and an end of the last part |
| UniqueNames.NumberedWhole | internal/uniquename/uniquename.go:93-103 | a candidate that fits is not cut |
| UniqueNames.FirstFitsIff | internal/uniquename/uniquename.go:89-91 | the first candidate with a time prefix has at most 255 bytes iff the name has at most 237 |
| UniqueNames.NumberedKeepsTime | internal/uniquename/uniquename.go:102-123 | cut candidates still give away the second of their creation |
| UniqueNames.ExtractZoned | internal/uniquename/uniquename.go:108-123 | a time that tells its zone is read by it, whatever the local zone |
| UniqueNames.FirstWordIs | internal/uniquename/uniquename.go:109-114 | leading spaces do not matter, and the time ends before the next space or with the name |
| UniqueNames.ExtractIff | internal/uniquename/uniquename.go:108-123 | a time is read iff the name's first word is a time of the calendar in one of the two layouts |
| UniqueNames.MadeAtIsRead | internal/uniquename/uniquename.go:86-123 | ExtractTime of any generated name is the creation time floored to seconds |
| UniqueNames.SettingsKeepTime | internal/uniquename/uniquename.go:60-72 | extensions kept by the default settings are short enough for that: those of at most nine bytes, unless one is the whole name; in the journal none is kept apart |
| UniqueNames.GenerateNames | internal/uniquename/uniquename.go:50-123 | New and any number of Next with the settings in use: every name gives away the second of New, all but the first have at most 255 bytes; an empty name is refused |
| UniqueNames.FirstTwoNames | internal/uniquename/uniquename.go:50-106 | New and two calls of Next without time prefix: first the name itself, then one of at most 255 bytes that tells the second of New in brackets |
| Retention.AcceptsIff | internal/prune/prune.go:27-39 | an entry is accepted iff its modification time is not after the deadline and its name tells no time or one before the deadline other than the zero time |
| Retention.DeadlineIsMinute | internal/journal/journal.go:97 | the deadline is the last full minute before which the retention time has passed |
| Retention.GeneratedAcceptedIff | internal/prune/prune.go:27-39 | exactly when a generated name is up for removal |
| Retention.RetentionKept | internal/journal/journal.go:96-121 | never before JournalRetention has passed since the name was made, however old the modification time |
| Retention.Directory.RunLocked | internal/prune/prune.go:50-89 | removes exactly the accepted entries up to a cancellation, except those whose removal fails, and reports errors iff there were any |
| Retention.OnlyOldGo | internal/prune/prune.go:67-86 | what is removed is old by modification time and by name, and never the lock |
| Retention.GoneIff | internal/prune/prune.go:67-86 | exactly which of the entries looked at are removed, by name, modification time and the outcome of their removal |
| Retention.YoungStays | internal/journal/journal.go:96-134 | an entry named by a generator survives pruning until its retention has passed |
| Moves.FileSystem.RenameToAvailableName | internal/waryio/rename.go:17-32 | the outcome of the candidates in order; on error nothing changes |
| Moves.FileSystem.MakeAvailableDir | internal/waryio/mkdir.go:7-22 | likewise for a new directory |
| Moves.FileSystem.MoveInto | move/into.go:39-70 | every entry is there as often as before, whatever is not a source stays, and a preferred name for several sources is refused before anything moves; every source has candidates of its own |
| Moves.MovedIntoInTurn | move/into.go:39-70 | the sources are renamed one after the other to the first free candidate for the preferred name, if given, else for their own; an error is the one for the first source that cannot be moved, and exactly those before it were moved |
| Moves.PickFirstFree | internal/waryio/rename.go:17-32 | the first free candidate decides: taken unless the source is missing or it is refused for another reason |
| Moves.PickNoneFree | internal/waryio/rename.go:24-31 | without a free candidate the last error is returned, and exhaustion only without any candidate |
| Moves.PickedIsFree | internal/waryio/rename.go:11-22 | a taken name was free and all candidates before it were not |
| Moves.RenamedSameContents | internal/waryio/rename.go:11-13 | a rename to a free name keeps how often each entry is there |
| Moves.DirectoriesAreDistinct | internal/journal/journal.go:72-79 | a task gets no directory that is there; two tasks get the same one only if it was removed in between |
| Archive.Journal.CreateTaskDir | internal/journal/journal.go:72-79 | the outcome of the candidates in order; nothing that was there is touched |
| Archive.Journal.MoveToArchive | internal/journal/journal.go:81-94 | the file moves to a free name in the directory for its result, or nothing changes; nothing is lost |
| Archive.PlacedIff | internal/journal/journal.go:56-94 | given a free candidate, a directory is made or a file archived iff the name has at most 237 bytes |
| Archive.HandledIff | internal/handlertask/handlertask.go:58-83 | so a task gets beyond making its directory iff the name has at most 237 bytes; otherwise its only run fails for good and the file stays |
| Archive.ArchivedIfHandled | internal/journal/journal.go:81-94 | what has got a task directory is not too long for the archives |
| Archive.LongNameIsNeverHandled | internal/uniquename/uniquename.go:89-91 | a name of 238 bytes in an empty directory |
| Buckets.Compact | watch/metrics.go:13-26 | in place, the array's head becomes the strict running maxima of its rounded original values |
| Buckets.MaximaIncrease | watch/metrics.go:18-23 | the buckets increase strictly up to the largest value |
| Buckets.MaximaAreExact | watch/metrics.go:18-23 | a value is a bucket iff it exceeds all rounded values before it |
| Buckets.SortedGivesDistinct | watch/metrics.go:13-26 | for sorted input the buckets are the distinct rounded values in increasing order |

## Left out

- Watchman client and triggers, the RPC service, HTTP and socket servers, signals, command execution, file copying, logging, YAML decoding: they do not decide what runs when or where files go; what they can do to the core is an arbitrary step, result or change of a file.
- Validated configuration ranges are a precondition (`RetryStrategy.Config.Valid`, internal/config/handler.go:55-69).
- Time inside a locked section stands still: a timer is armed relative to the clock reading that chose it. A timer armed in a round that launches a task is not kept, since the next round sets it anew.
- Contexts: cancellation wakes a waiter in Stop or Quiesce, but what a cancelled context does to a task function is left to the function's arbitrary result.
- Start's panic on a second call is a step that is not enabled; the panic of Add for a nil function is not modelled.
- Task identity is the unbounded count of draws. The order queue's results assume that the tickets in it are less than 2^63 apart (`SchedulerCore.WindowOk`), without which the comparison is no order.
- Schedulers.Scheduler.Enqueue: requires, for a task without due time, the tickets in the insertion-order queue to be less than 2^63 apart, because the heap has no order to keep otherwise.
- Schedulers.Scheduler.FinishTask: requires the same if the task has no due time and is queued again.
- Schedulers.Scheduler.Take: requires the same of a step that queues a task without due time; other steps need no distance between tickets.
- SchedulerOrder.StartsInAddOrder: is about tasks without due time, whose queue is the only one in insertion order.
- SchedulerTermination.StopTerminates: assumes that task functions return and that the threads under way are allowed to run; fairness of the Go scheduler is not modelled.
- Floating point is idealised as reals; delays without maximum are unbounded integers, where time.Duration would overflow.
- RetryStrategy.Fuzz takes the random draw from [0, 1) as a parameter.
- Handler.prune holds the handler's mutex while pruning; as a thread that only delays others it is not in the protocol.
- The file's path and what the archives received for it are one `HandlerTask.Disk` per name. What DescribeChanges compares is one number.
- HandlerTask.Site.MoveToArchive: takes as an input whether the move succeeds, and does not say under which name; both are decided by `Archive.Journal.MoveToArchive` on a file system.
- HandlerFiles: the look at the file after the command, the comparison and the move are one step, so that a change between Lstat and rename is not modelled.
- HandlerCommands.CommandFollowsIff: is about continuations in which nobody touches the file again, nothing fails up to the first look and Stop is not called; without that a run may always fail first, which is what HandlerChanges.SwallowedIff is about.
- HandlerLaunch.WaitingCanStart: says that a start is possible, not that it happens; for that task functions would have to return and the Go scheduler to be fair.
- Handlers.Handler: its sections under the mutex are methods; that they exclude each other is the protocol's part.
- Grapheme segmentation is an arbitrary split into pieces that are not empty; reading times back needs a boundary between a digit and a space, which Unicode text segmentation has. Names are valid UTF-8.
- The stripping of earlier suffixes by a regular expression is an arbitrary function.
- The check of the request's root directory in handle (watch/handler.go:95-99) returns an error before anything is locked; only accepted requests are steps, and their names are already cleaned.
- Directories of paths: names are generated and moved without the path manipulation of filepath.Join and filepath.Split.
- Time layouts: zones have a fixed offset, years have four digits, and fractional seconds, which Go's parser would accept, are not read.
- Moves.FileSystem.RenameToAvailableName: candidates are a finite sequence; a generator never runs out, so that the loop ends with the first candidate that is free.
- Reading the directory and taking the lock file in Pruner.Run, and the loop over the three directories in Journal.Prune, are left out: `Retention.Directory.RunLocked` is about one directory whose entries were read under the lock.
- makeSecondsBuckets' exponential input comes from a library; any input is admitted.
