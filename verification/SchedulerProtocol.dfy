/**
 * The scheduler's threads as a step relation. Every section under the mutex is one step, and so is
 * every event.Set that follows it. A mutex handed to a new goroutine makes one step of both halves.
 */
module SchedulerProtocol {
  import opened Options
  import opened SchedulerCore
  import opened SequenceNumbers

  type ThreadId = nat

  /** Where a thread is. Threads that have returned are dropped, except for those returned from Stop. */
  datatype Pc =
    | AddLock(task: TaskId)                    // Add: number drawn, about to lock
    | Notify                                   // Add, SetSlots: about to set loopNotification
    | LoopTop                                  // loop: about to lock
    | LoopWait(timer: Option<int>)             // loop: in select
    | LoopDefer                                // Start's goroutine: loop returned, about to lock
    | LoopSignal                               // Start's goroutine: about to set loopFinished
    | Running(task: TaskId)                    // runTask: in the task function
    | Returned(task: TaskId, finished: bool)   // runTask: about to lock
    | RunSignal                                // runTask: about to set taskFinished
    | QuiesceNotify                            // Quiesce: about to set loopNotification
    | QuiesceTop                               // Quiesce: about to lock
    | QuiesceWait                              // Quiesce: in select
    | StopNotify                               // Stop: flag set, about to set loopNotification
    | StopTop                                  // Stop: about to lock
    | StopWait                                 // Stop: in select
    | StopDone                                 // Stop: returned

  /** The three events are channels holding at most one token. */
  datatype State = State(
    core: Core,
    now: int,
    counter: nat,
    loopNotification: bool,
    loopFinished: bool,
    taskFinished: bool,
    threads: map<ThreadId, Pc>,
    finished: set<TaskId>,
    abandoned: set<TaskId>,
    panicked: bool)

  /** What a task function's return value means to the scheduler. */
  datatype Outcome = Finished | Retry(delay: int)

  datatype Event = LoopEvent | TaskEvent

  datatype Action =
    | Tick(duration: nat)
    | AddDraw(th: ThreadId, delay: Option<int>)
    | AddEnqueue(th: ThreadId)
    | SetSlots(th: ThreadId, count: int)
    | SetNotification(th: ThreadId)
    | Start(th: ThreadId)
    | LoopLeave(th: ThreadId)
    | LoopSleep(th: ThreadId, timer: Option<int>)
    | LoopLaunch(th: ThreadId, task: TaskId, runner: ThreadId)
    | LoopNotified(th: ThreadId)
    | LoopTimer(th: ThreadId)
    | LoopEnd(th: ThreadId)
    | SetLoopFinished(th: ThreadId)
    | TaskReturn(th: ThreadId, outcome: Outcome)
    | TaskFinish(th: ThreadId)
    | SetTaskFinished(th: ThreadId)
    | QuiesceCall(th: ThreadId)
    | QuiesceCheck(th: ThreadId)
    | QuiesceCancelled(th: ThreadId)
    | StopCall(th: ThreadId)
    | StopCheck(th: ThreadId)
    | StopCancelled(th: ThreadId)
    | WaiterWoken(th: ThreadId, event: Event)

  predicate IsWaiting(pc: Pc) {
    pc.QuiesceWait? || pc.StopWait?
  }

  /** The thread is about to set loopNotification. */
  predicate WillNotify(pc: Pc) {
    pc.Notify? || pc.QuiesceNotify? || pc.StopNotify?
  }

  ghost predicate Init(s: State) {
    && s.core.slots >= 1 && s.core.tasks == map[] && s.core.byOrder == {} && s.core.byTime == {}
    && s.core.loopActiveCount == 0 && !s.core.stopRequested && s.core.taskActiveCount == 0
    && ZERO_TIME < s.now && !s.loopNotification && !s.loopFinished && !s.taskFinished
    && s.threads == map[] && s.finished == {} && s.abandoned == {} && !s.panicked
  }

  /** Queues and threads refer to known tasks, so that steps are well defined. */
  ghost predicate Typed(s: State) {
    && s.core.Known()
    && forall th | th in s.threads :: HoldsTask(s.threads[th]) ==> s.threads[th].task in s.core.tasks
  }

  /** The thread owns a task that is in no queue. */
  predicate HoldsTask(pc: Pc) {
    pc.AddLock? || pc.Running? || pc.Returned?
  }

  ghost predicate Enabled(s: State, a: Action)
    requires Typed(s)
  {
    && !s.panicked
    && match a
       case Tick(_) => true
       case AddDraw(th, _) => th !in s.threads
       case AddEnqueue(th) => th in s.threads && s.threads[th].AddLock?
       case SetSlots(th, _) => th !in s.threads
       case SetNotification(th) => th in s.threads && WillNotify(s.threads[th])
       case Start(th) => th !in s.threads && !s.core.stopRequested && s.core.loopActiveCount == 0
       case LoopLeave(th) => th in s.threads && s.threads[th].LoopTop? && Decides(s.core, s.now, Leave)
       case LoopSleep(th, timer) => th in s.threads && s.threads[th].LoopTop? && Decides(s.core, s.now, Sleep(timer))
       case LoopLaunch(th, t, runner) =>
         th in s.threads && s.threads[th].LoopTop? && runner !in s.threads && Decides(s.core, s.now, Launch(t))
       case LoopNotified(th) => th in s.threads && s.threads[th].LoopWait? && s.loopNotification
       case LoopTimer(th) =>
         th in s.threads && s.threads[th].LoopWait? && s.threads[th].timer.Some? && s.threads[th].timer.value <= s.now
       case LoopEnd(th) => th in s.threads && s.threads[th].LoopDefer?
       case SetLoopFinished(th) => th in s.threads && s.threads[th].LoopSignal?
       case TaskReturn(th, outcome) =>
         th in s.threads && s.threads[th].Running? && (outcome.Retry? ==> 0 <= outcome.delay)
       case TaskFinish(th) => th in s.threads && s.threads[th].Returned?
       case SetTaskFinished(th) => th in s.threads && s.threads[th].RunSignal?
       case QuiesceCall(th) => th !in s.threads
       case QuiesceCheck(th) => th in s.threads && s.threads[th].QuiesceTop?
       case QuiesceCancelled(th) => th in s.threads && s.threads[th].QuiesceWait?
       case StopCall(th) => th !in s.threads
       case StopCheck(th) => th in s.threads && s.threads[th].StopTop?
       case StopCancelled(th) => th in s.threads && s.threads[th].StopWait?
       case WaiterWoken(th, e) =>
         th in s.threads && IsWaiting(s.threads[th]) && (if e.LoopEvent? then s.loopFinished else s.taskFinished)
  }

  /** The time option of Add: no due time, or the given duration from now. */
  function DueFrom(now: int, delay: Option<int>): int {
    if delay.None? then ZERO_TIME else now + delay.value
  }

  /** The step ends in one of enqueue's panics. */
  ghost predicate Panics(s: State, a: Action)
    requires Typed(s) && Enabled(s, a)
  {
    match a
    case AddEnqueue(th) => Enqueue(s.core, s.threads[th].task).Panicked?
    case TaskFinish(th) => FinishedTask(s.core, s.threads[th].task, s.threads[th].finished).Panicked?
    case _ => false
  }

  /** The thread that moves. A launch starts a new thread while the loop stays where it is. */
  function Mover(a: Action): ThreadId
    requires !a.Tick?
  {
    if a.LoopLaunch? then a.runner else a.th
  }

  /** Where the moving thread goes; None if it returns. */
  ghost function NextPc(s: State, a: Action): Option<Pc>
    requires Typed(s) && Enabled(s, a) && !a.Tick?
  {
    match a
    case AddDraw(_, _) => Some(AddLock(NextTicket(s.counter)))
    case AddEnqueue(_) => Some(Notify)
    case SetSlots(_, _) => Some(Notify)
    case SetNotification(th) =>
      if s.threads[th].QuiesceNotify? then Some(QuiesceTop)
      else if s.threads[th].StopNotify? then Some(StopTop)
      else None
    case Start(_) => Some(LoopTop)
    case LoopLeave(_) => Some(LoopDefer)
    case LoopSleep(_, timer) => Some(LoopWait(timer))
    case LoopLaunch(_, t, _) => Some(Running(t))
    case LoopNotified(_) => Some(LoopTop)
    case LoopTimer(_) => Some(LoopTop)
    case LoopEnd(_) => Some(LoopSignal)
    case SetLoopFinished(_) => None
    case TaskReturn(th, outcome) => Some(Returned(s.threads[th].task, outcome.Finished?))
    case TaskFinish(_) => Some(RunSignal)
    case SetTaskFinished(_) => None
    case QuiesceCall(_) => Some(QuiesceNotify)
    case QuiesceCheck(_) => if Idle(s.core) then None else Some(QuiesceWait)
    case QuiesceCancelled(_) => None
    case StopCall(_) => Some(StopNotify)
    case StopCheck(_) => if Halted(s.core) then Some(StopDone) else Some(StopWait)
    case StopCancelled(_) => Some(StopTop)
    case WaiterWoken(th, _) => if s.threads[th].QuiesceWait? then Some(QuiesceTop) else Some(StopTop)
  }

  /** What the step does to the state under the mutex and to tasks. */
  ghost function NextCore(s: State, a: Action): Core
    requires Typed(s) && Enabled(s, a) && !Panics(s, a)
  {
    var c := s.core;
    match a
    case AddDraw(_, delay) =>
      c.(tasks := c.tasks[NextTicket(s.counter) := Task(DueFrom(s.now, delay), 0, false, false)])
    case AddEnqueue(th) =>
      Enqueue(c, s.threads[th].task).core
    case SetSlots(_, count) =>
      c.(slots := if count < 1 then 1 else count)
    case Start(_) =>
      c.(loopActiveCount := c.loopActiveCount + 1)
    case LoopLaunch(_, t, _) =>
      var c1 := Launched(c, t);
      c1.(tasks := c1.tasks[t := c1.tasks[t].(attemptCount := c1.tasks[t].attemptCount + 1)])
    case LoopEnd(_) =>
      c.(loopActiveCount := c.loopActiveCount - 1)
    case TaskReturn(th, outcome) =>
      var t := s.threads[th].task;
      if outcome.Finished? then c
      else c.(tasks := c.tasks[t := c.tasks[t].(nextAfter := s.now + outcome.delay)])
    case TaskFinish(th) =>
      FinishedTask(c, s.threads[th].task, s.threads[th].finished).core
    case StopCall(_) =>
      c.(stopRequested := true)
    case StopCheck(_) =>
      if Halted(c) then c.(byOrder := {}, byTime := {}) else c
    case _ =>
      c
  }

  function Moved(threads: map<ThreadId, Pc>, th: ThreadId, pc: Option<Pc>): map<ThreadId, Pc> {
    if pc.Some? then threads[th := pc.value] else threads - {th}
  }

  ghost function Apply(s: State, a: Action): State
    requires Typed(s) && Enabled(s, a)
  {
    if Panics(s, a) then
      s.(panicked := true)
    else if a.Tick? then
      s.(now := s.now + a.duration)
    else
      var c := NextCore(s, a);
      State(
        c,
        s.now,
        if a.AddDraw? then NextTicket(s.counter) else s.counter,
        if a.SetNotification? then true
        else if a.LoopNotified? then false
        else if a.TaskFinish? then s.loopNotification || c.byOrder != {} || c.byTime != {}
        else s.loopNotification,
        if a.SetLoopFinished? then true else if a.WaiterWoken? && a.event.LoopEvent? then false else s.loopFinished,
        if a.SetTaskFinished? then true else if a.WaiterWoken? && a.event.TaskEvent? then false else s.taskFinished,
        Moved(s.threads, Mover(a), NextPc(s, a)),
        if a.TaskFinish? && s.threads[a.th].finished then s.finished + {s.threads[a.th].task} else s.finished,
        if a.StopCheck? && Halted(s.core) then s.abandoned + s.core.byOrder + s.core.byTime else s.abandoned,
        false)
  }
}
