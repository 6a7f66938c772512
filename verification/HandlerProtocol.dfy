/**
 * The handler of watch/handler.go on top of the scheduler: its mutex, the pending map, lazily locked
 * invocations, and the counters of watch/handlermetrics.go. A state contains a whole scheduler state;
 * handler steps take scheduler steps along with them.
 */
module HandlerProtocol {
  import opened Options
  import opened RetryStrategy
  import opened SchedulerCore
  import opened SchedulerProtocol
  import opened SequenceNumbers

  type Name = string

  /**
   * How far a task's Run is: before the Lstat of validateChangedFile, refused by it, or past it, that is
   * running its command or done with it.
   */
  datatype Phase = Preparing | Refused | Commanding

  /** Where a thread is in the handler's code. Threads in handle and invokeTask only. */
  datatype HPc =
    | HandleLock(name: Name)      // handle: about to lock
    | HandleAdding                // handle: locked, in Scheduler.Add
    | HandleReport                // handle: locked, about to report the change and unlock
    | Invoking(phase: Phase)      // invokeTask: in the task's Run
    | Finalizing                  // invokeTask: final status reported, about to lock and delete
    | Leaving(outcome: Outcome)   // invokeTask: about to run the deferred unlock
    | Left(outcome: Outcome)      // invokeTask: about to return to the scheduler

  /** What the task's Run returns: nil, a permanent error, or an error subject to the retry strategy. */
  datatype InvokeResult = Success | PermanentFailure | Failure(jitter: real)

  datatype HState = HState(
    sched: State,
    mu: Option<ThreadId>,
    pending: map<Name, TaskId>,
    names: map<TaskId, Name>,      // the scheduler tasks that handle created
    retriesOf: map<TaskId, nat>,   // how many retries each of them asked for
    hpc: map<ThreadId, HPc>,
    fileChanges: nat,
    retries: nat,
    finishedTotal: nat,
    failures: nat)

  datatype HAction =
    | SchedStep(a: Action)
    | HandleCall(th: ThreadId, name: Name)
    | HandleEnter(th: ThreadId)
    | HandleExit(th: ThreadId)
    | FirstLook(th: ThreadId, ok: bool)
    | InvokeLock(th: ThreadId)
    | InvokeReturn(th: ThreadId, result: InvokeResult)
    | Delete(th: ThreadId)
    | Unlock(th: ThreadId)
    | InvokeDone(th: ThreadId)

  predicate InInvoke(pc: HPc) {
    pc.Invoking? || pc.Finalizing? || pc.Leaving? || pc.Left?
  }

  /** What the scheduler makes of the k-th run's result; k retries were asked for before. */
  function OutcomeOf(cfg: Config, k: nat, result: InvokeResult): Outcome {
    if !result.Failure? then Finished
    else
      var delay := Fuzz(CurrentOf(After(cfg, k)), FUZZ_FACTOR, result.jitter);
      if delay < 0 then Finished else Retry(delay)
  }

  /** Threads and names refer to each other's tasks, so that steps are well defined. */
  ghost predicate HTyped(h: HState) {
    && Typed(h.sched)
    && h.retriesOf.Keys == h.names.Keys
    && (forall th | th in h.hpc :: InInvoke(h.hpc[th]) ==>
          th in h.sched.threads && h.sched.threads[th].Running? && h.sched.threads[th].task in h.names)
  }

  ghost function TaskOf(h: HState, th: ThreadId): TaskId
    requires HTyped(h) && th in h.hpc && InInvoke(h.hpc[th])
  {
    h.sched.threads[th].task
  }

  /** The name is not pending: handle makes a new task. */
  ghost predicate Creates(h: HState, a: HAction)
    requires a.HandleEnter? ==> a.th in h.hpc && h.hpc[a.th].HandleLock?
  {
    a.HandleEnter? && h.hpc[a.th].name !in h.pending
  }

  /** The scheduler step that goes with a handler step. */
  ghost function SchedAction(h: HState, a: HAction): Option<Action>
    requires a.HandleEnter? ==> a.th in h.hpc && h.hpc[a.th].HandleLock?
    requires a.InvokeDone? ==> a.th in h.hpc && h.hpc[a.th].Left?
  {
    match a
    case SchedStep(sa) => Some(sa)
    case HandleEnter(th) => if Creates(h, a) then Some(AddDraw(th, None)) else None
    case InvokeDone(th) => Some(TaskReturn(th, h.hpc[th].outcome))
    case _ => None
  }

  /** A scheduler step that is not the handler's doing leaves the handler's threads alone. */
  ghost predicate NotHandlers(h: HState, a: Action)
    requires Typed(h.sched) && Enabled(h.sched, a)
  {
    && (a.AddDraw? || a.SetSlots? || a.Start? || a.QuiesceCall? || a.StopCall? ==> a.th !in h.hpc)
    && (a.LoopLaunch? ==> a.runner !in h.hpc)
    && (a.TaskReturn? ==> h.sched.threads[a.th].task !in h.names)
  }

  /**
   * A run that started its command takes the lock before it returns, and no other run succeeds. What
   * fails before the first look may be permanent, like a failure to make the journal directory, or not,
   * like a failure to open the log. A file that is refused is a permanent failure.
   */
  ghost predicate ResultOk(h: HState, th: ThreadId, r: InvokeResult) {
    && th in h.hpc && h.hpc[th].Invoking?
    && (h.hpc[th].phase.Preparing? ==> !r.Success?)
    && (h.hpc[th].phase.Refused? ==> r.PermanentFailure?)
    && (h.hpc[th].phase.Commanding? ==> h.mu == Some(th))
    && (r.Failure? ==> 0.0 <= r.jitter < 1.0)
  }

  ghost predicate HEnabled(h: HState, a: HAction)
    requires HTyped(h)
  {
    && (match a
        case SchedStep(sa) => Enabled(h.sched, sa) && NotHandlers(h, sa)
        case HandleCall(th, _) => th !in h.hpc && th !in h.sched.threads
        case HandleEnter(th) => th in h.hpc && h.hpc[th].HandleLock? && h.mu == None
        case HandleExit(th) => th in h.hpc && h.hpc[th].HandleReport?
        case FirstLook(th, _) => th in h.hpc && h.hpc[th] == Invoking(Preparing)
        case InvokeLock(th) => th in h.hpc && h.hpc[th] == Invoking(Commanding) && h.mu == None
        case InvokeReturn(th, r) => ResultOk(h, th, r)
        case Delete(th) => th in h.hpc && h.hpc[th].Finalizing? && (h.mu == None || h.mu == Some(th))
        case Unlock(th) => th in h.hpc && h.hpc[th].Leaving?
        case InvokeDone(th) => th in h.hpc && h.hpc[th].Left?)
    && (SchedAction(h, a).Some? ==> Enabled(h.sched, SchedAction(h, a).value))
  }

  ghost function NextSched(h: HState, a: HAction): State
    requires HTyped(h) && HEnabled(h, a)
  {
    if SchedAction(h, a).Some? then Apply(h.sched, SchedAction(h, a).value) else h.sched
  }

  /** The thread that moves in the handler's code, if any. */
  ghost function HMover(h: HState, a: HAction): Option<ThreadId>
    requires HTyped(h) && HEnabled(h, a)
  {
    match a
    case SchedStep(sa) =>
      if sa.LoopLaunch? && sa.task in h.names then Some(sa.runner)
      else if sa.SetNotification? && sa.th in h.hpc then Some(sa.th)
      else None
    case _ =>
      Some(a.th)
  }

  /** Where that thread goes; None if it leaves the handler's code. */
  ghost function NextHPc(cfg: Config, h: HState, a: HAction): Option<HPc>
    requires HTyped(h) && HEnabled(h, a)
  {
    match a
    case SchedStep(sa) => if sa.LoopLaunch? then Some(Invoking(Preparing)) else Some(HandleReport)
    case HandleCall(_, name) => Some(HandleLock(name))
    case HandleEnter(_) => if Creates(h, a) then Some(HandleAdding) else Some(HandleReport)
    case HandleExit(_) => None
    case FirstLook(_, ok) => Some(Invoking(if ok then Commanding else Refused))
    case InvokeLock(_) => Some(Invoking(Commanding))
    case InvokeReturn(th, r) =>
      var outcome := OutcomeOf(cfg, h.retriesOf[TaskOf(h, th)], r);
      if outcome.Finished? then Some(Finalizing) else Some(Leaving(outcome))
    case Delete(_) => Some(Leaving(Finished))
    case Unlock(th) => Some(Left(h.hpc[th].outcome))
    case InvokeDone(_) => None
  }

  function HMoved(hpc: map<ThreadId, HPc>, th: Option<ThreadId>, pc: Option<HPc>): map<ThreadId, HPc> {
    if th.None? then hpc else if pc.Some? then hpc[th.value := pc.value] else hpc - {th.value}
  }

  /** The result of an invocation that asks for a retry. */
  ghost predicate AsksRetry(cfg: Config, h: HState, a: HAction)
    requires HTyped(h) && HEnabled(h, a)
  {
    a.InvokeReturn? && OutcomeOf(cfg, h.retriesOf[TaskOf(h, a.th)], a.result).Retry?
  }

  ghost function HApply(cfg: Config, h: HState, a: HAction): HState
    requires HTyped(h) && HEnabled(h, a)
  {
    var drawn := NextTicket(h.sched.counter);
    HState(
      NextSched(h, a),
      if a.HandleEnter? || a.InvokeLock? || a.Delete? then Some(a.th)
      else if (a.HandleExit? || a.Unlock?) && h.mu == Some(a.th) then None
      else h.mu,
      if Creates(h, a) then h.pending[h.hpc[a.th].name := drawn]
      else if a.Delete? then h.pending - {h.names[TaskOf(h, a.th)]}
      else h.pending,
      if Creates(h, a) then h.names[drawn := h.hpc[a.th].name] else h.names,
      if Creates(h, a) then h.retriesOf[drawn := 0]
      else if AsksRetry(cfg, h, a) then h.retriesOf[TaskOf(h, a.th) := h.retriesOf[TaskOf(h, a.th)] + 1]
      else h.retriesOf,
      HMoved(h.hpc, HMover(h, a), NextHPc(cfg, h, a)),
      if a.HandleExit? then h.fileChanges + 1 else h.fileChanges,
      if AsksRetry(cfg, h, a) then h.retries + 1 else h.retries,
      if a.InvokeReturn? && !AsksRetry(cfg, h, a) then h.finishedTotal + 1 else h.finishedTotal,
      if a.InvokeReturn? && !AsksRetry(cfg, h, a) && !a.result.Success? then h.failures + 1 else h.failures)
  }

  ghost predicate HInit(h: HState) {
    && Init(h.sched) && h.mu == None && h.hpc == map[]
    && h.pending == map[] && h.names == map[] && h.retriesOf == map[]
    && h.fileChanges == 0 && h.retries == 0 && h.finishedTotal == 0 && h.failures == 0
  }
}
