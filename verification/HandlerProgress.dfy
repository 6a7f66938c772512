/**
 * What the threads under way can do by themselves: give up the handler's mutex and end their runs. The
 * continuations are built step by step, and they leave a given task and its file alone.
 */
module HandlerProgress {
  import opened Options
  import opened RetryStrategy
  import opened SchedulerCore
  import opened SchedulerProtocol
  import opened SchedulerSafety
  import opened SchedulerOrder
  import opened HandlerProtocol
  import opened HandlerSafety
  import opened HandlerStages
  import opened HandlerInvariants
  import opened HandlerRuns
  import opened HandlerFiles

  // ---------- Continuations ----------

  /** Steps of threads under way, the start of the loop and the passing of time. */
  predicate IsOrdinary(a: HAction) {
    match a
    case SchedStep(sa) =>
      || sa.Tick? || sa.AddEnqueue? || sa.SetNotification? || sa.Start? || sa.LoopLaunch? || sa.LoopNotified?
      || sa.LoopTimer? || sa.TaskReturn? || sa.TaskFinish?
    case _ =>
      !a.HandleCall? && !a.HandleEnter? && !a.FirstLook?
  }

  /** An ordinary step outside of a run of t. */
  ghost predicate Aside(cfg: Config, f: FState, b: FAction, t: TaskId) {
    && HTyped(f.h) && b.Act? && FEnabled(cfg, f, b) && IsOrdinary(b.a)
    && (RunnerSteps(f.h, b.a, t) ==> b.a.Unlock? || b.a.InvokeDone?)
  }

  /** Steps aside from t lead from f to f'. */
  ghost predicate Path(cfg: Config, f: FState, acts: seq<FAction>, f': FState, t: TaskId)
    decreases |acts|
  {
    if acts == [] then f' == f
    else Aside(cfg, f, acts[0], t) && Path(cfg, FApply(cfg, f, acts[0]), acts[1..], f', t)
  }

  ghost predicate Leads(cfg: Config, f: FState, f': FState, t: TaskId) {
    exists acts :: Path(cfg, f, acts, f', t)
  }

  /** t is pending. */
  ghost predicate Present(cfg: Config, f: FState, t: TaskId) {
    FInv(cfg, f) && t in f.h.names && StageOf(f.h, t) != Gone
  }

  /** What steps aside from t do not change: its retries, its file, what runs have seen, the stop flag. */
  ghost predicate Kept(f: FState, f': FState, t: TaskId) {
    && t in f.h.names && f'.h.names == f.h.names && f'.seen == f.seen
    && t in f.h.retriesOf && t in f'.h.retriesOf && f'.h.retriesOf[t] == f.h.retriesOf[t]
    && f'.DiskOf(f.h.names[t]) == f.DiskOf(f.h.names[t])
    && f'.h.sched.core.stopRequested == f.h.sched.core.stopRequested
  }

  ghost predicate Reaches(cfg: Config, f: FState, f': FState, t: TaskId) {
    Present(cfg, f', t) && Kept(f, f', t) && Leads(cfg, f, f', t)
  }

  lemma ReachesSelf(cfg: Config, f: FState, t: TaskId)
    requires Present(cfg, f, t)
    ensures Reaches(cfg, f, f, t)
  {
    assert Path(cfg, f, [], f, t);
  }

  lemma LeadsAfter(cfg: Config, f: FState, b: FAction, f': FState, t: TaskId)
    requires Aside(cfg, f, b, t) && Leads(cfg, FApply(cfg, f, b), f', t)
    ensures Leads(cfg, f, f', t)
  {
    var acts :| Path(cfg, FApply(cfg, f, b), acts, f', t);
    assert ([b] + acts)[1..] == acts;
    assert Path(cfg, f, [b] + acts, f', t);
  }

  lemma {:induction false} LeadsAfterPath(
      cfg: Config, f: FState, acts: seq<FAction>, f1: FState, f2: FState, t: TaskId)
    requires Path(cfg, f, acts, f1, t) && Leads(cfg, f1, f2, t)
    ensures Leads(cfg, f, f2, t)
    decreases |acts|
  {
    hide Leads;
    if acts != [] {
      LeadsAfterPath(cfg, FApply(cfg, f, acts[0]), acts[1..], f1, f2, t);
      LeadsAfter(cfg, f, acts[0], f2, t);
    }
  }

  lemma ReachesOn(cfg: Config, f: FState, f1: FState, f2: FState, t: TaskId)
    requires Reaches(cfg, f, f1, t) && Reaches(cfg, f1, f2, t)
    ensures Reaches(cfg, f, f2, t)
  {
    var acts :| Path(cfg, f, acts, f1, t);
    LeadsAfterPath(cfg, f, acts, f1, f2, t);
  }

  lemma StopFlagKept(s: State, a: Action)
    requires Typed(s) && Enabled(s, a) && !Panics(s, a) && !a.StopCall?
    ensures Apply(s, a).core.stopRequested == s.core.stopRequested
  {
    if !a.Tick? {
      StopThreadsFollowFlag(s, a);
    }
  }

  /** Only a call of Stop changes the flag. */
  lemma FlagKept(cfg: Config, h: HState, a: HAction)
    requires BaseOk(h) && HEnabled(h, a) && !(a.SchedStep? && a.a.StopCall?)
    ensures HApply(cfg, h, a).sched.core.stopRequested == h.sched.core.stopRequested
  {
    SchedKept(h, a);
    if SchedAction(h, a).Some? {
      StopFlagKept(h.sched, SchedAction(h, a).value);
    }
  }

  lemma AsideEffect(cfg: Config, f: FState, b: FAction, t: TaskId)
    requires Aside(cfg, f, b, t)
    ensures var f' := FApply(cfg, f, b);
      && f'.h == HApply(cfg, f.h, b.a) && f'.h.names == f.h.names && f'.seen == f.seen
      && (b.a.SchedStep? ==> f'.h.sched == Apply(f.h.sched, b.a.a) && f'.h.mu == f.h.mu)
  {
  }

  lemma AsideKeepsFile(cfg: Config, f: FState, b: FAction, t: TaskId)
    requires Present(cfg, f, t) && Aside(cfg, f, b, t)
    ensures var f' := FApply(cfg, f, b);
      && t in f'.h.retriesOf && f'.h.retriesOf[t] == f.h.retriesOf[t]
      && f'.DiskOf(f.h.names[t]) == f.DiskOf(f.h.names[t])
  {
    if OwnStep(f, b, t) {
      NewTaskIsNew(f.h);
      OtherFileStands(cfg, f, b, t);
      RetriesChange(cfg, f.h, b.a, t);
    } else {
      FileStands(cfg, f, b, t);
    }
  }

  lemma AsideStaysPresent(cfg: Config, f: FState, b: FAction, t: TaskId)
    requires Present(cfg, f, t) && Aside(cfg, f, b, t)
    ensures Present(cfg, FApply(cfg, f, b), t)
  {
    AsideEffect(cfg, f, b, t);
    FInvStep(cfg, f, b);
    StageStep(cfg, f.h, b.a, t);
    hide FInv, StageOf, FApply, HApply;
  }

  lemma AsideKeepsFlag(cfg: Config, f: FState, b: FAction, t: TaskId)
    requires FInv(cfg, f) && Aside(cfg, f, b, t)
    ensures FApply(cfg, f, b).h.sched.core.stopRequested == f.h.sched.core.stopRequested
  {
    FlagKept(cfg, f.h, b.a);
  }

  lemma AsideIsKept(cfg: Config, f: FState, b: FAction, t: TaskId)
    requires Present(cfg, f, t) && Aside(cfg, f, b, t)
    ensures Kept(f, FApply(cfg, f, b), t)
  {
    hide FInv, BaseOk, StageOf, FApply, HApply, FEnabled, IsOrdinary;
    FInvBase(cfg, f);
    AsideEffect(cfg, f, b, t);
    AsideKeepsFile(cfg, f, b, t);
    AsideKeepsFlag(cfg, f, b, t);
  }

  lemma ReachesAfter(cfg: Config, f: FState, b: FAction, f': FState, t: TaskId)
    requires Present(cfg, f, t) && Aside(cfg, f, b, t) && Reaches(cfg, FApply(cfg, f, b), f', t)
    ensures Reaches(cfg, f, f', t)
  {
    AsideStaysPresent(cfg, f, b, t);
    AsideIsKept(cfg, f, b, t);
    LeadsAfter(cfg, f, b, f', t);
    hide FInv, StageOf, FApply, Leads;
  }

  // ---------- Where a task is ----------

  ghost predicate InQueue(c: Core, t: TaskId) {
    t in c.byOrder || t in c.byTime
  }

  predicate Launches(a: HAction) {
    a.SchedStep? && a.a.LoopLaunch?
  }

  lemma StaysInQueue(s: State, a: Action, t: TaskId)
    requires Typed(s) && Enabled(s, a) && !Panics(s, a) && InQueue(s.core, t) && !LaunchOf(a, t) && !a.StopCheck?
    ensures InQueue(Apply(s, a).core, t)
  {
  }

  lemma AsideStaysInQueue(cfg: Config, f: FState, b: FAction, t: TaskId)
    requires FInv(cfg, f) && Aside(cfg, f, b, t) && InQueue(f.h.sched.core, t)
    requires !(b.a.SchedStep? && LaunchOf(b.a.a, t))
    ensures InQueue(FApply(cfg, f, b).h.sched.core, t)
  {
    SchedKept(f.h, b.a);
    if SchedAction(f.h, b.a).Some? {
      StaysInQueue(f.h.sched, SchedAction(f.h, b.a).value, t);
    }
  }

  /** If t is queued it still is, and so is a run of it where it was. */
  ghost predicate SamePlace(h: HState, h': HState, t: TaskId) {
    && (InQueue(h.sched.core, t) ==> InQueue(h'.sched.core, t))
    && (forall u, pc | RunIs(h, u, t, pc) && (pc.Invoking? || pc.Finalizing?) :: RunIs(h', u, t, pc))
  }

  lemma RunIsAside(cfg: Config, f: FState, b: FAction, u: ThreadId, t: TaskId, pc: HPc)
    requires FInv(cfg, f) && Aside(cfg, f, b, t) && t in f.h.names
    requires RunIs(f.h, u, t, pc) && (pc.Invoking? || pc.Finalizing?)
    ensures RunIs(FApply(cfg, f, b).h, u, t, pc)
  {
    hide FInv, StageOf, HApply, FApply;
    FInvBase(cfg, f);
    RunIsTried(f.h, u, t, pc);
    hide BaseOk;
    AsideEffect(cfg, f, b, t);
    assert RunnerSteps(f.h, b.a, t) ==> RunIs(f.h, b.a.th, t, f.h.hpc[b.a.th]);
    RunStands(cfg, f.h, b.a, u, t, pc);
  }

  lemma PlaceKept(cfg: Config, f: FState, b: FAction, t: TaskId)
    requires FInv(cfg, f) && Aside(cfg, f, b, t) && !Launches(b.a) && t in f.h.names
    ensures SamePlace(f.h, FApply(cfg, f, b).h, t)
  {
    hide FInv, FApply;
    if InQueue(f.h.sched.core, t) {
      AsideStaysInQueue(cfg, f, b, t);
    }
    forall u, pc | RunIs(f.h, u, t, pc) && (pc.Invoking? || pc.Finalizing?)
      ensures RunIs(FApply(cfg, f, b).h, u, t, pc)
    {
      RunIsAside(cfg, f, b, u, t, pc);
    }
  }

  // ---------- Giving up the mutex ----------

  /** A run of t holds the handler's mutex. */
  ghost predicate Locked(h: HState, t: TaskId) {
    h.mu.Some? && HoldsLock(h, h.mu.value, t)
  }

  /** How many steps the holder of the mutex is away from giving it up. */
  ghost function HolderRank(h: HState): nat {
    if h.mu.None? || h.mu.value !in h.hpc then 0
    else
      match h.hpc[h.mu.value]
      case HandleReport => 1
      case Leaving(_) => 1
      case Finalizing => 2
      case HandleAdding => if h.mu.value in h.sched.threads && h.sched.threads[h.mu.value].Notify? then 2 else 3
      case _ => 3
  }

  /** Nothing can fail in a step outside of a task's Run. */
  lemma QuietAside(cfg: Config, f: FState, a: HAction, t: TaskId)
    requires HTyped(f.h) && HEnabled(f.h, a) && IsOrdinary(a) && !a.InvokeReturn?
    requires RunnerSteps(f.h, a, t) ==> a.Unlock? || a.InvokeDone?
    ensures Aside(cfg, f, Act(a, QUIET), t) && FApply(cfg, f, Act(a, QUIET)).h == HApply(cfg, f.h, a)
  {
  }

  /** The step brings the mutex closer to being free, and no run of t gets it. */
  ghost predicate Frees(h: HState, h': HState, t: TaskId) {
    (h'.mu == None || HolderRank(h') < HolderRank(h)) && !Locked(h', t)
  }

  lemma ReturnFrees(cfg: Config, f: FState, u: ThreadId, t: TaskId)
    requires cfg.Valid() && HTyped(f.h) && f.h.mu == Some(u) && u in f.h.hpc && f.h.hpc[u] == Invoking(Commanding)
    requires u in f.seen && f.seen[u].Regular? && f.h.retriesOf[TaskOf(f.h, u)] <= cfg.retryCount && !Locked(f.h, t)
    ensures var b := QuietReturn(cfg, f, u);
      Aside(cfg, f, b, t) && !RunnerSteps(f.h, b.a, t) && Frees(f.h, FApply(cfg, f, b).h, t)
  {
    QuietReturnEffect(cfg, f, u, TaskOf(f.h, u));
    hide HApply, Attempted;
  }

  lemma DeleteFrees(cfg: Config, h: HState, u: ThreadId, t: TaskId)
    requires HTyped(h) && h.mu == Some(u) && u in h.hpc && h.hpc[u].Finalizing? && !Locked(h, t)
    ensures HEnabled(h, Delete(u)) && !RunnerSteps(h, Delete(u), t) && Frees(h, HApply(cfg, h, Delete(u)), t)
  {
  }

  /** What handle does in Scheduler.Add. */
  function AddingStep(s: State, u: ThreadId): Action {
    if u in s.threads && s.threads[u].Notify? then SetNotification(u) else AddEnqueue(u)
  }

  lemma AddingFrees(cfg: Config, h: HState, u: ThreadId, t: TaskId)
    requires HTyped(h) && !h.sched.panicked && h.mu == Some(u) && u in h.hpc && h.hpc[u].HandleAdding? && Linked(h, u)
    requires var a := AddingStep(h.sched, u); Enabled(h.sched, a) ==> !Panics(h.sched, a)
    ensures HEnabled(h, SchedStep(AddingStep(h.sched, u)))
    ensures Frees(h, HApply(cfg, h, SchedStep(AddingStep(h.sched, u))), t)
  {
  }

  lemma UnlockFrees(cfg: Config, h: HState, a: HAction, u: ThreadId, t: TaskId)
    requires HTyped(h) && h.mu == Some(u) && u in h.hpc
    requires (h.hpc[u].HandleReport? && a == HandleExit(u)) || (h.hpc[u].Leaving? && a == Unlock(u))
    ensures HEnabled(h, a) && Frees(h, HApply(cfg, h, a), t)
  {
  }

  /** The thread that holds the mutex can go on. */
  lemma FreeingStep(cfg: Config, f: FState, t: TaskId) returns (b: FAction)
    requires FInv(cfg, f) && f.h.mu.Some? && !Locked(f.h, t)
    ensures Aside(cfg, f, b, t) && !Launches(b.a)
    ensures Frees(f.h, FApply(cfg, f, b).h, t)
  {
    var u := f.h.mu.value;
    assert HTyped(f.h) && cfg.Valid() && Linked(f.h, u) && MayHold(f.h.hpc[u]) && TasksOk(f.h.sched);
    if f.h.hpc[u] == Invoking(Commanding) {
      RetriesAreBounded(cfg, f, u, TaskOf(f.h, u));
    }
    hide FInv, HApply;
    if f.h.hpc[u] == Invoking(Commanding) {
      b := QuietReturn(cfg, f, u);
      ReturnFrees(cfg, f, u, t);
    } else {
      var a := FreeingAction(cfg, f.h, t);
      QuietAside(cfg, f, a, t);
      b := Act(a, QUIET);
    }
  }

  lemma FreeingAction(cfg: Config, h: HState, t: TaskId) returns (a: HAction)
    requires HTyped(h) && h.mu.Some? && h.mu.value in h.hpc && Linked(h, h.mu.value) && MayHold(h.hpc[h.mu.value])
    requires TasksOk(h.sched) && !Locked(h, t) && h.hpc[h.mu.value] != Invoking(Commanding)
    ensures HEnabled(h, a) && IsOrdinary(a) && !a.InvokeReturn? && !Launches(a)
    ensures RunnerSteps(h, a, t) ==> a.Unlock?
    ensures Frees(h, HApply(cfg, h, a), t)
  {
    var u := h.mu.value;
    if h.hpc[u].HandleAdding? {
      a := SchedStep(AddingStep(h.sched, u));
      if Enabled(h.sched, a.a) {
        NoPanic(h.sched, a.a);
      }
      AddingFrees(cfg, h, u, t);
    } else if h.hpc[u].Finalizing? {
      a := Delete(u);
      DeleteFrees(cfg, h, u, t);
    } else {
      a := if h.hpc[u].HandleReport? then HandleExit(u) else Unlock(u);
      UnlockFrees(cfg, h, a, u, t);
    }
  }

  lemma {:induction false} MutexFreedByStep(cfg: Config, f: FState, t: TaskId) returns (f': FState)
    requires Present(cfg, f, t) && !Locked(f.h, t) && f.h.mu.Some?
    ensures Reaches(cfg, f, f', t) && f'.h.mu == None && SamePlace(f.h, f'.h, t)
    decreases HolderRank(f.h)
  {
    hide FInv, Leads, StageOf, FApply, HolderRank;
    var b := FreeingStep(cfg, f, t);
    var f1 := FApply(cfg, f, b);
    AsideStaysPresent(cfg, f, b, t);
    PlaceKept(cfg, f, b, t);
    if f1.h.mu == None {
      ReachesSelf(cfg, f1, t);
      f' := f1;
    } else {
      f' := MutexFreedByStep(cfg, f1, t);
    }
    ReachesAfter(cfg, f, b, f', t);
  }

  /** Whoever holds the handler's mutex can give it up, unless it is a run of t. */
  lemma MutexFreed(cfg: Config, f: FState, t: TaskId) returns (f': FState)
    requires Present(cfg, f, t) && !Locked(f.h, t)
    ensures Reaches(cfg, f, f', t) && f'.h.mu == None && SamePlace(f.h, f'.h, t)
  {
    hide FInv, Leads, StageOf, FApply, HolderRank;
    if f.h.mu == None {
      ReachesSelf(cfg, f, t);
      f' := f;
    } else {
      f' := MutexFreedByStep(cfg, f, t);
    }
  }

  // ---------- Ending a run ----------

  /** How many steps thread r is away from the end of its run. */
  ghost function RunRank(h: HState, r: ThreadId): nat {
    if r !in h.sched.threads then 0
    else if h.sched.threads[r].Returned? then 1
    else if r !in h.hpc then 2
    else
      match h.hpc[r]
      case Leaving(_) => 3
      case Finalizing => 4
      case Invoking(phase) => if phase.Commanding? && h.mu == None then 6 else 5
      case _ => 2
  }

  /** Thread r need not queue its task again. */
  ghost predicate Doomed(h: HState, r: ThreadId) {
    && r in h.sched.threads
    && (|| (h.sched.threads[r].Returned? && h.sched.threads[r].finished)
        || (h.sched.threads[r].Running? && r !in h.hpc)
        || (h.sched.threads[r].Running? && r in h.hpc && DoomedPc(h.hpc[r])))
  }

  predicate DoomedPc(pc: HPc) {
    || pc == Invoking(Preparing) || pc == Invoking(Refused) || pc.Finalizing?
    || pc == Leaving(Finished) || pc == Left(Finished)
  }

  /** Thread r is in a run, and nobody else has the handler's mutex. */
  ghost predicate Ending(h: HState, r: ThreadId) {
    r in h.sched.threads && IsRunner(h.sched.threads[r]) && (h.mu == None || h.mu == Some(r))
  }

  /** Thread r comes closer to the end of its run; nothing changes for queues and slots. */
  ghost predicate Nears(h: HState, h': HState, r: ThreadId) {
    && Ending(h', r) && RunRank(h', r) < RunRank(h, r) && (Doomed(h, r) ==> Doomed(h', r))
    && SameQueues(h.sched, h'.sched) && h'.sched.core.taskActiveCount == h.sched.core.taskActiveCount
  }

  ghost predicate SameQueues(s: State, s': State) {
    && s'.core.byOrder == s.core.byOrder && s'.core.byTime == s.core.byTime
    && s'.core.slots == s.core.slots && s'.now == s.now
  }

  /** The command succeeds, and the run deals with what it finds. */
  lemma CommandNears(cfg: Config, f: FState, r: ThreadId, t: TaskId)
    requires cfg.Valid() && HTyped(f.h) && f.h.mu == Some(r) && r in f.h.hpc && f.h.hpc[r] == Invoking(Commanding)
    requires r in f.seen && f.seen[r].Regular? && f.h.retriesOf[TaskOf(f.h, r)] <= cfg.retryCount
    requires TaskOf(f.h, r) != t
    ensures var b := QuietReturn(cfg, f, r);
      Aside(cfg, f, b, t) && Nears(f.h, FApply(cfg, f, b).h, r)
  {
    QuietReturnEffect(cfg, f, r, TaskOf(f.h, r));
    hide HApply, Attempted;
  }

  /** A run without a command fails for good, for instance because the command cannot be set up. */
  function FailingReturn(r: ThreadId): FAction {
    Act(InvokeReturn(r, PermanentFailure), QUIET.(newFails := true))
  }

  lemma FailureNears(cfg: Config, f: FState, r: ThreadId, t: TaskId)
    requires HTyped(f.h) && (f.h.mu == None || f.h.mu == Some(r))
    requires r in f.h.hpc && (f.h.hpc[r] == Invoking(Preparing) || f.h.hpc[r] == Invoking(Refused))
    requires TaskOf(f.h, r) != t
    ensures Aside(cfg, f, FailingReturn(r), t) && Nears(f.h, FApply(cfg, f, FailingReturn(r)).h, r)
  {
  }

  /** What a thread in invokeTask does next, outside of the task's Run. */
  function LeavingAction(pc: HPc, r: ThreadId): HAction {
    match pc
    case Finalizing => Delete(r)
    case Leaving(_) => Unlock(r)
    case _ => InvokeLock(r)
  }

  lemma LeavingNears(cfg: Config, h: HState, r: ThreadId)
    requires HTyped(h) && (h.mu == None || h.mu == Some(r)) && r in h.hpc
    requires h.hpc[r].Finalizing? || h.hpc[r].Leaving? || (h.hpc[r] == Invoking(Commanding) && h.mu == None)
    ensures HEnabled(h, LeavingAction(h.hpc[r], r)) && Nears(h, HApply(cfg, h, LeavingAction(h.hpc[r], r)), r)
  {
  }

  lemma DoneNears(cfg: Config, h: HState, r: ThreadId)
    requires HTyped(h) && h.mu == None && r in h.hpc && h.hpc[r].Left? && HEnabled(h, InvokeDone(r))
    ensures Nears(h, HApply(cfg, h, InvokeDone(r)), r)
  {
  }

  lemma OthersTaskNears(cfg: Config, h: HState, r: ThreadId)
    requires HTyped(h) && !h.sched.panicked && h.mu == None
    requires r in h.sched.threads && h.sched.threads[r].Running? && r !in h.hpc && h.sched.threads[r].task !in h.names
    ensures HEnabled(h, SchedStep(TaskReturn(r, Finished)))
    ensures Nears(h, HApply(cfg, h, SchedStep(TaskReturn(r, Finished))), r)
  {
  }

  lemma RetryIsEnabled(cfg: Config, h: HState, u: ThreadId)
    requires cfg.Valid() && HInv(cfg, h) && u in h.hpc && h.hpc[u].Left?
    ensures HEnabled(h, InvokeDone(u))
  {
    assert RetryOk(cfg, h, u);
    if h.hpc[u].outcome.Retry? {
      DelayBounds(cfg, h.retriesOf[TaskOf(h, u)] - 1);
    }
  }

  /** The task's Run returns after its command, or fails without one. */
  lemma NearingReturn(cfg: Config, f: FState, r: ThreadId, t: TaskId) returns (b: FAction)
    requires FInv(cfg, f) && Ending(f.h, r) && r in f.h.hpc && InInvoke(f.h.hpc[r]) && TaskOf(f.h, r) != t
    requires f.h.hpc[r].Invoking? && (f.h.hpc[r].phase.Commanding? ==> f.h.mu == Some(r))
    ensures Aside(cfg, f, b, t) && !Launches(b.a) && MovingThread(b.a) == Some(r) && Nears(f.h, FApply(cfg, f, b).h, r)
  {
    b := if f.h.hpc[r].phase.Commanding? then QuietReturn(cfg, f, r) else FailingReturn(r);
    assert HTyped(f.h) && cfg.Valid();
    if f.h.hpc[r].phase.Commanding? {
      RetriesAreBounded(cfg, f, r, TaskOf(f.h, r));
    }
    hide FInv, Aside, FApply, Nears;
    if f.h.hpc[r].phase.Commanding? {
      CommandNears(cfg, f, r, t);
    } else {
      FailureNears(cfg, f, r, t);
    }
  }

  /** The thread goes on outside of the task's Run. */
  lemma NearingLeave(cfg: Config, f: FState, r: ThreadId, t: TaskId) returns (b: FAction)
    requires FInv(cfg, f) && Ending(f.h, r) && r in f.h.hpc && InInvoke(f.h.hpc[r]) && TaskOf(f.h, r) != t
    requires f.h.hpc[r].Invoking? ==> f.h.hpc[r].phase.Commanding? && f.h.mu == None
    ensures Aside(cfg, f, b, t) && !Launches(b.a) && MovingThread(b.a) == Some(r) && Nears(f.h, FApply(cfg, f, b).h, r)
  {
    assert HTyped(f.h);
    if f.h.hpc[r].Left? {
      assert f.h.mu == None;
      RetryIsEnabled(cfg, f.h, r);
      hide FInv, HApply, FApply, Nears;
      b := Act(InvokeDone(r), QUIET);
      DoneNears(cfg, f.h, r);
    } else {
      hide FInv, HApply, FApply, Nears;
      b := Act(LeavingAction(f.h.hpc[r], r), QUIET);
      LeavingNears(cfg, f.h, r);
    }
    QuietAside(cfg, f, b.a, t);
  }

  /** A task that is running can go on. */
  lemma NearingStep(cfg: Config, f: FState, r: ThreadId, t: TaskId) returns (b: FAction)
    requires FInv(cfg, f) && Ending(f.h, r) && f.h.sched.threads[r].Running? && f.h.sched.threads[r].task != t
    ensures Aside(cfg, f, b, t) && !Launches(b.a) && MovingThread(b.a) == Some(r) && Nears(f.h, FApply(cfg, f, b).h, r)
  {
    if r in f.h.hpc {
      assert Linked(f.h, r);
      if f.h.hpc[r].Invoking? && (f.h.hpc[r].phase.Commanding? ==> f.h.mu == Some(r)) {
        b := NearingReturn(cfg, f, r, t);
      } else {
        b := NearingLeave(cfg, f, r, t);
      }
    } else {
      assert HTyped(f.h) && MuOk(f.h) && !f.h.sched.panicked;
      hide FInv, HApply;
      b := Act(SchedStep(TaskReturn(r, Finished)), QUIET);
      OthersTaskNears(cfg, f.h, r);
      QuietAside(cfg, f, b.a, t);
    }
  }

  /** A loop that is about to lock still is. */
  ghost predicate TopsStay(s: State, s': State) {
    forall l | l in s.threads && s.threads[l].LoopTop? :: l in s'.threads && s'.threads[l].LoopTop?
  }

  lemma TopsStand(cfg: Config, h: HState, a: HAction, r: ThreadId)
    requires HTyped(h) && HEnabled(h, a) && MovingThread(a) == Some(r) && Ending(h, r)
    ensures TopsStay(h.sched, HApply(cfg, h, a).sched)
  {
    hide HApply;
    forall l | l in h.sched.threads && h.sched.threads[l].LoopTop?
      ensures Stands(h.sched, HApply(cfg, h, a).sched, l)
    {
      OthersStand(cfg, h, a, l);
    }
  }

  ghost function Length(c: Core): nat {
    |c.byOrder| + |c.byTime|
  }

  /** The run of r has ended; a doomed one leaves the queues as they were. */
  ghost predicate Ended(h: HState, h': HState, r: ThreadId) {
    && h'.mu == None && h'.sched.core.taskActiveCount == h.sched.core.taskActiveCount - 1
    && h'.sched.core.slots == h.sched.core.slots && h'.sched.now == h.sched.now && TopsStay(h.sched, h'.sched)
    && (Doomed(h, r) ==> SameQueues(h.sched, h'.sched))
  }

  lemma FinishEnds(cfg: Config, h: HState, r: ThreadId)
    requires HTyped(h) && !h.sched.panicked && h.mu == None && Ending(h, r) && h.sched.threads[r].Returned?
    requires !Panics(h.sched, TaskFinish(r))
    ensures HEnabled(h, SchedStep(TaskFinish(r)))
    ensures Ended(h, HApply(cfg, h, SchedStep(TaskFinish(r))), r)
  {
    TopsStand(cfg, h, SchedStep(TaskFinish(r)), r);
  }

  lemma RunnersApart(h: HState, r: ThreadId, t: TaskId)
    requires BaseOk(h) && InQueue(h.sched.core, t) && Ending(h, r)
    ensures h.sched.threads[r].task != t && (h.sched.threads[r].Returned? ==> h.mu == None)
  {
    assert Owns(h.sched, r, h.sched.threads[r].task);
    assert InOnePlace(h.sched, t);
    assert r in h.hpc ==> Linked(h, r);
  }

  lemma FinishedEnds(cfg: Config, f: FState, r: ThreadId, t: TaskId) returns (b: FAction)
    requires FInv(cfg, f) && InQueue(f.h.sched.core, t) && Ending(f.h, r) && f.h.sched.threads[r].Returned?
    ensures Aside(cfg, f, b, t) && !Launches(b.a) && Ended(f.h, FApply(cfg, f, b).h, r)
  {
    assert HTyped(f.h) && TasksOk(f.h.sched);
    RunnersApart(f.h, r, t);
    hide FInv, FApply, Ended;
    NoPanic(f.h.sched, TaskFinish(r));
    b := Act(SchedStep(TaskFinish(r)), QUIET);
    FinishEnds(cfg, f.h, r);
    QuietAside(cfg, f, b.a, t);
  }

  lemma NearsThenEnds(h: HState, h1: HState, h': HState, r: ThreadId)
    requires Nears(h, h1, r) && TopsStay(h.sched, h1.sched) && Ended(h1, h', r)
    ensures Ended(h, h', r)
  {
    hide RunRank, Doomed;
  }

  /** A task that is running can end its run, whatever that takes. */
  lemma {:induction false} RunEnded(cfg: Config, f: FState, r: ThreadId, t: TaskId) returns (f': FState)
    requires Present(cfg, f, t) && InQueue(f.h.sched.core, t) && Ending(f.h, r)
    ensures Reaches(cfg, f, f', t) && InQueue(f'.h.sched.core, t) && Ended(f.h, f'.h, r)
    decreases RunRank(f.h, r), 1
  {
    assert BaseOk(f.h);
    RunnersApart(f.h, r, t);
    hide FInv, Leads, StageOf, FApply, HApply, RunRank, Ended, BaseOk, HTyped, Kept;
    if f.h.sched.threads[r].Returned? {
      var b := FinishedEnds(cfg, f, r, t);
      f' := FApply(cfg, f, b);
      AsideStaysPresent(cfg, f, b, t);
      AsideStaysInQueue(cfg, f, b, t);
      ReachesSelf(cfg, f', t);
      ReachesAfter(cfg, f, b, f', t);
    } else {
      f' := RunEndedByStep(cfg, f, r, t);
    }
  }

  lemma {:induction false} RunEndedByStep(cfg: Config, f: FState, r: ThreadId, t: TaskId) returns (f': FState)
    requires Present(cfg, f, t) && InQueue(f.h.sched.core, t) && Ending(f.h, r)
    requires f.h.sched.threads[r].Running? && f.h.sched.threads[r].task != t
    ensures Reaches(cfg, f, f', t) && InQueue(f'.h.sched.core, t) && Ended(f.h, f'.h, r)
    decreases RunRank(f.h, r), 0
  {
    var b := NearingStep(cfg, f, r, t);
    var f1 := FApply(cfg, f, b);
    hide FInv, Leads, StageOf, FApply, HApply, RunRank, Ended, HTyped, Kept;
    TopsStand(cfg, f.h, b.a, r);
    AsideStaysPresent(cfg, f, b, t);
    AsideStaysInQueue(cfg, f, b, t);
    AsideEffect(cfg, f, b, t);
    f' := RunEnded(cfg, f1, r, t);
    NearsThenEnds(f.h, f1.h, f'.h, r);
    ReachesAfter(cfg, f, b, f', t);
  }
}
