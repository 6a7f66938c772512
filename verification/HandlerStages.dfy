/** The stages of a handler's task between its creation and its removal from the pending map. */
module HandlerStages {
  import opened Options
  import opened RetryStrategy
  import opened SchedulerCore
  import opened SchedulerProtocol
  import opened SchedulerSafety
  import opened SchedulerOrder
  import opened SequenceNumbers
  import opened HandlerProtocol
  import opened HandlerSafety

  /** Waiting: before a run, also if the last one asked for a retry. Trying: in a run. Gone: no longer pending. */
  datatype Stage = Waiting | Trying | Gone

  function OutcomeStage(outcome: Outcome): Stage {
    if outcome.Finished? then Gone else Waiting
  }

  function PcStage(pc: HPc): Stage {
    match pc
    case Invoking(_) => Trying
    case Finalizing => Trying
    case Leaving(outcome) => OutcomeStage(outcome)
    case Left(outcome) => OutcomeStage(outcome)
    case _ => Waiting
  }

  /** The stage of the task that thread th holds. */
  ghost function StageAt(h: HState, th: ThreadId): Stage
    requires th in h.sched.threads
  {
    if h.sched.threads[th].Returned? then (if h.sched.threads[th].finished then Gone else Waiting)
    else if h.sched.threads[th].Running? && th in h.hpc then PcStage(h.hpc[th])
    else Waiting
  }

  ghost function StageOf(h: HState, t: TaskId): Stage {
    if t in h.sched.finished then Gone
    else if Held(h.sched, t) then
      var th :| Owns(h.sched, th, t); StageAt(h, th)
    else Waiting
  }

  lemma StageOfHeld(h: HState, th: ThreadId, t: TaskId)
    requires TasksOk(h.sched) && Owns(h.sched, th, t)
    ensures StageOf(h, t) == StageAt(h, th) && t in h.sched.core.tasks && t !in h.sched.finished
  {
    assert InOnePlace(h.sched, t);
  }

  /** The step is taken by the thread that runs t in the handler. */
  ghost predicate RunnerSteps(h: HState, a: HAction, t: TaskId)
    requires HTyped(h)
  {
    !a.SchedStep? && a.th in h.hpc && InInvoke(h.hpc[a.th]) && TaskOf(h, a.th) == t
  }

  ghost function StageAfter(cfg: Config, h: HState, a: HAction, t: TaskId): Stage
    requires HTyped(h) && HEnabled(h, a)
  {
    if a.SchedStep? && LaunchOf(a.a, t) then Trying
    else if RunnerSteps(h, a, t) && AsksRetry(cfg, h, a) then Waiting
    else if RunnerSteps(h, a, t) && a.Delete? then Gone
    else StageOf(h, t)
  }

  lemma LaunchedWaited(h: HState, a: HAction, t: TaskId)
    requires BaseOk(h) && HEnabled(h, a) && a.SchedStep? && LaunchOf(a.a, t)
    ensures StageOf(h, t) == Waiting && !Held(h.sched, t)
  {
    assert InOnePlace(h.sched, t);
  }

  /** Steps of a task's Run and the deletion that may follow it. */
  predicate InTry(a: HAction) {
    a.FirstLook? || a.InvokeReturn? || a.InvokeLock? || a.Delete?
  }

  lemma RunnerTries(h: HState, a: HAction, t: TaskId)
    requires BaseOk(h) && HEnabled(h, a) && RunnerSteps(h, a, t) && InTry(a)
    ensures StageOf(h, t) == Trying
  {
    assert Owns(h.sched, a.th, t);
    StageOfHeld(h, a.th, t);
  }

  /** A launched task waited; a task whose run returns was in a run. */
  lemma StageBefore(h: HState, a: HAction, t: TaskId)
    requires BaseOk(h) && HEnabled(h, a)
    ensures a.SchedStep? && LaunchOf(a.a, t) ==> StageOf(h, t) == Waiting && !Held(h.sched, t)
    ensures RunnerSteps(h, a, t) && InTry(a) ==> StageOf(h, t) == Trying
  {
    hide StageOf;
    if a.SchedStep? && LaunchOf(a.a, t) {
      LaunchedWaited(h, a, t);
    } else if RunnerSteps(h, a, t) && InTry(a) {
      RunnerTries(h, a, t);
    }
  }

  lemma StageWithStandingOwner(cfg: Config, h: HState, a: HAction, t: TaskId, th: ThreadId)
    requires BaseOk(h) && HEnabled(h, a) && BaseOk(HApply(cfg, h, a))
    requires Owns(h.sched, th, t) && MovingThread(a) != Some(th)
    ensures StageOf(HApply(cfg, h, a), t) == StageAfter(cfg, h, a, t)
  {
    OthersStand(cfg, h, a, th);
    SameStage(h, HApply(cfg, h, a), th, t);
    NotTheOwner(h, a, th, t);
  }

  lemma SameStage(h: HState, h': HState, th: ThreadId, t: TaskId)
    requires TasksOk(h.sched) && TasksOk(h'.sched) && Owns(h.sched, th, t) && HStands(h, h', th)
    ensures StageOf(h', t) == StageOf(h, t)
  {
    assert Owns(h'.sched, th, t);
    StageOfHeld(h, th, t);
    StageOfHeld(h', th, t);
  }

  lemma NotTheOwner(h: HState, a: HAction, th: ThreadId, t: TaskId)
    requires BaseOk(h) && HEnabled(h, a) && Owns(h.sched, th, t) && MovingThread(a) != Some(th)
    ensures !RunnerSteps(h, a, t) && !(a.SchedStep? && LaunchOf(a.a, t))
  {
    StageBefore(h, a, t);
    assert RunnerSteps(h, a, t) ==> Owns(h.sched, a.th, t);
  }

  lemma StageWithoutOwner(cfg: Config, h: HState, a: HAction, t: TaskId)
    requires BaseOk(h) && HEnabled(h, a) && BaseOk(HApply(cfg, h, a))
    requires t in h.names && !Held(h.sched, t)
    ensures StageOf(HApply(cfg, h, a), t) == StageAfter(cfg, h, a, t)
  {
    assert RunnerSteps(h, a, t) ==> Owns(h.sched, a.th, t);
    if a.SchedStep? && LaunchOf(a.a, t) {
      StageOnLaunch(cfg, h, a, t);
    } else {
      StaysUnowned(h, a, t);
      UnownedStage(h, HApply(cfg, h, a), t);
    }
  }

  lemma StageOnLaunch(cfg: Config, h: HState, a: HAction, t: TaskId)
    requires BaseOk(h) && HEnabled(h, a) && BaseOk(HApply(cfg, h, a))
    requires t in h.names && a.SchedStep? && LaunchOf(a.a, t)
    ensures StageOf(HApply(cfg, h, a), t) == Trying
  {
    SchedKept(h, a);
    assert Owns(HApply(cfg, h, a).sched, a.a.runner, t);
    StageOfHeld(HApply(cfg, h, a), a.a.runner, t);
  }

  lemma UnownedStage(h: HState, h': HState, t: TaskId)
    requires !Held(h.sched, t) && !Held(h'.sched, t) && (t in h'.sched.finished <==> t in h.sched.finished)
    ensures StageOf(h', t) == StageOf(h, t)
  {
  }

  lemma StaysUnowned(h: HState, a: HAction, t: TaskId)
    requires BaseOk(h) && HEnabled(h, a) && t in h.names && !Held(h.sched, t)
    requires !(a.SchedStep? && LaunchOf(a.a, t))
    ensures !Held(NextSched(h, a), t) && (t in NextSched(h, a).finished <==> t in h.sched.finished)
  {
    NewTaskIsNew(h);
    if SchedAction(h, a).Some? {
      var sa := SchedAction(h, a).value;
      SchedStaysUnowned(h.sched, sa, t);
    }
  }

  lemma SchedStaysUnowned(s: State, a: Action, t: TaskId)
    requires Typed(s) && Enabled(s, a) && !Held(s, t) && !LaunchOf(a, t) && t != NextTicket(s.counter)
    ensures !Held(Apply(s, a), t) && (t in Apply(s, a).finished <==> t in s.finished)
  {
    var s' := Apply(s, a);
    assert a.TaskFinish? ==> !Owns(s, a.th, t);
    forall th
      ensures !Owns(s', th, t)
    {
      assert !Owns(s, th, t);
    }
  }

  /** A thread that holds a task and moves in the scheduler passes it on to a queue or is done with it. */
  lemma OwnerInScheduler(s: State, a: Action, th: ThreadId, t: TaskId)
    requires TasksOk(s) && Enabled(s, a) && !Panics(s, a) && !a.Tick? && Mover(a) == th && Owns(s, th, t)
    ensures a.AddEnqueue? || a.TaskFinish? || a.TaskReturn?
    ensures a.AddEnqueue? || a.TaskFinish? ==> !Held(Apply(s, a), t)
    ensures t in Apply(s, a).finished <==> a.TaskFinish? && s.threads[th].finished
  {
    assert InOnePlace(s, t);
    forall u | a.AddEnqueue? || a.TaskFinish?
      ensures !Owns(Apply(s, a), u, t)
    {
      assert u != th ==> !Owns(s, u, t);
    }
  }

  /** A thread in the handler's code that moves with its task. */
  lemma RunnerMoves(cfg: Config, h: HState, a: HAction, t: TaskId)
    requires BaseOk(h) && HEnabled(h, a) && BaseOk(HApply(cfg, h, a))
    requires t in h.names && !a.SchedStep? && Owns(h.sched, a.th, t)
    ensures StageOf(HApply(cfg, h, a), t) == StageAfter(cfg, h, a, t)
  {
    StageOfHeld(h, a.th, t);
    RunnerKeepsTask(cfg, h, a, t);
    StageOfHeld(HApply(cfg, h, a), a.th, t);
  }

  lemma RunnerKeepsTask(cfg: Config, h: HState, a: HAction, t: TaskId)
    requires HTyped(h) && LinkOk(h) && HEnabled(h, a)
    requires t in h.names && !a.SchedStep? && Owns(h.sched, a.th, t)
    ensures Owns(HApply(cfg, h, a).sched, a.th, t)
    ensures RunnerSteps(h, a, t)
    ensures StageAt(HApply(cfg, h, a), a.th) ==
      if AsksRetry(cfg, h, a) then Waiting else if a.Delete? then Gone else StageAt(h, a.th)
  {
    assert a.th in h.hpc ==> Linked(h, a.th);
  }

  lemma StageWithMovingOwner(cfg: Config, h: HState, a: HAction, t: TaskId, th: ThreadId)
    requires BaseOk(h) && HEnabled(h, a) && BaseOk(HApply(cfg, h, a))
    requires t in h.names && Owns(h.sched, th, t) && MovingThread(a) == Some(th)
    ensures StageOf(HApply(cfg, h, a), t) == StageAfter(cfg, h, a, t)
  {
    StageOfHeld(h, th, t);
    if a.SchedStep? {
      SchedKept(h, a);
      OwnerInScheduler(h.sched, a.a, th, t);
      var h' := HApply(cfg, h, a);
      assert InOnePlace(h'.sched, t);
      if a.a.AddEnqueue? || a.a.TaskFinish? {
        assert !Held(h'.sched, t) || t in h'.sched.finished;
      }
    } else {
      RunnerMoves(cfg, h, a, t);
    }
  }

  /** How a step changes the stage of every task. */
  lemma StageStep(cfg: Config, h: HState, a: HAction, t: TaskId)
    requires BaseOk(h) && HEnabled(h, a) && t in h.names
    ensures BaseOk(HApply(cfg, h, a)) && StageOf(HApply(cfg, h, a), t) == StageAfter(cfg, h, a, t)
  {
    BaseStep(cfg, h, a);
    if Held(h.sched, t) {
      var th: ThreadId :| Owns(h.sched, th, t);
      if MovingThread(a) == Some(th) {
        StageWithMovingOwner(cfg, h, a, t, th);
      } else {
        StageWithStandingOwner(cfg, h, a, t, th);
      }
    } else {
      StageWithoutOwner(cfg, h, a, t);
    }
  }

  /** A new task waits. */
  lemma StageOfNew(cfg: Config, h: HState, a: HAction)
    requires BaseOk(h) && HEnabled(h, a) && Creates(h, a)
    ensures BaseOk(HApply(cfg, h, a)) && StageOf(HApply(cfg, h, a), NextTicket(h.sched.counter)) == Waiting
    ensures NextTicket(h.sched.counter) !in h.names
  {
    var h' := HApply(cfg, h, a);
    BaseStep(cfg, h, a);
    SchedKept(h, a);
    NewTaskIsNew(h);
    assert Owns(h'.sched, a.th, NextTicket(h.sched.counter));
    StageOfHeld(h', a.th, NextTicket(h.sched.counter));
  }

  // ---------- Runs ----------

  /** Thread u is in a run of t that has got as far as pc. */
  ghost predicate RunIs(h: HState, u: ThreadId, t: TaskId, pc: HPc) {
    u in h.sched.threads && h.sched.threads[u] == Running(t) && u in h.hpc && h.hpc[u] == pc
  }

  /** Thread u is in a run of t and holds the handler's mutex. */
  ghost predicate HoldsLock(h: HState, u: ThreadId, t: TaskId) {
    && h.mu == Some(u) && u in h.hpc && (h.hpc[u].Invoking? || h.hpc[u].Finalizing?)
    && u in h.sched.threads && h.sched.threads[u] == Running(t)
  }

  /** A task that is being tried is with a thread in its Run. */
  lemma TriedByRun(h: HState, t: TaskId) returns (u: ThreadId)
    requires BaseOk(h) && t in h.names && StageOf(h, t) == Trying
    ensures
      || RunIs(h, u, t, Invoking(Preparing)) || RunIs(h, u, t, Invoking(Refused))
      || RunIs(h, u, t, Invoking(Commanding)) || RunIs(h, u, t, Finalizing)
  {
    u :| Owns(h.sched, u, t);
    StageOfHeld(h, u, t);
    assert h.hpc[u].Invoking? ==> h.hpc[u].phase.Preparing? || h.hpc[u].phase.Refused? || h.hpc[u].phase.Commanding?;
  }

  /** Its run is the only one. */
  lemma RunIsTried(h: HState, u: ThreadId, t: TaskId, pc: HPc)
    requires BaseOk(h) && RunIs(h, u, t, pc) && (pc.Invoking? || pc.Finalizing?)
    ensures StageOf(h, t) == Trying
    ensures forall v, pc' | RunIs(h, v, t, pc') :: v == u && pc' == pc
  {
    assert Owns(h.sched, u, t);
    StageOfHeld(h, u, t);
    assert forall v, pc' | RunIs(h, v, t, pc') :: Owns(h.sched, v, t);
  }

  /** A run there is after another thread's step was there before, or has just been launched. */
  lemma RunBefore(cfg: Config, h: HState, a: HAction, u: ThreadId, t: TaskId, pc: HPc)
    requires HTyped(h) && LinkOk(h) && HEnabled(h, a) && t in h.names && !RunnerSteps(h, a, t)
    requires RunIs(HApply(cfg, h, a), u, t, pc)
    ensures RunIs(h, u, t, pc) || (a.SchedStep? && LaunchOf(a.a, t) && a.a.runner == u && pc == Invoking(Preparing))
  {
    if MovingThread(a) != Some(u) {
      OthersStand(cfg, h, a, u);
    }
  }

  /** A run stays as it is through another thread's step. */
  lemma RunStands(cfg: Config, h: HState, a: HAction, u: ThreadId, t: TaskId, pc: HPc)
    requires HTyped(h) && HEnabled(h, a) && t in h.names && !RunnerSteps(h, a, t) && RunIs(h, u, t, pc) && InInvoke(pc)
    ensures RunIs(HApply(cfg, h, a), u, t, pc)
  {
    if MovingThread(a) != Some(u) {
      OthersStand(cfg, h, a, u);
    }
  }
}
