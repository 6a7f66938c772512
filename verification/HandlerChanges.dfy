/** Whether a reported change of a file is looked at: coalescing of changes with tasks in progress. */
module HandlerChanges {
  import opened Options
  import opened RetryStrategy
  import opened SchedulerCore
  import opened SchedulerProtocol
  import opened SchedulerSafety
  import opened SchedulerOrder
  import opened HandlerProtocol
  import opened HandlerSafety
  import opened HandlerStages
  import opened HandlerInvariants
  import opened HandlerRuns
  import opened HandlerFiles
  import opened HandlerProgress
  import opened HandlerLaunch
  import opened Files = HandlerTask

  // ---------- What lasts ----------

  lemma NameStep(cfg: Config, h: HState, a: HAction, t: TaskId)
    requires cfg.Valid() && HInv(cfg, h) && HEnabled(h, a) && t in h.names
    ensures var h' := HApply(cfg, h, a); t in h'.names && h'.names[t] == h.names[t] && h'.retriesOf[t] >= h.retriesOf[t]
  {
    NewTaskIsNew(h);
  }

  lemma GoneStays(cfg: Config, hs: seq<HState>, acts: seq<HAction>, i: nat, t: TaskId)
    requires cfg.Valid() && IsHRun(cfg, hs, acts) && i < |acts| && t in hs[i].names
    ensures t in hs[i + 1].names && hs[i + 1].names[t] == hs[i].names[t]
    ensures StageOf(hs[i], t) == Gone ==> StageOf(hs[i + 1], t) == Gone
  {
    HRunStep(cfg, hs, acts, i);
    NameStep(cfg, hs[i], acts[i], t);
    StageStep(cfg, hs[i], acts[i], t);
    StageBefore(hs[i], acts[i], t);
  }

  /** Names are for life, and a task that is gone stays gone. */
  lemma {:induction false} GoneForGood(cfg: Config, hs: seq<HState>, acts: seq<HAction>, i: nat, j: nat, t: TaskId)
    requires cfg.Valid() && IsHRun(cfg, hs, acts) && i <= j < |hs| && t in hs[i].names
    ensures t in hs[j].names && hs[j].names[t] == hs[i].names[t]
    ensures StageOf(hs[i], t) == Gone ==> StageOf(hs[j], t) == Gone
    decreases j
  {
    if i < j {
      GoneForGood(cfg, hs, acts, i, j - 1, t);
      GoneStays(cfg, hs, acts, j - 1, t);
    }
  }

  // ---------- After the lock was taken ----------

  /** The run in which t had asked for k retries is over, or holds the lock. */
  ghost predicate LockedOrOver(h: HState, u: ThreadId, t: TaskId, k: nat) {
    && t in h.names && t in h.retriesOf && k <= h.retriesOf[t]
    && (HoldsLock(h, u, t) || k < h.retriesOf[t] || StageOf(h, t) == Gone)
  }

  lemma LockKept(cfg: Config, h: HState, a: HAction, u: ThreadId, t: TaskId)
    requires cfg.Valid() && HTyped(h) && HEnabled(h, a) && t in h.names && HoldsLock(h, u, t)
    ensures HoldsLock(HApply(cfg, h, a), u, t) || (RunnerSteps(h, a, t) && (AsksRetry(cfg, h, a) || a.Delete?))
  {
    if MovingThread(a) != Some(u) {
      OthersStand(cfg, h, a, u);
    }
  }

  lemma LockedOrOverStep(cfg: Config, h: HState, a: HAction, u: ThreadId, t: TaskId, k: nat)
    requires cfg.Valid() && HInv(cfg, h) && HEnabled(h, a) && LockedOrOver(h, u, t, k)
    ensures LockedOrOver(HApply(cfg, h, a), u, t, k)
  {
    CountsChange(cfg, h, a, t);
    StageStep(cfg, h, a, t);
    StageBefore(h, a, t);
    if HoldsLock(h, u, t) {
      LockKept(cfg, h, a, u, t);
    }
  }

  lemma LockedOrOverInRun(cfg: Config, hs: seq<HState>, acts: seq<HAction>, i: nat, u: ThreadId, t: TaskId, k: nat)
    requires cfg.Valid() && IsHRun(cfg, hs, acts) && i < |acts| && LockedOrOver(hs[i], u, t, k)
    ensures LockedOrOver(hs[i + 1], u, t, k)
  {
    HRunStep(cfg, hs, acts, i);
    LockedOrOverStep(cfg, hs[i], acts[i], u, t, k);
  }

  lemma {:induction false} LockedOrOverLater(
      cfg: Config, hs: seq<HState>, acts: seq<HAction>, i: nat, j: nat, u: ThreadId, t: TaskId, k: nat)
    requires cfg.Valid() && IsHRun(cfg, hs, acts) && i <= j < |hs| && LockedOrOver(hs[i], u, t, k)
    ensures LockedOrOver(hs[j], u, t, k)
    decreases j
  {
    if i < j {
      LockedOrOverLater(cfg, hs, acts, i, j - 1, u, t, k);
      LockedOrOverInRun(cfg, hs, acts, j - 1, u, t, k);
    }
  }

  /** At the moment of a lock, every other task of the same name is gone. */
  lemma OthersAreGone(h: HState, u: ThreadId, t: TaskId, t': TaskId)
    requires BaseOk(h) && PendingOk(h) && HoldsLock(h, u, t)
    requires t in h.names && t' in h.names && h.names[t'] == h.names[t] && t' != t
    ensures StageOf(h, t') == Gone
  {
    assert Owns(h.sched, u, t);
    StageOfHeld(h, u, t);
    assert Pending(h, t) && !Pending(h, t');
  }

  /**
   * A change reported after a run took the lock is never left to that run: the task pending for it
   * afterwards was created after the lock was taken, or has asked for another run since.
   */
  lemma ChangeAfterLock(cfg: Config, hs: seq<HState>, acts: seq<HAction>, i: nat, j: nat, u: ThreadId, t: TaskId)
    requires cfg.Valid() && IsHRun(cfg, hs, acts) && i < j < |acts|
    requires HoldsLock(hs[i], u, t) && t in hs[i].names && t in hs[i].retriesOf
    requires acts[j].HandleEnter? && acts[j].th in hs[j].hpc && hs[j].hpc[acts[j].th] == HandleLock(hs[i].names[t])
    ensures hs[i].names[t] in hs[j + 1].pending && t in hs[j].retriesOf
    ensures var covering := hs[j + 1].pending[hs[i].names[t]];
      covering !in hs[i].names || (covering == t && hs[i].retriesOf[t] < hs[j].retriesOf[t])
  {
    HRunStep(cfg, hs, acts, j);
    LockedOrOverLater(cfg, hs, acts, i, j, u, t, hs[i].retriesOf[t]);
    var n := hs[i].names[t];
    NewTaskIsNew(hs[j]);
    var covering := hs[j + 1].pending[n];
    if covering in hs[i].names {
      HInvHolds(cfg, hs, acts, i);
      GoneForGood(cfg, hs, acts, i, j, covering);
      GoneForGood(cfg, hs, acts, i, j, t);
      assert !Creates(hs[j], acts[j]);
      assert Pending(hs[j], covering);
      if covering != t {
        OthersAreGone(hs[i], u, t, covering);
      }
    }
  }

  // ---------- Swallowed changes ----------

  /** t's run looks at the file: before its command, or after it and with the lock. */
  ghost predicate Looks(h: HState, a: HAction, t: TaskId)
    requires HTyped(h)
  {
    (a.FirstLook? || a.InvokeLock?) && RunnerSteps(h, a, t)
  }

  /** One of the steps acts from h is a look at t's file. */
  ghost predicate LooksWithin(cfg: Config, h: HState, acts: seq<HAction>, t: TaskId)
    decreases |acts|
  {
    && acts != [] && HTyped(h) && HEnabled(h, acts[0])
    && (Looks(h, acts[0], t) || LooksWithin(cfg, HApply(cfg, h, acts[0]), acts[1..], t))
  }

  /** Some continuation has a run of t look at the file. */
  ghost predicate CanLook(cfg: Config, h: HState, t: TaskId) {
    exists acts :: LooksWithin(cfg, h, acts, t)
  }

  /** t's run fails before it has looked at the file. */
  ghost predicate FailsEarly(h: HState, a: HAction, t: TaskId)
    requires HTyped(h)
  {
    a.InvokeReturn? && RunnerSteps(h, a, t) && h.hpc[a.th] == Invoking(Preparing)
  }

  predicate IsStopCall(a: HAction) {
    a.SchedStep? && a.a.StopCall?
  }

  /** A step without a look; if all is reliable, no failure before the look and no call of Stop either. */
  ghost predicate Unseeing(h: HState, a: HAction, t: TaskId, reliable: bool) {
    && HTyped(h) && HEnabled(h, a) && !Looks(h, a, t)
    && (reliable ==> !FailsEarly(h, a, t) && !IsStopCall(a))
  }

  /** The steps acts lead from h, without a look at t's file, to a state after which there is none either. */
  ghost predicate DropsUnseen(cfg: Config, h: HState, acts: seq<HAction>, t: TaskId, reliable: bool)
    decreases |acts|
  {
    if acts == [] then !CanLook(cfg, h, t)
    else Unseeing(h, acts[0], t, reliable) && DropsUnseen(cfg, HApply(cfg, h, acts[0]), acts[1..], t, reliable)
  }

  /** A change of t's file reported now can go by without any run of t ever looking at the file again. */
  ghost predicate CanBeSwallowed(cfg: Config, h: HState, t: TaskId, reliable: bool) {
    exists acts :: DropsUnseen(cfg, h, acts, t, reliable)
  }

  lemma SwallowedAfter(cfg: Config, h: HState, a: HAction, t: TaskId, reliable: bool)
    requires Unseeing(h, a, t, reliable) && CanBeSwallowed(cfg, HApply(cfg, h, a), t, reliable)
    ensures CanBeSwallowed(cfg, h, t, reliable)
  {
    hide CanLook;
    var acts :| DropsUnseen(cfg, HApply(cfg, h, a), acts, t, reliable);
    assert ([a] + acts)[1..] == acts;
    assert DropsUnseen(cfg, h, [a] + acts, t, reliable);
  }

  lemma LooksAfter(cfg: Config, h: HState, a: HAction, t: TaskId)
    requires HTyped(h) && HEnabled(h, a) && CanLook(cfg, HApply(cfg, h, a), t)
    ensures CanLook(cfg, h, t)
  {
    var acts :| LooksWithin(cfg, HApply(cfg, h, a), acts, t);
    assert ([a] + acts)[1..] == acts;
    assert LooksWithin(cfg, h, [a] + acts, t);
  }

  lemma LooksNow(cfg: Config, h: HState, a: HAction, t: TaskId)
    requires HTyped(h) && HEnabled(h, a) && Looks(h, a, t)
    ensures CanLook(cfg, h, t)
  {
    assert LooksWithin(cfg, h, [a], t);
  }

  // ---------- Along steps aside from the task ----------

  /** A state of the handler among some files: every command found one. */
  ghost function Among(h: HState): FState {
    FState(h, map[], map th | th in h.hpc :: Regular(0), map t | t in h.names :: [])
  }

  lemma AmongFiles(cfg: Config, h: HState, t: TaskId)
    requires cfg.Valid() && HInv(cfg, h) && t in h.names && StageOf(h, t) != Gone
    ensures Present(cfg, Among(h), t)
  {
    hide HInv, StageOf;
  }

  lemma AsideSteps(cfg: Config, f: FState, b: FAction, t: TaskId, reliable: bool)
    requires Aside(cfg, f, b, t)
    ensures Unseeing(f.h, b.a, t, reliable) && FApply(cfg, f, b).h == HApply(cfg, f.h, b.a)
  {
  }

  lemma {:induction false} LooksAfterPath(cfg: Config, f: FState, acts: seq<FAction>, f': FState, t: TaskId)
    requires Path(cfg, f, acts, f', t) && CanLook(cfg, f'.h, t)
    ensures CanLook(cfg, f.h, t)
    decreases |acts|
  {
    hide CanLook, FApply, HApply;
    if acts != [] {
      AsideSteps(cfg, f, acts[0], t, false);
      LooksAfterPath(cfg, FApply(cfg, f, acts[0]), acts[1..], f', t);
      LooksAfter(cfg, f.h, acts[0].a, t);
    }
  }

  lemma {:induction false} SwallowedAfterPath(
      cfg: Config, f: FState, acts: seq<FAction>, f': FState, t: TaskId, reliable: bool)
    requires Path(cfg, f, acts, f', t) && CanBeSwallowed(cfg, f'.h, t, reliable)
    ensures CanBeSwallowed(cfg, f.h, t, reliable)
    decreases |acts|
  {
    hide CanBeSwallowed, FApply, HApply;
    if acts != [] {
      AsideSteps(cfg, f, acts[0], t, reliable);
      SwallowedAfterPath(cfg, FApply(cfg, f, acts[0]), acts[1..], f', t, reliable);
      SwallowedAfter(cfg, f.h, acts[0].a, t, reliable);
    }
  }

  lemma LooksLater(cfg: Config, f: FState, f': FState, t: TaskId)
    requires Leads(cfg, f, f', t) && CanLook(cfg, f'.h, t)
    ensures CanLook(cfg, f.h, t)
  {
    hide CanLook, Path;
    var acts :| Path(cfg, f, acts, f', t);
    LooksAfterPath(cfg, f, acts, f', t);
  }

  lemma SwallowedLater(cfg: Config, f: FState, f': FState, t: TaskId, reliable: bool)
    requires Leads(cfg, f, f', t) && CanBeSwallowed(cfg, f'.h, t, reliable)
    ensures CanBeSwallowed(cfg, f.h, t, reliable)
  {
    hide CanBeSwallowed, Path;
    var acts :| Path(cfg, f, acts, f', t);
    SwallowedAfterPath(cfg, f, acts, f', t, reliable);
  }

  // ---------- Tasks that never look again ----------

  /** t is gone, or waits for a start that a stopped scheduler never gives it. */
  ghost predicate Past(h: HState, t: TaskId) {
    t in h.names && (StageOf(h, t) == Gone || (StageOf(h, t) == Waiting && h.sched.core.stopRequested))
  }

  lemma PastStep(cfg: Config, h: HState, a: HAction, t: TaskId)
    requires cfg.Valid() && HInv(cfg, h) && HEnabled(h, a) && Past(h, t)
    ensures !Looks(h, a, t) && Past(HApply(cfg, h, a), t)
  {
    NameStep(cfg, h, a, t);
    StageBefore(h, a, t);
    hide HApply;
    if StageOf(h, t) == Gone {
      StageStep(cfg, h, a, t);
    } else {
      StoppedStaysWaiting(cfg, h, a, t);
    }
  }

  lemma {:induction false} PastNeverLooksWithin(cfg: Config, h: HState, acts: seq<HAction>, t: TaskId)
    requires cfg.Valid() && HInv(cfg, h) && Past(h, t)
    ensures !LooksWithin(cfg, h, acts, t)
    decreases |acts|
  {
    assert HTyped(h);
    hide HInv, Past, HApply;
    if acts != [] && HEnabled(h, acts[0]) {
      PastStep(cfg, h, acts[0], t);
      HInvStep(cfg, h, acts[0]);
      PastNeverLooksWithin(cfg, HApply(cfg, h, acts[0]), acts[1..], t);
    }
  }

  lemma PastIsSwallowed(cfg: Config, h: HState, t: TaskId, reliable: bool)
    requires cfg.Valid() && HInv(cfg, h) && Past(h, t)
    ensures !CanLook(cfg, h, t) && CanBeSwallowed(cfg, h, t, reliable)
  {
    hide HInv, Past, LooksWithin;
    forall acts
      ensures !LooksWithin(cfg, h, acts, t)
    {
      PastNeverLooksWithin(cfg, h, acts, t);
    }
    assert DropsUnseen(cfg, h, [], t, reliable);
  }

  lemma PastInRun(cfg: Config, hs: seq<HState>, acts: seq<HAction>, i: nat, t: TaskId)
    requires cfg.Valid() && IsHRun(cfg, hs, acts) && i < |acts| && Past(hs[i], t)
    ensures HTyped(hs[i]) && !Looks(hs[i], acts[i], t) && Past(hs[i + 1], t)
  {
    HRunStep(cfg, hs, acts, i);
    hide StageOf, HApply;
    PastStep(cfg, hs[i], acts[i], t);
  }

  lemma {:induction false} PastForGood(cfg: Config, hs: seq<HState>, acts: seq<HAction>, i: nat, j: nat, t: TaskId)
    requires cfg.Valid() && IsHRun(cfg, hs, acts) && i <= j < |hs| && Past(hs[i], t)
    ensures Past(hs[j], t)
    decreases j
  {
    assert |hs| == |acts| + 1;
    hide Past, IsHRun;
    if i < j {
      PastForGood(cfg, hs, acts, i, j - 1, t);
      PastInRun(cfg, hs, acts, j - 1, t);
    }
  }

  /** Once the scheduler is stopped, no run ever looks at the file of a task that waits. */
  lemma StoppedNeverLooks(cfg: Config, hs: seq<HState>, acts: seq<HAction>, i: nat, j: nat, t: TaskId)
    requires cfg.Valid() && IsHRun(cfg, hs, acts) && i <= j < |acts| && t in hs[i].names
    requires StageOf(hs[i], t) == Waiting && hs[i].sched.core.stopRequested
    ensures HTyped(hs[j]) && !Looks(hs[j], acts[j], t)
  {
    PastForGood(cfg, hs, acts, i, j, t);
    PastInRun(cfg, hs, acts, j, t);
  }

  /** The scheduler is stopped, and no run of t has still to take its first look. */
  ghost predicate StartedLast(h: HState, t: TaskId) {
    t in h.names && h.sched.core.stopRequested && forall u :: !RunIs(h, u, t, Invoking(Preparing))
  }

  lemma NoneLaunched(cfg: Config, h: HState, a: HAction, u: ThreadId, t: TaskId)
    requires HTyped(h) && LinkOk(h) && HEnabled(h, a) && t in h.names && h.sched.core.stopRequested
    requires RunIs(HApply(cfg, h, a), u, t, Invoking(Preparing))
    ensures RunIs(h, u, t, Invoking(Preparing))
  {
    if RunnerSteps(h, a, t) {
      if a.th != u {
        OthersStand(cfg, h, a, u);
      }
    } else {
      RunBefore(cfg, h, a, u, t, Invoking(Preparing));
    }
  }

  lemma StartedLastStep(cfg: Config, h: HState, a: HAction, t: TaskId)
    requires cfg.Valid() && HInv(cfg, h) && HEnabled(h, a) && StartedLast(h, t)
    ensures !(a.FirstLook? && RunnerSteps(h, a, t)) && StartedLast(HApply(cfg, h, a), t)
  {
    NameStep(cfg, h, a, t);
    StopLasts(cfg, h, a);
    assert a.FirstLook? && RunnerSteps(h, a, t) ==> RunIs(h, a.th, t, Invoking(Preparing));
    assert HTyped(h) && LinkOk(h);
    hide HInv, HApply;
    forall u
      ensures !RunIs(HApply(cfg, h, a), u, t, Invoking(Preparing))
    {
      if RunIs(HApply(cfg, h, a), u, t, Invoking(Preparing)) {
        NoneLaunched(cfg, h, a, u, t);
      }
    }
  }

  lemma StartedLastInRun(cfg: Config, hs: seq<HState>, acts: seq<HAction>, i: nat, t: TaskId)
    requires cfg.Valid() && IsHRun(cfg, hs, acts) && i < |acts| && StartedLast(hs[i], t)
    ensures HTyped(hs[i]) && !(acts[i].FirstLook? && RunnerSteps(hs[i], acts[i], t)) && StartedLast(hs[i + 1], t)
  {
    HRunStep(cfg, hs, acts, i);
    hide HApply;
    StartedLastStep(cfg, hs[i], acts[i], t);
  }

  lemma {:induction false} StartedLastForGood(
      cfg: Config, hs: seq<HState>, acts: seq<HAction>, i: nat, j: nat, t: TaskId)
    requires cfg.Valid() && IsHRun(cfg, hs, acts) && i <= j < |hs| && StartedLast(hs[i], t)
    ensures StartedLast(hs[j], t)
    decreases j
  {
    assert |hs| == |acts| + 1;
    hide StartedLast, IsHRun;
    if i < j {
      StartedLastForGood(cfg, hs, acts, i, j - 1, t);
      StartedLastInRun(cfg, hs, acts, j - 1, t);
    }
  }

  /** Once the scheduler is stopped, a run that is past its first look is the task's last: no other follows. */
  lemma StoppedNeverStarts(cfg: Config, hs: seq<HState>, acts: seq<HAction>, i: nat, j: nat, t: TaskId)
    requires cfg.Valid() && IsHRun(cfg, hs, acts) && i <= j < |acts| && t in hs[i].names
    requires hs[i].sched.core.stopRequested && forall u :: !RunIs(hs[i], u, t, Invoking(Preparing))
    ensures HTyped(hs[j]) && !(acts[j].FirstLook? && RunnerSteps(hs[j], acts[j], t))
  {
    StartedLastForGood(cfg, hs, acts, i, j, t);
    StartedLastInRun(cfg, hs, acts, j, t);
  }

  // ---------- Tasks that will look ----------

  /** The run of thread u has still to look at the file. */
  ghost predicate Watches(h: HState, u: ThreadId, t: TaskId, reliable: bool) {
    || (RunIs(h, u, t, Invoking(Commanding)) && h.mu != Some(u))
    || (reliable && RunIs(h, u, t, Invoking(Preparing)))
  }

  /** t is in a run that has still to look, or waits for one that will. */
  ghost predicate Watchful(h: HState, t: TaskId, reliable: bool) {
    || (reliable && StageOf(h, t) == Waiting && !h.sched.core.stopRequested)
    || exists u :: Watches(h, u, t, reliable)
  }

  lemma WatchesStep(cfg: Config, h: HState, a: HAction, u: ThreadId, t: TaskId, reliable: bool)
    requires Unseeing(h, a, t, reliable) && t in h.names && Watches(h, u, t, reliable)
    ensures Watches(HApply(cfg, h, a), u, t, reliable)
  {
    if MovingThread(a) != Some(u) {
      OthersStand(cfg, h, a, u);
    }
  }

  lemma WaitingStaysWatchful(cfg: Config, h: HState, a: HAction, t: TaskId)
    requires BaseOk(h) && Unseeing(h, a, t, true) && t in h.names
    requires StageOf(h, t) == Waiting && !h.sched.core.stopRequested
    ensures Watchful(HApply(cfg, h, a), t, true)
  {
    hide HApply;
    FlagKept(cfg, h, a);
    StageStep(cfg, h, a, t);
    StageBefore(h, a, t);
    if a.SchedStep? && LaunchOf(a.a, t) {
      LaunchedPrepares(cfg, h, a, t);
      assert Watches(HApply(cfg, h, a), a.a.runner, t, true);
    }
  }

  lemma WatchfulStep(cfg: Config, h: HState, a: HAction, t: TaskId, reliable: bool)
    requires BaseOk(h) && Unseeing(h, a, t, reliable) && t in h.names && Watchful(h, t, reliable)
    ensures Watchful(HApply(cfg, h, a), t, reliable)
  {
    hide BaseOk, HApply, StageOf, Watches;
    if reliable && StageOf(h, t) == Waiting && !h.sched.core.stopRequested {
      WaitingStaysWatchful(cfg, h, a, t);
    } else {
      var u :| Watches(h, u, t, reliable);
      WatchesStep(cfg, h, a, u, t, reliable);
    }
  }

  lemma PreparingLooks(cfg: Config, h: HState, u: ThreadId, t: TaskId)
    requires HTyped(h) && RunIs(h, u, t, Invoking(Preparing))
    ensures CanLook(cfg, h, t)
  {
    LooksNow(cfg, h, FirstLook(u, true), t);
  }

  lemma CommandingLooks(cfg: Config, h: HState, u: ThreadId, t: TaskId)
    requires HTyped(h) && RunIs(h, u, t, Invoking(Commanding)) && h.mu == None
    ensures CanLook(cfg, h, t)
  {
    LooksNow(cfg, h, InvokeLock(u), t);
  }

  /** A task whose only run does not hold the mutex. */
  lemma RunWithoutLock(h: HState, u: ThreadId, t: TaskId, pc: HPc)
    requires BaseOk(h) && RunIs(h, u, t, pc) && (pc.Invoking? || pc.Finalizing?) && h.mu != Some(u)
    ensures !Locked(h, t) && StageOf(h, t) == Trying
  {
    assert Locked(h, t) ==> RunIs(h, h.mu.value, t, h.hpc[h.mu.value]);
    RunIsTried(h, u, t, pc);
  }

  /** A command that has ended is followed by a look once the mutex is free. */
  lemma UnlockedCommandLooks(cfg: Config, h: HState, u: ThreadId, t: TaskId)
    requires cfg.Valid() && HInv(cfg, h) && t in h.names && RunIs(h, u, t, Invoking(Commanding)) && h.mu != Some(u)
    ensures CanLook(cfg, h, t)
  {
    RunWithoutLock(h, u, t, Invoking(Commanding));
    hide HInv, StageOf, CanLook, Leads;
    AmongFiles(cfg, h, t);
    var f' := MutexFreed(cfg, Among(h), t);
    TypedAfter(cfg, f', t);
    CommandingLooks(cfg, f'.h, u, t);
    LooksLater(cfg, Among(h), f', t);
  }

  lemma WaitingLooks(cfg: Config, h: HState, t: TaskId)
    requires cfg.Valid() && HInv(cfg, h) && t in h.names && StageOf(h, t) == Waiting && !h.sched.core.stopRequested
    ensures CanLook(cfg, h, t)
  {
    hide HInv, StageOf, CanLook, Leads;
    AmongFiles(cfg, h, t);
    var f', u := WaitingStarts(cfg, Among(h), t);
    TypedAfter(cfg, f', t);
    PreparingLooks(cfg, f'.h, u, t);
    LooksLater(cfg, Among(h), f', t);
  }

  lemma WatchfulCanLook(cfg: Config, h: HState, t: TaskId, reliable: bool)
    requires cfg.Valid() && HInv(cfg, h) && t in h.names && Watchful(h, t, reliable)
    ensures CanLook(cfg, h, t)
  {
    assert HTyped(h);
    hide HInv, StageOf, CanLook;
    if reliable && StageOf(h, t) == Waiting && !h.sched.core.stopRequested {
      WaitingLooks(cfg, h, t);
    } else {
      var u :| Watches(h, u, t, reliable);
      if RunIs(h, u, t, Invoking(Commanding)) {
        UnlockedCommandLooks(cfg, h, u, t);
      } else {
        PreparingLooks(cfg, h, u, t);
      }
    }
  }

  lemma {:induction false} WatchfulNeverDrops(cfg: Config, h: HState, acts: seq<HAction>, t: TaskId, reliable: bool)
    requires cfg.Valid() && HInv(cfg, h) && t in h.names && Watchful(h, t, reliable)
    ensures !DropsUnseen(cfg, h, acts, t, reliable)
    decreases |acts|
  {
    assert BaseOk(h);
    hide HInv, BaseOk, Watchful, CanLook, HApply;
    if acts == [] {
      WatchfulCanLook(cfg, h, t, reliable);
    } else if Unseeing(h, acts[0], t, reliable) {
      HInvStep(cfg, h, acts[0]);
      WatchfulStep(cfg, h, acts[0], t, reliable);
      NameStep(cfg, h, acts[0], t);
      WatchfulNeverDrops(cfg, HApply(cfg, h, acts[0]), acts[1..], t, reliable);
    }
  }

  lemma WatchfulNeverSwallowed(cfg: Config, h: HState, t: TaskId, reliable: bool)
    requires cfg.Valid() && HInv(cfg, h) && t in h.names && Watchful(h, t, reliable)
    ensures !CanBeSwallowed(cfg, h, t, reliable)
  {
    hide HInv, Watchful, DropsUnseen;
    forall acts
      ensures !DropsUnseen(cfg, h, acts, t, reliable)
    {
      WatchfulNeverDrops(cfg, h, acts, t, reliable);
    }
  }

  // ---------- Tasks that may go without a look ----------

  lemma DeleteIsUnseeing(cfg: Config, h: HState, u: ThreadId, t: TaskId, reliable: bool)
    requires HTyped(h) && t in h.names && RunIs(h, u, t, Finalizing) && h.mu == None
    ensures Unseeing(h, Delete(u), t, reliable) && RunnerSteps(h, Delete(u), t)
    ensures HApply(cfg, h, Delete(u)).names == h.names
  {
  }

  lemma DropsOnDelete(cfg: Config, h: HState, u: ThreadId, t: TaskId, reliable: bool)
    requires cfg.Valid() && HInv(cfg, h) && t in h.names && RunIs(h, u, t, Finalizing) && h.mu == None
    ensures CanBeSwallowed(cfg, h, t, reliable)
  {
    assert BaseOk(h);
    hide HInv, CanBeSwallowed, HApply, StageOf;
    DeleteIsUnseeing(cfg, h, u, t, reliable);
    StageStep(cfg, h, Delete(u), t);
    HInvStep(cfg, h, Delete(u));
    PastIsSwallowed(cfg, HApply(cfg, h, Delete(u)), t, reliable);
    SwallowedAfter(cfg, h, Delete(u), t, reliable);
  }

  /** The permanent result is reported, but the deletion waits for the mutex. */
  lemma DropsFinalizing(cfg: Config, h: HState, u: ThreadId, t: TaskId, reliable: bool)
    requires cfg.Valid() && HInv(cfg, h) && t in h.names && RunIs(h, u, t, Finalizing) && h.mu != Some(u)
    ensures CanBeSwallowed(cfg, h, t, reliable)
  {
    RunWithoutLock(h, u, t, Finalizing);
    hide HInv, StageOf, CanBeSwallowed, Leads;
    AmongFiles(cfg, h, t);
    var f' := MutexFreed(cfg, Among(h), t);
    DropsOnDelete(cfg, f'.h, u, t, reliable);
    SwallowedLater(cfg, Among(h), f', t, reliable);
  }

  lemma FailureFinalizes(cfg: Config, h: HState, u: ThreadId, t: TaskId, reliable: bool)
    requires HTyped(h) && MuOk(h) && t in h.names
    requires RunIs(h, u, t, Invoking(Refused)) || (!reliable && RunIs(h, u, t, Invoking(Preparing)))
    ensures var a := InvokeReturn(u, PermanentFailure);
      && Unseeing(h, a, t, reliable)
      && var h' := HApply(cfg, h, a); t in h'.names && RunIs(h', u, t, Finalizing) && h'.mu != Some(u)
  {
  }

  /** A run that was refused, or may fail before its look, ends with a permanent failure. */
  lemma DropsOnReturn(cfg: Config, h: HState, u: ThreadId, t: TaskId, reliable: bool)
    requires cfg.Valid() && HInv(cfg, h) && t in h.names
    requires RunIs(h, u, t, Invoking(Refused)) || (!reliable && RunIs(h, u, t, Invoking(Preparing)))
    ensures CanBeSwallowed(cfg, h, t, reliable)
  {
    assert HTyped(h) && MuOk(h);
    hide HInv, CanBeSwallowed, HApply;
    var a := InvokeReturn(u, PermanentFailure);
    FailureFinalizes(cfg, h, u, t, reliable);
    HInvStep(cfg, h, a);
    DropsFinalizing(cfg, HApply(cfg, h, a), u, t, reliable);
    SwallowedAfter(cfg, h, a, t, reliable);
  }

  lemma DropsFromWaiting(cfg: Config, h: HState, t: TaskId)
    requires cfg.Valid() && HInv(cfg, h) && t in h.names && StageOf(h, t) == Waiting && !h.sched.core.stopRequested
    ensures CanBeSwallowed(cfg, h, t, false)
  {
    hide HInv, StageOf, CanBeSwallowed, Leads;
    AmongFiles(cfg, h, t);
    var f', u := WaitingStarts(cfg, Among(h), t);
    DropsOnReturn(cfg, f'.h, u, t, false);
    SwallowedLater(cfg, Among(h), f', t, false);
  }

  /** A task that is not watchful, and has not looked with the lock it holds, can go without a look. */
  lemma UnwatchfulDrops(cfg: Config, h: HState, t: TaskId, reliable: bool)
    requires cfg.Valid() && HInv(cfg, h) && t in h.names && !Watchful(h, t, reliable) && !Locked(h, t)
    ensures CanBeSwallowed(cfg, h, t, reliable)
  {
    assert BaseOk(h);
    hide HInv, CanBeSwallowed, StageOf;
    if Past(h, t) {
      PastIsSwallowed(cfg, h, t, reliable);
    } else if StageOf(h, t) == Waiting {
      DropsFromWaiting(cfg, h, t);
    } else {
      var u := TriedByRun(h, t);
      hide BaseOk;
      assert !Watches(h, u, t, reliable);
      if RunIs(h, u, t, Finalizing) {
        DropsFinalizing(cfg, h, u, t, reliable);
      } else {
        DropsOnReturn(cfg, h, u, t, reliable);
      }
    }
  }

  // ---------- The result ----------

  /** A change finds t pending: it is counted, and nothing else happens. */
  ghost predicate Coalesces(cfg: Config, h: HState, th: ThreadId, t: TaskId) {
    && cfg.Valid() && HInv(cfg, h) && HEnabled(h, HandleEnter(th))
    && h.hpc[th].name in h.pending && h.pending[h.hpc[th].name] == t
  }

  /** The state after the call has locked and found t. */
  function Entered(h: HState, th: ThreadId): HState {
    h.(mu := Some(th), hpc := h.hpc[th := HandleReport])
  }

  lemma CoalescedStep(cfg: Config, h: HState, th: ThreadId)
    requires HTyped(h) && HEnabled(h, HandleEnter(th)) && h.hpc[th].name in h.pending
    ensures HApply(cfg, h, HandleEnter(th)) == Entered(h, th)
  {
  }

  lemma CoalescedEnter(cfg: Config, h: HState, th: ThreadId, t: TaskId)
    requires Coalesces(cfg, h, th, t)
    ensures t in h.names && HInv(cfg, Entered(h, th)) && StageOf(Entered(h, th), t) == StageOf(h, t) != Gone
  {
    CoalescedStep(cfg, h, th);
    HInvStep(cfg, h, HandleEnter(th));
    StageStep(cfg, h, HandleEnter(th), t);
    assert Pending(h, t);
  }

  /** The thread of the call is in no run. */
  lemma CallerIsNoRunner(h: HState, th: ThreadId, t: TaskId)
    requires LinkOk(h) && th in h.hpc && h.hpc[th].HandleLock?
    ensures forall u, pc :: RunIs(Entered(h, th), u, t, pc) <==> RunIs(h, u, t, pc)
    ensures !Locked(Entered(h, th), t)
  {
    assert Linked(h, th);
  }

  lemma EnteredWatchful(h: HState, th: ThreadId, t: TaskId, reliable: bool)
    requires LinkOk(h) && th in h.hpc && h.hpc[th].HandleLock? && h.mu == None
    requires StageOf(Entered(h, th), t) == StageOf(h, t)
    ensures Watchful(Entered(h, th), t, reliable) <==> Watchful(h, t, reliable)
  {
    CallerIsNoRunner(h, th, t);
    assert Linked(h, th);
    hide LinkOk, StageOf;
    assert forall u :: Watches(Entered(h, th), u, t, reliable) <==> Watches(h, u, t, reliable);
  }

  lemma WatchfulEntered(cfg: Config, h: HState, th: ThreadId, t: TaskId, reliable: bool)
    requires Coalesces(cfg, h, th, t)
    ensures cfg.Valid() && !Locked(Entered(h, th), t)
    ensures Watchful(Entered(h, th), t, reliable) <==> Watchful(h, t, reliable)
  {
    assert LinkOk(h) && h.mu == None;
    hide HInv, StageOf, Watchful;
    CoalescedEnter(cfg, h, th, t);
    EnteredWatchful(h, th, t, reliable);
    CallerIsNoRunner(h, th, t);
  }

  /** A change that finds its name pending can go by unseen exactly if its task is not watchful. */
  lemma SwallowedUnlessWatchful(cfg: Config, h: HState, th: ThreadId, t: TaskId, reliable: bool)
    requires Coalesces(cfg, h, th, t)
    ensures CanBeSwallowed(cfg, Entered(h, th), t, reliable) <==> !Watchful(h, t, reliable)
  {
    hide Coalesces, HInv, CanBeSwallowed, StageOf, Watchful;
    WatchfulEntered(cfg, h, th, t, reliable);
    CoalescedEnter(cfg, h, th, t);
    if Watchful(h, t, reliable) {
      WatchfulNeverSwallowed(cfg, Entered(h, th), t, reliable);
    } else {
      UnwatchfulDrops(cfg, Entered(h, th), t, reliable);
    }
  }

  lemma WatchfulIff(h: HState, t: TaskId)
    requires h.mu == None
    ensures Watchful(h, t, false) <==> exists u :: RunIs(h, u, t, Invoking(Commanding))
  {
    assert forall u :: RunIs(h, u, t, Invoking(Commanding)) <==> Watches(h, u, t, false);
  }

  /** t's run found no regular file, or already has a permanent result; or t waits for a stopped scheduler. */
  ghost predicate Heedless(h: HState, t: TaskId) {
    || (exists u :: RunIs(h, u, t, Invoking(Refused)) || RunIs(h, u, t, Finalizing))
    || (StageOf(h, t) == Waiting && h.sched.core.stopRequested)
  }

  lemma WatchfulWhenReliable(h: HState, t: TaskId)
    requires BaseOk(h) && t in h.names && StageOf(h, t) != Gone && h.mu == None
    ensures Watchful(h, t, true) <==> !Heedless(h, t)
  {
    if StageOf(h, t) == Trying {
      var u := TriedByRun(h, t);
      RunIsTried(h, u, t, h.hpc[u]);
      hide BaseOk, StageOf;
      assert forall v | Watches(h, v, t, true) :: RunIs(h, v, t, h.hpc[v]);
      assert Watches(h, u, t, true) <==> RunIs(h, u, t, Invoking(Commanding)) || RunIs(h, u, t, Invoking(Preparing));
    } else {
      forall u, pc | RunIs(h, u, t, pc)
        ensures !pc.Invoking? && !pc.Finalizing?
      {
        if pc.Invoking? || pc.Finalizing? {
          RunIsTried(h, u, t, pc);
        }
      }
      hide BaseOk, StageOf;
      assert forall u :: !Watches(h, u, t, true);
    }
  }

  /** The result in a state that satisfies the invariants. */
  lemma SwallowedIffHere(cfg: Config, h: HState, th: ThreadId, t: TaskId)
    requires Coalesces(cfg, h, th, t)
    ensures CanBeSwallowed(cfg, Entered(h, th), t, false) <==> forall u :: !RunIs(h, u, t, Invoking(Commanding))
    ensures CanBeSwallowed(cfg, Entered(h, th), t, true) <==> Heedless(h, t)
  {
    assert BaseOk(h) && h.mu == None;
    hide HInv, BaseOk, CanBeSwallowed, Watchful, Heedless, StageOf;
    CoalescedEnter(cfg, h, th, t);
    SwallowedUnlessWatchful(cfg, h, th, t, false);
    WatchfulIff(h, t);
    SwallowedUnlessWatchful(cfg, h, th, t, true);
    WatchfulWhenReliable(h, t);
  }

  /** A call of handle can lock, and finds the task t pending for the name of the change it reports. */
  ghost predicate FindsPending(h: HState, th: ThreadId, t: TaskId) {
    && HTyped(h) && HEnabled(h, HandleEnter(th))
    && h.hpc[th].name in h.pending && h.pending[h.hpc[th].name] == t
  }

  /**
   * Not every change is looked at. In every reachable state a change that finds its name pending goes by
   * unseen in some continuation, that is, no run of the task ever looks at the file again, unless the
   * task's command is being run: a run may fail for good before it looks at the file, however late the
   * task is started, and a stopped scheduler does not start it at all.
   */
  lemma SwallowedIff(cfg: Config, hs: seq<HState>, acts: seq<HAction>, i: nat, th: ThreadId, t: TaskId)
    requires cfg.Valid() && IsHRun(cfg, hs, acts) && i < |hs| && FindsPending(hs[i], th, t)
    ensures CanBeSwallowed(cfg, Entered(hs[i], th), t, false) <==>
      forall u :: !RunIs(hs[i], u, t, Invoking(Commanding))
  {
    hide HInv, StageOf, CanBeSwallowed;
    HInvHolds(cfg, hs, acts, i);
    SwallowedIffHere(cfg, hs[i], th, t);
  }

  /**
   * As long as no run fails before it has looked at the file and Stop is not called, a change goes by
   * unseen exactly if the run has found no regular file, or already has a permanent result but not yet
   * the lock, or the task waits and Stop was called already.
   */
  lemma SwallowedByReliableIff(cfg: Config, hs: seq<HState>, acts: seq<HAction>, i: nat, th: ThreadId, t: TaskId)
    requires cfg.Valid() && IsHRun(cfg, hs, acts) && i < |hs| && FindsPending(hs[i], th, t)
    ensures CanBeSwallowed(cfg, Entered(hs[i], th), t, true) <==>
      || (exists u :: RunIs(hs[i], u, t, Invoking(Refused)) || RunIs(hs[i], u, t, Finalizing))
      || (StageOf(hs[i], t) == Waiting && hs[i].sched.core.stopRequested)
  {
    hide HInv, StageOf, CanBeSwallowed;
    HInvHolds(cfg, hs, acts, i);
    SwallowedIffHere(cfg, hs[i], th, t);
  }
}
