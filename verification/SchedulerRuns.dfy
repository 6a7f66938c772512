/** What holds over every run of the scheduler. */
module SchedulerRuns {
  import opened SchedulerCore
  import opened SchedulerProtocol
  import opened SchedulerSafety

  ghost predicate Inv(s: State) {
    TasksOk(s) && ControlOk(s) && WakeOk(s)
  }

  ghost predicate Steps(s: State, a: Action, s': State) {
    Typed(s) && Enabled(s, a) && s' == Apply(s, a)
  }

  ghost predicate StepAt(ss: seq<State>, acts: seq<Action>, i: nat)
    requires |ss| == |acts| + 1 && i < |acts|
  {
    Steps(ss[i], acts[i], ss[i + 1])
  }

  /** A run: states ss[0], ss[1], ... with acts[i] leading from ss[i] to ss[i + 1]. */
  ghost predicate IsRun(ss: seq<State>, acts: seq<Action>) {
    |ss| == |acts| + 1 && Init(ss[0]) && forall i | 0 <= i < |acts| :: StepAt(ss, acts, i)
  }

  lemma InvInit(s: State)
    requires Init(s)
    ensures Inv(s)
  {
  }

  lemma InvStep(s: State, a: Action)
    requires Inv(s) && Enabled(s, a)
    ensures Inv(Apply(s, a))
  {
    TasksStep(s, a);
    ControlStep(s, a);
    WakeStep(s, a);
  }

  lemma {:induction false} InvHolds(ss: seq<State>, acts: seq<Action>, i: nat)
    requires IsRun(ss, acts) && i < |ss|
    ensures Inv(ss[i])
    decreases i
  {
    if i == 0 {
      InvInit(ss[0]);
    } else {
      InvHolds(ss, acts, i - 1);
      assert StepAt(ss, acts, i - 1);
      InvStep(ss[i - 1], acts[i - 1]);
    }
  }

  lemma RunStep(ss: seq<State>, acts: seq<Action>, i: nat)
    requires IsRun(ss, acts) && i < |acts|
    ensures Inv(ss[i]) && Enabled(ss[i], acts[i]) && !Panics(ss[i], acts[i]) && ss[i + 1] == Apply(ss[i], acts[i])
  {
    InvHolds(ss, acts, i);
    assert StepAt(ss, acts, i);
    NoPanic(ss[i], acts[i]);
  }

  /**
   * Task conservation: in every reachable state every task is in exactly one place, the active count
   * is the number of threads running a task, no task is run or added by two threads, item pointers
   * are set exactly for queued and abandoned tasks, and neither panic of enqueue has happened.
   */
  lemma TaskConservation(ss: seq<State>, acts: seq<Action>, i: nat)
    requires IsRun(ss, acts) && i < |ss|
    ensures !ss[i].panicked
    ensures ss[i].core.taskActiveCount == |Runners(ss[i])|
    ensures forall a, b, t | Owns(ss[i], a, t) && Owns(ss[i], b, t) :: a == b
    ensures forall t | t in ss[i].core.tasks ::
      var s := ss[i];
      && One(t in s.core.byOrder) + One(t in s.core.byTime) + One(Held(s, t)) + One(t in s.finished)
        + One(t in s.abandoned) == 1
      && (s.core.tasks[t].seqItem || s.core.tasks[t].timeItem <==>
        t in s.core.byOrder || t in s.core.byTime || t in s.abandoned)
  {
    InvHolds(ss, acts, i);
    assert forall t | t in ss[i].core.tasks :: InOnePlace(ss[i], t) && RecordOk(ss[i], t);
  }

  /**
   * No lost wakeup: in every reachable state in which the loop waits with no token and no thread about
   * to set one, it has nothing to do before its timer fires.
   */
  lemma NoLostWakeup(ss: seq<State>, acts: seq<Action>, i: nat, th: ThreadId)
    requires IsRun(ss, acts) && i < |ss|
    requires th in ss[i].threads && ss[i].threads[th].LoopWait?
    requires !ss[i].loopNotification && !NotifyPending(ss[i])
    ensures ss[i].core.Known() && MaySleep(ss[i], ss[i].threads[th].timer)
  {
    InvHolds(ss, acts, i);
  }

  /** A waiting loop that ought to stop or could launch a task is notified, about to be, or timed out. */
  lemma LoopIsWoken(ss: seq<State>, acts: seq<Action>, i: nat, th: ThreadId, d: Decision)
    requires IsRun(ss, acts) && i < |ss|
    requires th in ss[i].threads && ss[i].threads[th].LoopWait?
    requires Typed(ss[i]) && Decides(ss[i].core, ss[i].now, d) && !d.Sleep?
    ensures NotifyPending(ss[i]) || Enabled(ss[i], LoopNotified(th)) || Enabled(ss[i], LoopTimer(th))
  {
    InvHolds(ss, acts, i);
    var s := ss[i];
    if !s.loopNotification && !NotifyPending(s) {
      NoLostWakeup(ss, acts, i, th);
      var t :| t in s.core.byTime && s.core.Due(t) <= s.now;
    }
  }

  // ---------- Events ----------

  /** The scheduler's three events. */
  datatype Signal = LoopNotification | LoopFinished | TaskFinished

  function Token(s: State, e: Signal): bool {
    match e
    case LoopNotification => s.loopNotification
    case LoopFinished => s.loopFinished
    case TaskFinished => s.taskFinished
  }

  /** The step may set the event. */
  predicate MaySet(a: Action, e: Signal) {
    match e
    case LoopNotification => a.SetNotification? || a.TaskFinish?
    case LoopFinished => a.SetLoopFinished?
    case TaskFinished => a.SetTaskFinished?
  }

  /** The step is a wakeup by the event. */
  predicate WakesBy(a: Action, e: Signal) {
    match e
    case LoopNotification => a.LoopNotified?
    case LoopFinished => a.WaiterWoken? && a.event.LoopEvent?
    case TaskFinished => a.WaiterWoken? && a.event.TaskEvent?
  }

  function CountSets(acts: seq<Action>, n: nat, e: Signal): int
    requires n <= |acts|
  {
    if n == 0 then 0 else CountSets(acts, n - 1, e) + One(MaySet(acts[n - 1], e))
  }

  function CountWakeups(acts: seq<Action>, n: nat, e: Signal): int
    requires n <= |acts|
  {
    if n == 0 then 0 else CountWakeups(acts, n - 1, e) + One(WakesBy(acts[n - 1], e))
  }

  lemma TokenStep(s: State, a: Action, e: Signal)
    requires Typed(s) && Enabled(s, a) && !Panics(s, a)
    ensures One(WakesBy(a, e)) + One(Token(Apply(s, a), e)) <= One(Token(s, e)) + One(MaySet(a, e))
  {
  }

  /** Every wakeup by an event takes a token that was set for it: there are never more wakeups than calls of Set. */
  lemma {:induction false} WakeupsAreSignalled(ss: seq<State>, acts: seq<Action>, i: nat, e: Signal)
    requires IsRun(ss, acts) && i < |ss|
    ensures CountWakeups(acts, i, e) + One(Token(ss[i], e)) <= CountSets(acts, i, e)
    decreases i
  {
    if 0 < i {
      WakeupsAreSignalled(ss, acts, i - 1, e);
      RunStep(ss, acts, i - 1);
      TokenStep(ss[i - 1], acts[i - 1], e);
    }
  }

  // ---------- Panics and returns ----------

  lemma EnqueuePanicsIff(s: State, t: TaskId)
    requires TasksOk(s) && t in s.core.tasks
    ensures Enqueue(s.core, t).Panicked? <==> t in s.core.byOrder || t in s.core.byTime || t in s.abandoned
  {
    assert InOnePlace(s, t) && RecordOk(s, t);
  }

  /** In every reachable state enqueue would panic for exactly those tasks that were queued and not taken out since. */
  lemma PanicsIfQueued(ss: seq<State>, acts: seq<Action>, i: nat, t: TaskId)
    requires IsRun(ss, acts) && i < |ss| && t in ss[i].core.tasks
    ensures Enqueue(ss[i].core, t).Panicked? <==>
      t in ss[i].core.byOrder || t in ss[i].core.byTime || t in ss[i].abandoned
  {
    InvHolds(ss, acts, i);
    EnqueuePanicsIff(ss[i], t);
  }

  lemma NoneRunning(s: State)
    requires CountsOk(s)
    ensures s.core.taskActiveCount == 0 <==> Runners(s) == {}
    ensures s.core.loopActiveCount == 0 <==> Loopers(s) == {}
  {
  }

  /** Quiesce returns exactly if it finds no task queued, due or not, and none running; otherwise it waits. */
  lemma QuiesceReturnsIff(ss: seq<State>, acts: seq<Action>, i: nat, th: ThreadId)
    requires IsRun(ss, acts) && i < |acts| && acts[i] == QuiesceCheck(th)
    ensures th !in ss[i + 1].threads <==>
      ss[i].core.byOrder == {} && ss[i].core.byTime == {} && Runners(ss[i]) == {}
    ensures th in ss[i + 1].threads ==> ss[i + 1].threads[th] == QuiesceWait
    ensures ss[i + 1].core == ss[i].core
  {
    RunStep(ss, acts, i);
    NoneRunning(ss[i]);
  }

  /** Stop returns exactly if it finds no loop and no task running; otherwise it waits and leaves the queues alone. */
  lemma StopReturnsIff(ss: seq<State>, acts: seq<Action>, i: nat, th: ThreadId)
    requires IsRun(ss, acts) && i < |acts| && acts[i] == StopCheck(th)
    ensures th in ss[i + 1].threads
    ensures ss[i + 1].threads[th] == if Loopers(ss[i]) == {} && Runners(ss[i]) == {} then StopDone else StopWait
    ensures ss[i + 1].threads[th].StopWait? ==> ss[i + 1].core == ss[i].core
  {
    RunStep(ss, acts, i);
    NoneRunning(ss[i]);
  }

  // ---------- Stop ----------

  /** After the stop flag is set, no task starts and the active count never grows. */
  lemma {:induction false} NoLaunchAfterStop(ss: seq<State>, acts: seq<Action>, i: nat, j: nat)
    requires IsRun(ss, acts) && i <= j < |ss| && ss[i].core.stopRequested
    ensures ss[j].core.stopRequested && ss[j].core.taskActiveCount <= ss[i].core.taskActiveCount
    ensures j < |acts| ==> !acts[j].LoopLaunch? && !acts[j].Start?
    decreases j
  {
    if i < j {
      NoLaunchAfterStop(ss, acts, i, j - 1);
      RunStep(ss, acts, j - 1);
      StopKeepsCount(ss[j - 1], acts[j - 1]);
    }
    if j < |acts| {
      RunStep(ss, acts, j);
    }
  }

  lemma StopKeepsCount(s: State, a: Action)
    requires Typed(s) && Enabled(s, a) && !Panics(s, a) && s.core.stopRequested
    ensures Apply(s, a).core.stopRequested && Apply(s, a).core.taskActiveCount <= s.core.taskActiveCount
  {
    if !a.Tick? {
      StopThreadsFollowFlag(s, a);
      ActiveCountFollowsRunners(s, a);
    }
  }

  /** Start succeeds at most once: there is never a second loop. */
  lemma StartsOnce(ss: seq<State>, acts: seq<Action>, i: nat, j: nat)
    requires IsRun(ss, acts) && i < j < |acts| && acts[i].Start?
    ensures !acts[j].Start?
  {
    assert StepAt(ss, acts, i);
    LoopCountedUntilStop(ss, acts, i, j);
    assert StepAt(ss, acts, j);
  }

  lemma LoopCountKept(s: State, a: Action)
    requires Inv(s) && Enabled(s, a) && !Panics(s, a) && !a.Tick?
    requires s.core.stopRequested || 1 <= s.core.loopActiveCount || a.Start?
    ensures NextCore(s, a).stopRequested || 1 <= NextCore(s, a).loopActiveCount
  {
    StopThreadsFollowFlag(s, a);
    LoopCountFollowsLoopers(s, a);
  }

  lemma {:induction false} LoopCountedUntilStop(ss: seq<State>, acts: seq<Action>, i: nat, j: nat)
    requires IsRun(ss, acts) && i < j < |ss| && acts[i].Start?
    ensures ss[j].core.stopRequested || 1 <= ss[j].core.loopActiveCount
    decreases j
  {
    if i + 1 < j {
      LoopCountedUntilStop(ss, acts, i, j - 1);
    }
    LoopCountKeptInRun(ss, acts, j - 1);
  }

  lemma LoopCountKeptInRun(ss: seq<State>, acts: seq<Action>, i: nat)
    requires IsRun(ss, acts) && i < |acts|
    requires ss[i].core.stopRequested || 1 <= ss[i].core.loopActiveCount || acts[i].Start?
    ensures ss[i + 1].core.stopRequested || 1 <= ss[i + 1].core.loopActiveCount
  {
    RunStep(ss, acts, i);
    if !acts[i].Tick? {
      LoopCountKept(ss[i], acts[i]);
    }
  }

  /** Stopped with no loop and no running task: that is how it stays. */
  lemma {:induction false} HaltedForever(ss: seq<State>, acts: seq<Action>, i: nat, j: nat)
    requires IsRun(ss, acts) && i <= j < |ss| && ss[i].core.stopRequested && Halted(ss[i].core)
    ensures Runners(ss[j]) == {} && Loopers(ss[j]) == {} && Halted(ss[j].core) && ss[j].core.stopRequested
    decreases j
  {
    if i < j {
      HaltedForever(ss, acts, i, j - 1);
      StaysHalted(ss, acts, j - 1);
    }
    NothingRunsInRun(ss, acts, j);
  }

  lemma NothingRunsInRun(ss: seq<State>, acts: seq<Action>, i: nat)
    requires IsRun(ss, acts) && i < |ss| && Halted(ss[i].core)
    ensures Runners(ss[i]) == {} && Loopers(ss[i]) == {}
  {
    InvHolds(ss, acts, i);
    NothingRuns(ss[i]);
  }

  lemma StaysHalted(ss: seq<State>, acts: seq<Action>, i: nat)
    requires IsRun(ss, acts) && i < |acts| && ss[i].core.stopRequested && Halted(ss[i].core)
    ensures ss[i + 1].core.stopRequested && Halted(ss[i + 1].core)
  {
    RunStep(ss, acts, i);
    if !acts[i].Tick? {
      HaltedIsFinal(ss[i], acts[i]);
    }
  }

  lemma NothingRuns(s: State)
    requires CountsOk(s) && Halted(s.core)
    ensures Runners(s) == {} && Loopers(s) == {}
  {
  }

  lemma StopDoneClears(s: State, th: ThreadId)
    requires Typed(s) && Enabled(s, StopCheck(th)) && StopOk(s)
    ensures var s' := Apply(s, StopCheck(th)); s'.threads[th].StopDone? ==>
      && s'.core.byOrder == {} && s'.core.byTime == {} && s.core.byOrder + s.core.byTime <= s'.abandoned
      && Halted(s'.core) && s'.core.stopRequested
  {
  }

  /**
   * Stop returns only with no loop, no running task and cleared queues, whose tasks are abandoned;
   * no loop and no task ever runs again.
   */
  lemma StopReturnsHalted(ss: seq<State>, acts: seq<Action>, i: nat, j: nat, th: ThreadId)
    requires IsRun(ss, acts) && i < j < |ss| && acts[i] == StopCheck(th)
    requires th in ss[i + 1].threads && ss[i + 1].threads[th].StopDone?
    ensures ss[i + 1].core.byOrder == {} && ss[i + 1].core.byTime == {}
    ensures ss[i].core.byOrder + ss[i].core.byTime <= ss[i + 1].abandoned
    ensures Runners(ss[j]) == {} && Loopers(ss[j]) == {}
  {
    RunStep(ss, acts, i);
    StopDoneClears(ss[i], th);
    HaltedForever(ss, acts, i + 1, j);
  }
}
