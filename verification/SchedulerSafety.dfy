/** What every step of the scheduler's threads keeps. */
module SchedulerSafety {
  import opened Options
  import opened SchedulerCore
  import opened SchedulerProtocol
  import opened SequenceNumbers

  // ---------- Task conservation ----------

  /** Thread th holds task t: it adds or runs it. */
  ghost predicate Owns(s: State, th: ThreadId, t: TaskId) {
    th in s.threads && HoldsTask(s.threads[th]) && s.threads[th].task == t
  }

  ghost predicate Held(s: State, t: TaskId) {
    exists th :: Owns(s, th, t)
  }

  /** A task's fields agree with where it is; Clear leaves the item pointers of abandoned tasks set. */
  ghost predicate RecordOk(s: State, t: TaskId)
    requires t in s.core.tasks
  {
    var r := s.core.tasks[t];
    && 0 < t <= s.counter && Wrap64(t) != 0
    && (r.seqItem <==> t in s.core.byOrder || (t in s.abandoned && r.nextAfter == ZERO_TIME))
    && (r.timeItem <==> t in s.core.byTime || (t in s.abandoned && r.nextAfter != ZERO_TIME))
    && (t in s.core.byOrder ==> r.nextAfter == ZERO_TIME)
    && (t in s.core.byTime ==> r.nextAfter != ZERO_TIME)
  }

  ghost predicate InOnePlace(s: State, t: TaskId) {
    var c := s.core;
    && (t in c.byOrder ==> t !in c.byTime && t !in s.finished && t !in s.abandoned && !Held(s, t))
    && (t in c.byTime ==> t !in s.finished && t !in s.abandoned && !Held(s, t))
    && (t in s.finished ==> t !in s.abandoned && !Held(s, t))
    && (t in s.abandoned ==> !Held(s, t))
    && (t in c.byOrder || t in c.byTime || t in s.finished || t in s.abandoned || Held(s, t))
  }

  ghost predicate TasksOk(s: State) {
    && Typed(s) && !s.panicked
    && s.finished <= s.core.tasks.Keys && s.abandoned <= s.core.tasks.Keys
    && (forall a, b, t | Owns(s, a, t) && Owns(s, b, t) :: a == b)
    && (forall t | t in s.core.tasks :: InOnePlace(s, t))
    && (forall t | t in s.core.tasks :: RecordOk(s, t))
  }

  /** Steps that leave tasks where they are: same queues, same holders, same task fields. */
  lemma TasksStay(s: State, s': State)
    requires TasksOk(s)
    requires s'.core.tasks == s.core.tasks && s'.core.byOrder == s.core.byOrder && s'.core.byTime == s.core.byTime
    requires s'.finished == s.finished && s'.abandoned == s.abandoned && s'.counter == s.counter && !s'.panicked
    requires forall th, t :: Owns(s', th, t) <==> Owns(s, th, t)
    ensures TasksOk(s')
  {
    assert forall th | th in s'.threads && HoldsTask(s'.threads[th]) :: Owns(s', th, s'.threads[th].task);
    forall t | t in s'.core.tasks
      ensures InOnePlace(s', t) && RecordOk(s', t)
    {
      assert InOnePlace(s, t) && RecordOk(s, t);
    }
  }

  /** Steps of the scheduler loop other than a launch. */
  predicate IsLoopStep(a: Action) {
    a.Start? || a.LoopLeave? || a.LoopSleep? || a.LoopNotified? || a.LoopTimer? || a.LoopEnd? || a.SetLoopFinished?
  }

  /** Steps of a thread that waits in Quiesce or Stop. */
  predicate IsWaiterStep(a: Action) {
    a.QuiesceCheck? || a.QuiesceCancelled? || a.StopCancelled? || a.WaiterWoken?
  }

  /** Steps that move a task between queues, threads and history. */
  predicate MovesTask(a: Action) {
    a.AddDraw? || a.AddEnqueue? || a.LoopLaunch? || a.TaskReturn? || a.TaskFinish? || a.StopCheck?
  }

  lemma LoopStepKeepsTasks(s: State, a: Action)
    requires TasksOk(s) && Enabled(s, a) && IsLoopStep(a)
    ensures TasksOk(Apply(s, a))
  {
    TasksStay(s, Apply(s, a));
  }

  lemma WaiterStepKeepsTasks(s: State, a: Action)
    requires TasksOk(s) && Enabled(s, a) && IsWaiterStep(a)
    ensures TasksOk(Apply(s, a))
  {
    TasksStay(s, Apply(s, a));
  }

  lemma CallStepKeepsTasks(s: State, a: Action)
    requires TasksOk(s) && Enabled(s, a) && !IsLoopStep(a) && !IsWaiterStep(a) && !MovesTask(a)
    ensures TasksOk(Apply(s, a))
  {
    TasksStay(s, Apply(s, a));
  }

  lemma TasksStep(s: State, a: Action)
    requires TasksOk(s) && Enabled(s, a)
    ensures TasksOk(Apply(s, a))
  {
    match a {
      case AddDraw(th, delay) => AddDrawKeepsTasks(s, th, delay);
      case AddEnqueue(th) => AddEnqueueKeepsTasks(s, th);
      case LoopLaunch(th, t, runner) => LaunchKeepsTasks(s, th, t, runner);
      case TaskReturn(th, outcome) => ReturnKeepsTasks(s, th, outcome);
      case TaskFinish(th) => FinishKeepsTasks(s, th);
      case StopCheck(th) => StopCheckKeepsTasks(s, th);
      case _ => OtherStepKeepsTasks(s, a);
    }
  }

  lemma OtherStepKeepsTasks(s: State, a: Action)
    requires TasksOk(s) && Enabled(s, a) && !MovesTask(a)
    ensures TasksOk(Apply(s, a))
  {
    if IsLoopStep(a) {
      LoopStepKeepsTasks(s, a);
    } else if IsWaiterStep(a) {
      WaiterStepKeepsTasks(s, a);
    } else {
      CallStepKeepsTasks(s, a);
    }
  }

  lemma AddDrawKeepsTasks(s: State, th: ThreadId, delay: Option<int>)
    requires TasksOk(s) && Enabled(s, AddDraw(th, delay))
    ensures TasksOk(Apply(s, AddDraw(th, delay)))
  {
    var s' := Apply(s, AddDraw(th, delay));
    var drawn := NextTicket(s.counter);
    assert drawn !in s.core.tasks by {
      assert drawn in s.core.tasks ==> RecordOk(s, drawn);
    }
    assert Owns(s', th, drawn);
    assert forall u, t | u != th :: Owns(s', u, t) <==> Owns(s, u, t);
    assert forall u | u in s.threads && HoldsTask(s.threads[u]) :: s.threads[u].task in s.core.tasks;
    forall t | t in s'.core.tasks
      ensures InOnePlace(s', t) && RecordOk(s', t)
    {
      if t != drawn {
        assert InOnePlace(s, t) && RecordOk(s, t);
        assert Held(s', t) <==> Held(s, t);
      }
    }
  }

  lemma AddEnqueueKeepsTasks(s: State, th: ThreadId)
    requires TasksOk(s) && Enabled(s, AddEnqueue(th))
    ensures TasksOk(Apply(s, AddEnqueue(th)))
  {
    var s' := Apply(s, AddEnqueue(th));
    var mine := s.threads[th].task;
    assert Owns(s, th, mine) && InOnePlace(s, mine) && RecordOk(s, mine);
    QueuedByOwner(s, s', th, mine);
  }

  /** The holder of a task puts it into the queue that fits its due time. */
  lemma QueuedByOwner(s: State, s': State, th: ThreadId, mine: TaskId)
    requires TasksOk(s) && Owns(s, th, mine)
    requires s'.counter == s.counter && s'.finished == s.finished && s'.abandoned == s.abandoned && !s'.panicked
    requires Enqueue(s.core, mine).Queued?
    requires s'.core.tasks == Enqueue(s.core, mine).core.tasks
    requires s'.core.byOrder == Enqueue(s.core, mine).core.byOrder
      && s'.core.byTime == Enqueue(s.core, mine).core.byTime
    requires forall u, t :: Owns(s', u, t) <==> u != th && Owns(s, u, t)
    ensures TasksOk(s')
  {
    assert forall u | u in s'.threads && HoldsTask(s'.threads[u]) :: Owns(s', u, s'.threads[u].task);
    forall t | t in s'.core.tasks
      ensures InOnePlace(s', t) && RecordOk(s', t)
    {
      assert InOnePlace(s, t) && RecordOk(s, t);
      if t != mine {
        assert Held(s', t) <==> Held(s, t);
      } else {
        assert !Held(s', t);
      }
    }
  }

  lemma LaunchKeepsTasks(s: State, th: ThreadId, mine: TaskId, runner: ThreadId)
    requires TasksOk(s) && Enabled(s, LoopLaunch(th, mine, runner))
    ensures TasksOk(Apply(s, LoopLaunch(th, mine, runner)))
  {
    var s' := Apply(s, LoopLaunch(th, mine, runner));
    assert InOnePlace(s, mine) && RecordOk(s, mine);
    assert Owns(s', runner, mine);
    assert forall u, t | u != runner :: Owns(s', u, t) <==> Owns(s, u, t);
    forall t | t in s'.core.tasks
      ensures InOnePlace(s', t) && RecordOk(s', t)
    {
      assert InOnePlace(s, t) && RecordOk(s, t);
      if t != mine {
        assert Held(s', t) <==> Held(s, t);
      }
    }
  }

  lemma ReturnKeepsTasks(s: State, th: ThreadId, outcome: Outcome)
    requires TasksOk(s) && Enabled(s, TaskReturn(th, outcome))
    ensures TasksOk(Apply(s, TaskReturn(th, outcome)))
  {
    var s' := Apply(s, TaskReturn(th, outcome));
    var mine := s.threads[th].task;
    assert Owns(s, th, mine) && InOnePlace(s, mine) && RecordOk(s, mine);
    assert forall u, t :: Owns(s', u, t) <==> Owns(s, u, t);
    forall t | t in s'.core.tasks
      ensures InOnePlace(s', t) && RecordOk(s', t)
    {
      assert InOnePlace(s, t) && RecordOk(s, t);
    }
  }

  lemma FinishKeepsTasks(s: State, th: ThreadId)
    requires TasksOk(s) && Enabled(s, TaskFinish(th))
    ensures TasksOk(Apply(s, TaskFinish(th)))
  {
    var s' := Apply(s, TaskFinish(th));
    var mine := s.threads[th].task;
    assert Owns(s, th, mine) && InOnePlace(s, mine) && RecordOk(s, mine);
    if !s.threads[th].finished {
      QueuedByOwner(s, s', th, mine);
    } else {
      assert forall u, t :: Owns(s', u, t) <==> u != th && Owns(s, u, t);
      forall t | t in s'.core.tasks
        ensures InOnePlace(s', t) && RecordOk(s', t)
      {
        assert InOnePlace(s, t) && RecordOk(s, t);
        if t != mine {
          assert Held(s', t) <==> Held(s, t);
        } else {
          assert !Held(s', t);
        }
      }
    }
  }

  lemma StopCheckKeepsTasks(s: State, th: ThreadId)
    requires TasksOk(s) && Enabled(s, StopCheck(th))
    ensures TasksOk(Apply(s, StopCheck(th)))
  {
    var s' := Apply(s, StopCheck(th));
    assert forall u, t :: Owns(s', u, t) <==> Owns(s, u, t);
    forall t | t in s'.core.tasks
      ensures InOnePlace(s', t) && RecordOk(s', t)
    {
      assert InOnePlace(s, t) && RecordOk(s, t);
      assert Held(s', t) <==> Held(s, t);
    }
  }

  // ---------- Counters and the single loop ----------

  predicate IsRunner(pc: Pc) {
    pc.Running? || pc.Returned?
  }

  /** In the loop goroutine before it gives up its count. */
  predicate InLoop(pc: Pc) {
    pc.LoopTop? || pc.LoopWait? || pc.LoopDefer?
  }

  predicate IsLoopThread(pc: Pc) {
    InLoop(pc) || pc.LoopSignal?
  }

  /** The threads at a place that satisfies p. */
  ghost function Where(threads: map<ThreadId, Pc>, p: Pc -> bool): set<ThreadId> {
    set th | th in threads && p(threads[th])
  }

  ghost function Runners(s: State): set<ThreadId> {
    Where(s.threads, IsRunner)
  }

  ghost function Loopers(s: State): set<ThreadId> {
    Where(s.threads, InLoop)
  }

  function One(b: bool): int {
    if b then 1 else 0
  }

  lemma CardinalityWithout<T>(a: set<T>, x: T)
    ensures |a| == |a - {x}| + One(x in a)
  {
    if x in a {
      assert a == (a - {x}) + {x};
    } else {
      assert a == a - {x};
    }
  }

  lemma OthersStay(threads: map<ThreadId, Pc>, th: ThreadId, pc: Option<Pc>, p: Pc -> bool)
    ensures Where(Moved(threads, th, pc), p) - {th} == Where(threads, p) - {th}
  {
  }

  lemma CountMoved(threads: map<ThreadId, Pc>, th: ThreadId, pc: Option<Pc>, p: Pc -> bool)
    ensures |Where(Moved(threads, th, pc), p)|
         == |Where(threads, p)| - One(th in threads && p(threads[th])) + One(pc.Some? && p(pc.value))
  {
    var before, after := Where(threads, p), Where(Moved(threads, th, pc), p);
    OthersStay(threads, th, pc, p);
    CardinalityWithout(before, th);
    CardinalityWithout(after, th);
  }

  ghost predicate CountsOk(s: State) {
    s.core.taskActiveCount == |Runners(s)| && s.core.loopActiveCount == |Loopers(s)|
  }

  /** At most one loop goroutine exists, and it only ends after Stop was called. */
  ghost predicate LoopOk(s: State) {
    && (forall a, b | a in s.threads && b in s.threads && IsLoopThread(s.threads[a]) && IsLoopThread(s.threads[b]) ::
          a == b)
    && (forall th | th in s.threads :: s.threads[th].LoopDefer? || s.threads[th].LoopSignal? ==> s.core.stopRequested)
  }

  /** Threads in Stop have set the flag; once one has returned, nothing runs. Only Stop abandons tasks. */
  ghost predicate StopOk(s: State) {
    && (s.abandoned != {} ==> s.core.stopRequested)
    && forall th | th in s.threads ::
         && (s.threads[th].StopNotify? || s.threads[th].StopTop? || s.threads[th].StopWait? ==> s.core.stopRequested)
         && (s.threads[th].StopDone? ==> s.core.stopRequested && Halted(s.core))
  }

  ghost predicate ControlOk(s: State) {
    CountsOk(s) && LoopOk(s) && StopOk(s) && 1 <= s.core.slots && ZERO_TIME < s.now
  }

  /** Whether the moving thread was, and whether it will be, at a place that satisfies p. */
  ghost predicate WasAt(s: State, a: Action, p: Pc -> bool)
    requires !a.Tick?
  {
    Mover(a) in s.threads && p(s.threads[Mover(a)])
  }

  ghost predicate WillBeAt(s: State, a: Action, p: Pc -> bool)
    requires Typed(s) && Enabled(s, a) && !a.Tick?
  {
    NextPc(s, a).Some? && p(NextPc(s, a).value)
  }

  lemma ActiveCountFollowsRunners(s: State, a: Action)
    requires Typed(s) && Enabled(s, a) && !Panics(s, a) && !a.Tick?
    ensures NextCore(s, a).taskActiveCount
      == s.core.taskActiveCount - One(WasAt(s, a, IsRunner)) + One(WillBeAt(s, a, IsRunner))
  {
  }

  lemma LoopCountFollowsLoopers(s: State, a: Action)
    requires Typed(s) && Enabled(s, a) && !Panics(s, a) && !a.Tick?
    ensures NextCore(s, a).loopActiveCount
      == s.core.loopActiveCount - One(WasAt(s, a, InLoop)) + One(WillBeAt(s, a, InLoop))
  {
  }

  lemma CountsStep(s: State, a: Action)
    requires TasksOk(s) && ControlOk(s) && Enabled(s, a) && !Panics(s, a)
    ensures CountsOk(Apply(s, a))
  {
    if !a.Tick? {
      ActiveCountFollowsRunners(s, a);
      LoopCountFollowsLoopers(s, a);
      CountMoved(s.threads, Mover(a), NextPc(s, a), IsRunner);
      CountMoved(s.threads, Mover(a), NextPc(s, a), InLoop);
    }
  }

  lemma SomeLooper(s: State, th: ThreadId)
    requires CountsOk(s) && th in s.threads && InLoop(s.threads[th])
    ensures 1 <= s.core.loopActiveCount
  {
    assert th in Loopers(s);
  }

  lemma SomeRunner(s: State, th: ThreadId)
    requires CountsOk(s) && th in s.threads && IsRunner(s.threads[th])
    ensures 1 <= s.core.taskActiveCount
  {
    assert th in Runners(s);
  }

  /** Only Start makes a loop thread, and loop threads end only under the stop flag, which stays set. */
  lemma LoopThreadsOnlyStart(s: State, a: Action)
    requires Typed(s) && Enabled(s, a) && !Panics(s, a) && !a.Tick?
    ensures WillBeAt(s, a, IsLoopThread) ==> WasAt(s, a, IsLoopThread) || a.Start?
    ensures WillBeAt(s, a, (pc: Pc) => pc.LoopDefer?) ==> s.core.stopRequested
    ensures WillBeAt(s, a, (pc: Pc) => pc.LoopSignal?) ==> WasAt(s, a, (pc: Pc) => pc.LoopDefer?)
    ensures s.core.stopRequested ==> NextCore(s, a).stopRequested
  {
  }

  lemma LoopOkStep(s: State, a: Action)
    requires TasksOk(s) && ControlOk(s) && Enabled(s, a) && !Panics(s, a)
    ensures LoopOk(Apply(s, a))
  {
    if a.Start? {
      forall th | th in s.threads
        ensures !IsLoopThread(s.threads[th])
      {
        if InLoop(s.threads[th]) {
          SomeLooper(s, th);
        }
      }
    }
    LoopOkKept(s, a);
  }

  lemma LoopOkKept(s: State, a: Action)
    requires Typed(s) && LoopOk(s) && Enabled(s, a) && !Panics(s, a)
    requires a.Start? ==> forall th | th in s.threads :: !IsLoopThread(s.threads[th])
    ensures LoopOk(Apply(s, a))
  {
    if !a.Tick? {
      LoopThreadsOnlyStart(s, a);
    }
  }

  /** Once stopped with no loop and no running task, the scheduler stays that way. */
  lemma HaltedIsFinal(s: State, a: Action)
    requires TasksOk(s) && ControlOk(s) && Enabled(s, a) && !Panics(s, a) && !a.Tick?
    requires s.core.stopRequested && Halted(s.core)
    ensures NextCore(s, a).stopRequested && Halted(NextCore(s, a))
  {
    if a.LoopEnd? || a.LoopLaunch? {
      SomeLooper(s, a.th);
    } else if a.TaskFinish? {
      SomeRunner(s, a.th);
    }
  }

  predicate InStop(pc: Pc) {
    pc.StopNotify? || pc.StopTop? || pc.StopWait? || pc.StopDone?
  }

  lemma StopThreadsFollowFlag(s: State, a: Action)
    requires Typed(s) && Enabled(s, a) && !Panics(s, a) && !a.Tick?
    ensures WillBeAt(s, a, InStop) ==> WasAt(s, a, InStop) || a.StopCall?
    ensures NextPc(s, a) == Some(StopDone) ==> Halted(NextCore(s, a))
    ensures NextCore(s, a).stopRequested == (s.core.stopRequested || a.StopCall?)
  {
  }

  lemma StopOkStep(s: State, a: Action)
    requires TasksOk(s) && ControlOk(s) && Enabled(s, a) && !Panics(s, a)
    ensures StopOk(Apply(s, a))
  {
    if !a.Tick? {
      if s.core.stopRequested && Halted(s.core) {
        HaltedIsFinal(s, a);
      }
      StopOkKept(s, a);
    }
  }

  lemma StopOkKept(s: State, a: Action)
    requires Typed(s) && StopOk(s) && Enabled(s, a) && !Panics(s, a) && !a.Tick?
    requires s.core.stopRequested && Halted(s.core) ==> Halted(NextCore(s, a))
    ensures StopOk(Apply(s, a))
  {
    StopThreadsFollowFlag(s, a);
  }

  lemma BoundsStep(s: State, a: Action)
    requires TasksOk(s) && ControlOk(s) && Enabled(s, a) && !Panics(s, a)
    ensures 1 <= Apply(s, a).core.slots && ZERO_TIME < s.now <= Apply(s, a).now
  {
  }

  lemma ControlStep(s: State, a: Action)
    requires TasksOk(s) && ControlOk(s) && Enabled(s, a)
    ensures !Panics(s, a) && ControlOk(Apply(s, a))
  {
    NoPanic(s, a);
    CountsStep(s, a);
    LoopOkStep(s, a);
    StopOkStep(s, a);
    BoundsStep(s, a);
  }

  /** Both panics of enqueue are out of reach. */
  lemma NoPanic(s: State, a: Action)
    requires TasksOk(s) && Enabled(s, a)
    ensures !Panics(s, a)
  {
    TasksStep(s, a);
  }

  // ---------- No lost wakeup ----------

  /** Some thread is about to set loopNotification. */
  ghost predicate NotifyPending(s: State) {
    exists th :: th in s.threads && WillNotify(s.threads[th])
  }

  /** The loop may sleep until its timer fires: nothing it could do is left. */
  ghost predicate MaySleep(s: State, timer: Option<int>)
    requires s.core.Known()
  {
    && !s.core.stopRequested
    && (s.core.taskActiveCount >= s.core.slots
        || (s.core.byOrder == {} && forall t | t in s.core.byTime :: timer.Some? && timer.value <= s.core.Due(t)))
  }

  ghost predicate WakeOk(s: State)
    requires s.core.Known()
  {
    forall th | th in s.threads && s.threads[th].LoopWait? ::
      s.loopNotification || NotifyPending(s) || MaySleep(s, s.threads[th].timer)
  }

  lemma WakeStep(s: State, a: Action)
    requires TasksOk(s) && ControlOk(s) && WakeOk(s) && Enabled(s, a)
    ensures TasksOk(Apply(s, a)) && WakeOk(Apply(s, a))
  {
    TasksStep(s, a);
    var s' := Apply(s, a);
    forall th | th in s'.threads && s'.threads[th].LoopWait?
      ensures s'.loopNotification || NotifyPending(s') || MaySleep(s', s'.threads[th].timer)
    {
      WakeStepAt(s, a, th);
    }
  }

  lemma WakeStepAt(s: State, a: Action, th: ThreadId)
    requires TasksOk(s) && ControlOk(s) && WakeOk(s) && Enabled(s, a) && Typed(Apply(s, a))
    requires th in Apply(s, a).threads && Apply(s, a).threads[th].LoopWait?
    ensures var s' := Apply(s, a); s'.loopNotification || NotifyPending(s') || MaySleep(s', s'.threads[th].timer)
  {
    NoPanic(s, a);
    var s' := Apply(s, a);
    if a.LoopSleep? && a.th == th {
      assert Decides(s.core, s.now, Sleep(a.timer));
    } else if a.AddEnqueue? || a.SetSlots? || a.StopCall? || a.QuiesceCall? {
      assert WillNotify(s'.threads[a.th]);
    } else if !s'.loopNotification && NotifyPending(s) {
      NotifyStaysPending(s, a);
    } else if !s'.loopNotification {
      StillWaits(s, a, th);
      SleepKept(s, a, th);
    }
  }

  lemma StillWaits(s: State, a: Action, th: ThreadId)
    requires Typed(s) && Enabled(s, a) && !Panics(s, a) && !(a.LoopSleep? && a.th == th)
    requires th in Apply(s, a).threads && Apply(s, a).threads[th].LoopWait?
    ensures th in s.threads && s.threads[th] == Apply(s, a).threads[th]
  {
  }

  lemma OneLoop(s: State, a: ThreadId, b: ThreadId)
    requires LoopOk(s) && a in s.threads && b in s.threads && IsLoopThread(s.threads[a]) && IsLoopThread(s.threads[b])
    ensures a == b
  {
  }

  lemma NotifyStaysPending(s: State, a: Action)
    requires Typed(s) && Enabled(s, a) && !Panics(s, a) && NotifyPending(s) && !a.SetNotification?
    ensures NotifyPending(Apply(s, a))
  {
    var u :| u in s.threads && WillNotify(s.threads[u]);
    assert u in Apply(s, a).threads && WillNotify(Apply(s, a).threads[u]);
  }

  /** A step that neither notifies nor promises to leaves the loop's reasons to sleep intact. */
  lemma SleepKept(s: State, a: Action, th: ThreadId)
    requires TasksOk(s) && ControlOk(s) && WakeOk(s) && Enabled(s, a) && !Panics(s, a) && Typed(Apply(s, a))
    requires th in s.threads && s.threads[th].LoopWait? && MaySleep(s, s.threads[th].timer)
    requires !Apply(s, a).loopNotification && !a.AddEnqueue? && !a.SetSlots? && !a.StopCall?
    ensures MaySleep(Apply(s, a), s.threads[th].timer)
  {
    var s' := Apply(s, a);
    if a.LoopLaunch? {
      OneLoop(s, a.th, th);
    } else if a.TaskReturn? {
      var t := s.threads[a.th].task;
      assert Owns(s, a.th, t) && InOnePlace(s, t);
    } else if a.AddDraw? {
      assert forall t | t in s.core.byTime :: RecordOk(s, t);
    }
  }
}
