/** Reachable states in which a change goes by unseen. */
module HandlerExamples {
  import opened Options
  import opened RetryStrategy
  import opened SchedulerCore
  import opened SchedulerProtocol
  import opened SequenceNumbers
  import opened HandlerProtocol
  import opened HandlerStages
  import opened HandlerRuns
  import opened HandlerChanges

  /** A run leads to h. */
  ghost predicate Reachable(cfg: Config, h: HState) {
    exists hs, acts :: IsHRun(cfg, hs, acts) && hs[|hs| - 1] == h
  }

  lemma ReachableInit(cfg: Config, h: HState)
    requires HInit(h)
    ensures Reachable(cfg, h)
  {
    assert IsHRun(cfg, [h], []);
  }

  lemma ReachableStep(cfg: Config, h: HState, a: HAction, h': HState)
    requires Reachable(cfg, h) && HSteps(cfg, h, a, h')
    ensures Reachable(cfg, h')
  {
    var hs, acts :| IsHRun(cfg, hs, acts) && hs[|hs| - 1] == h;
    var hs', acts' := hs + [h'], acts + [a];
    forall i | 0 <= i < |acts'|
      ensures HStepAt(cfg, hs', acts', i)
    {
      if i < |acts| {
        assert HStepAt(cfg, hs, acts, i);
      }
    }
    assert IsHRun(cfg, hs', acts');
  }

  function BareState(hpc: map<ThreadId, HPc>): HState {
    HState(
      State(Core(1, map[], {}, {}, 0, false, 0), 1, 0, false, false, false, map[], {}, {}, false),
      None, map[], map[], map[], hpc, 0, 0, 0, 0)
  }

  /** One task without due time, made for the file "f". */
  function OneTask(core: Core, note: bool, threads: map<ThreadId, Pc>, mu: Option<ThreadId>, hpc: map<ThreadId, HPc>,
                   changes: nat): HState
  {
    HState(
      State(core, 1, 1, note, false, false, threads, {}, {}, false),
      mu, map["f" := 1], map[1 := "f"], map[1 := 0], hpc, changes, 0, 0, 0)
  }

  function Unqueued(attempts: nat, loops: nat, active: nat): Core {
    Core(1, map[1 := Task(ZERO_TIME, attempts, false, false)], {}, {}, loops, false, active)
  }

  function InOrder(loops: nat): Core {
    Core(1, map[1 := Task(ZERO_TIME, 0, true, false)], {1}, {}, loops, false, 0)
  }

  function Created(): HState {
    OneTask(Unqueued(0, 0, 0), false, map[1 := AddLock(1)], Some(1), map[1 := HandleAdding], 0)
  }

  function InQueue(): HState {
    OneTask(InOrder(0), false, map[1 := Notify], Some(1), map[1 := HandleAdding], 0)
  }

  function Looping(): HState {
    OneTask(InOrder(1), true, map[2 := LoopTop], None, map[], 1)
  }

  function Notified(): HState {
    OneTask(InOrder(0), true, map[], Some(1), map[1 := HandleReport], 0)
  }

  /** The loop has launched the task, and threads of the handler are at hpc. */
  function AtRun(hpc: map<ThreadId, HPc>): HState {
    OneTask(Unqueued(1, 1, 1), true, map[2 := LoopTop, 3 := Running(1)], None, hpc, 1)
  }

  function QueuedChanged(): HState {
    OneTask(InOrder(1), true, map[2 := LoopTop], None, map[4 := HandleLock("f")], 1)
  }

  function StoppedChanged(): HState {
    OneTask(InOrder(1).(stopRequested := true), true, map[2 := LoopTop, 5 := StopNotify], None,
            map[4 := HandleLock("f")], 1)
  }

  function RefusedChanged(): HState {
    AtRun(map[3 := Invoking(Refused), 4 := HandleLock("f")])
  }

  lemma ReachCreated(cfg: Config)
    ensures Reachable(cfg, Created())
  {
    hide Reachable;
    var h1 := BareState(map[1 := HandleLock("f")]);
    ReachableInit(cfg, BareState(map[]));
    ReachableStep(cfg, BareState(map[]), HandleCall(1, "f"), h1);
    assert NextTicket(0) == 1;
    ReachableStep(cfg, h1, HandleEnter(1), Created());
  }

  lemma Enqueues()
    ensures Typed(Created().sched) && Enabled(Created().sched, AddEnqueue(1))
    ensures Apply(Created().sched, AddEnqueue(1)) == InQueue().sched
  {
  }

  lemma EnqueueSteps(cfg: Config)
    ensures HSteps(cfg, Created(), SchedStep(AddEnqueue(1)), InQueue())
  {
    Enqueues();
    hide Apply, Enabled, Typed;
  }

  lemma ReachInQueue(cfg: Config)
    ensures Reachable(cfg, InQueue())
  {
    hide Reachable;
    ReachCreated(cfg);
    EnqueueSteps(cfg);
    hide HSteps, Created, InQueue;
    ReachableStep(cfg, Created(), SchedStep(AddEnqueue(1)), InQueue());
  }

  lemma Notifies()
    ensures Typed(InQueue().sched) && Enabled(InQueue().sched, SetNotification(1))
    ensures Apply(InQueue().sched, SetNotification(1)) == Notified().sched
  {
  }

  lemma NotifySteps(cfg: Config)
    ensures HSteps(cfg, InQueue(), SchedStep(SetNotification(1)), Notified())
  {
    Notifies();
    hide Apply, Enabled, Typed;
  }

  lemma ReachNotified(cfg: Config)
    ensures Reachable(cfg, Notified())
  {
    hide Reachable;
    ReachInQueue(cfg);
    NotifySteps(cfg);
    hide HSteps, InQueue, Notified;
    ReachableStep(cfg, InQueue(), SchedStep(SetNotification(1)), Notified());
  }

  lemma ReachLooping(cfg: Config)
    ensures Reachable(cfg, Looping())
  {
    hide Reachable;
    ReachNotified(cfg);
    var h := OneTask(InOrder(0), true, map[], None, map[], 1);
    ReachableStep(cfg, Notified(), HandleExit(1), h);
    ReachableStep(cfg, h, SchedStep(Start(2)), Looping());
  }

  lemma LaunchIsNext()
    ensures Looping().sched.core.Known() && Decides(Looping().sched.core, 1, Launch(1))
  {
    assert NotBelow(1, 1);
  }

  lemma Launches()
    ensures var s := Looping().sched;
      && Typed(s) && Enabled(s, LoopLaunch(2, 1, 3)) && !Panics(s, LoopLaunch(2, 1, 3))
      && Apply(s, LoopLaunch(2, 1, 3)) == AtRun(map[]).sched
  {
    LaunchIsNext();
  }

  lemma LaunchSteps(cfg: Config)
    ensures HSteps(cfg, Looping(), SchedStep(LoopLaunch(2, 1, 3)), AtRun(map[3 := Invoking(Preparing)]))
  {
    Launches();
    hide Apply, Enabled, Typed;
  }

  lemma ReachLaunched(cfg: Config)
    ensures Reachable(cfg, AtRun(map[3 := Invoking(Preparing)]))
  {
    hide Reachable;
    ReachLooping(cfg);
    LaunchSteps(cfg);
    hide HSteps, AtRun, Looping;
    ReachableStep(cfg, Looping(), SchedStep(LoopLaunch(2, 1, 3)), AtRun(map[3 := Invoking(Preparing)]));
  }

  lemma ReachQueuedChanged(cfg: Config)
    ensures Reachable(cfg, QueuedChanged())
  {
    ReachLooping(cfg);
    ReachableStep(cfg, Looping(), HandleCall(4, "f"), QueuedChanged());
  }

  lemma StopSteps(cfg: Config)
    ensures HSteps(cfg, QueuedChanged(), SchedStep(StopCall(5)), StoppedChanged())
  {
  }

  lemma ReachStoppedChanged(cfg: Config)
    ensures Reachable(cfg, StoppedChanged())
  {
    hide Reachable;
    ReachQueuedChanged(cfg);
    StopSteps(cfg);
    hide HSteps, QueuedChanged, StoppedChanged;
    ReachableStep(cfg, QueuedChanged(), SchedStep(StopCall(5)), StoppedChanged());
  }

  lemma ReachRefusedChanged(cfg: Config)
    ensures Reachable(cfg, RefusedChanged())
  {
    ReachLaunched(cfg);
    var h := AtRun(map[3 := Invoking(Refused)]);
    ReachableStep(cfg, AtRun(map[3 := Invoking(Preparing)]), FirstLook(3, false), h);
    ReachableStep(cfg, h, HandleCall(4, "f"), RefusedChanged());
  }

  /**
   * Three reachable states in which a second change of the file may be lost: its task is still queued and
   * its run may yet fail before it looks at the file; its run found no regular file; Stop was called.
   */
  lemma ChangeCanBeSwallowed(cfg: Config)
    requires cfg.Valid()
    ensures Reachable(cfg, QueuedChanged()) && FindsPending(QueuedChanged(), 4, 1)
    ensures CanBeSwallowed(cfg, Entered(QueuedChanged(), 4), 1, false)
    ensures Reachable(cfg, RefusedChanged()) && FindsPending(RefusedChanged(), 4, 1)
    ensures CanBeSwallowed(cfg, Entered(RefusedChanged(), 4), 1, true)
    ensures Reachable(cfg, StoppedChanged()) && FindsPending(StoppedChanged(), 4, 1)
    ensures CanBeSwallowed(cfg, Entered(StoppedChanged(), 4), 1, true)
  {
    hide Reachable, FindsPending, CanBeSwallowed;
    QueuedIsSwallowed(cfg);
    RefusedIsSwallowed(cfg);
    StoppedIsSwallowed(cfg);
  }

  lemma QueuedIsSwallowed(cfg: Config)
    requires cfg.Valid()
    ensures Reachable(cfg, QueuedChanged()) && FindsPending(QueuedChanged(), 4, 1)
    ensures CanBeSwallowed(cfg, Entered(QueuedChanged(), 4), 1, false)
  {
    hide CanBeSwallowed;
    ReachQueuedChanged(cfg);
    var hs, acts :| IsHRun(cfg, hs, acts) && hs[|hs| - 1] == QueuedChanged();
    SwallowedIff(cfg, hs, acts, |hs| - 1, 4, 1);
  }

  lemma RefusedIsSwallowed(cfg: Config)
    requires cfg.Valid()
    ensures Reachable(cfg, RefusedChanged()) && FindsPending(RefusedChanged(), 4, 1)
    ensures CanBeSwallowed(cfg, Entered(RefusedChanged(), 4), 1, true)
  {
    hide CanBeSwallowed;
    ReachRefusedChanged(cfg);
    var hs, acts :| IsHRun(cfg, hs, acts) && hs[|hs| - 1] == RefusedChanged();
    assert RunIs(RefusedChanged(), 3, 1, Invoking(Refused));
    SwallowedByReliableIff(cfg, hs, acts, |hs| - 1, 4, 1);
  }

  lemma StoppedIsSwallowed(cfg: Config)
    requires cfg.Valid()
    ensures Reachable(cfg, StoppedChanged()) && FindsPending(StoppedChanged(), 4, 1)
    ensures CanBeSwallowed(cfg, Entered(StoppedChanged(), 4), 1, true)
  {
    hide CanBeSwallowed;
    ReachStoppedChanged(cfg);
    var hs, acts :| IsHRun(cfg, hs, acts) && hs[|hs| - 1] == StoppedChanged();
    assert StageOf(StoppedChanged(), 1) == Waiting;
    SwallowedByReliableIff(cfg, hs, acts, |hs| - 1, 4, 1);
  }
}
