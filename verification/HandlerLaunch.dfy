/**
 * A handler's task that waits can still be started, whatever else is queued and running, unless the
 * scheduler was stopped: the mutex is given up, runs end, and the loop launches what comes first.
 */
module HandlerLaunch {
  import opened Options
  import opened RetryStrategy
  import opened SchedulerCore
  import opened SchedulerProtocol
  import opened SchedulerSafety
  import opened SchedulerOrder
  import opened SequenceNumbers
  import opened HandlerProtocol
  import opened HandlerSafety
  import opened HandlerStages
  import opened HandlerFiles
  import opened HandlerProgress

  // ---------- Choices ----------

  lemma Above(s: set<nat>) returns (n: nat)
    ensures forall x | x in s :: x < n
  {
    n := 0;
    if s != {} {
      var x :| x in s;
      var m := Above(s - {x});
      n := if m <= x then x + 1 else m;
      assert forall y | y in s :: y == x || y in s - {x};
    }
  }

  lemma NewThread(h: HState) returns (x: ThreadId)
    ensures x !in h.hpc && x !in h.sched.threads
  {
    var n := Above(h.hpc.Keys + h.sched.threads.Keys);
    assert n !in h.hpc.Keys + h.sched.threads.Keys;
    x := n;
  }

  lemma EarliestOf(c: Core, ts: set<TaskId>) returns (m: TaskId)
    requires ts != {} && ts <= c.tasks.Keys
    ensures m in ts && forall u | u in ts :: c.Due(m) <= c.Due(u)
  {
    m :| m in ts;
    assert forall u | u in ts :: u == m || u in ts - {m};
    if ts - {m} != {} {
      var k := EarliestOf(c, ts - {m});
      m := if c.Due(k) < c.Due(m) then k else m;
    }
  }

  lemma OldestOf(ts: set<TaskId>) returns (m: TaskId)
    requires ts != {}
    ensures m in ts && forall u | u in ts :: m <= u
  {
    m :| m in ts;
    assert forall u | u in ts :: u == m || u in ts - {m};
    if ts - {m} != {} {
      var k := OldestOf(ts - {m});
      m := if k < m then k else m;
    }
  }

  /** With a task that could run there is one to run next. */
  lemma SomeNext(c: Core, now: int, t: TaskId) returns (m: TaskId)
    requires c.Known() && (t in c.byOrder || (t in c.byTime && c.Due(t) <= now))
    ensures Next(c, now, m)
  {
    if c.SomeDue(now) {
      m := EarliestOf(c, c.byTime);
    } else {
      m := OldestOf(c.byOrder);
      if WindowOk(c.byOrder) {
        forall u | u in c.byOrder
          ensures NotBelow(u, m)
        {
          SeqLessClose(u, m);
        }
      }
    }
  }

  // ---------- A free slot ----------

  lemma SomeRun(s: State) returns (r: ThreadId)
    requires ControlOk(s) && s.core.slots <= s.core.taskActiveCount
    ensures r in s.threads && IsRunner(s.threads[r])
  {
    assert Runners(s) != {};
    r :| r in Runners(s);
  }

  /** t is queued, the scheduler goes on, and nobody has the handler's mutex. */
  ghost predicate InLine(cfg: Config, f: FState, t: TaskId) {
    Present(cfg, f, t) && InQueue(f.h.sched.core, t) && f.h.mu == None && !f.h.sched.core.stopRequested
  }

  lemma ActiveIsNatural(cfg: Config, f: FState)
    requires FInv(cfg, f)
    ensures 0 <= f.h.sched.core.taskActiveCount && ControlOk(f.h.sched)
  {
  }

  /** Runs end until a slot is free. */
  lemma {:induction false} SlotFreed(cfg: Config, f: FState, t: TaskId) returns (f': FState)
    requires InLine(cfg, f, t)
    ensures Reaches(cfg, f, f', t) && InLine(cfg, f', t) && f'.h.sched.core.taskActiveCount < f'.h.sched.core.slots
    decreases f.h.sched.core.taskActiveCount
  {
    hide FInv, Leads, StageOf;
    ActiveIsNatural(cfg, f);
    if f.h.sched.core.taskActiveCount < f.h.sched.core.slots {
      ReachesSelf(cfg, f, t);
      f' := f;
    } else {
      var r := SomeRun(f.h.sched);
      hide ControlOk;
      var f1 := RunEnded(cfg, f, r, t);
      f' := SlotFreed(cfg, f1, t);
      ReachesOn(cfg, f, f1, f', t);
    }
  }

  // ---------- The loop at its top ----------

  /** The loop is about to lock, with a slot to give. */
  ghost predicate LoopIsTop(s: State, l: ThreadId) {
    l in s.threads && s.threads[l].LoopTop? && s.core.taskActiveCount < s.core.slots
  }

  /** One step aside from t in which nothing can fail. */
  lemma StepAside(cfg: Config, f: FState, a: HAction, t: TaskId) returns (f1: FState)
    requires Present(cfg, f, t) && HTyped(f.h) && HEnabled(f.h, a) && IsOrdinary(a) && !a.InvokeReturn?
    requires RunnerSteps(f.h, a, t) ==> a.Unlock? || a.InvokeDone?
    ensures Reaches(cfg, f, f1, t) && f1.h == HApply(cfg, f.h, a)
  {
    var b := Act(a, QUIET);
    QuietAside(cfg, f, a, t);
    AsideStaysPresent(cfg, f, b, t);
    f1 := FApply(cfg, f, b);
    ReachesSelf(cfg, f1, t);
    ReachesAfter(cfg, f, b, f1, t);
  }

  /** A step of the scheduler that is not in the handler's code. */
  lemma SchedAside(cfg: Config, f: FState, a: Action, t: TaskId) returns (f1: FState)
    requires Present(cfg, f, t) && HTyped(f.h) && Enabled(f.h.sched, a) && NotHandlers(f.h, a)
    requires IsOrdinary(SchedStep(a))
    ensures Reaches(cfg, f, f1, t) && f1.h.sched == Apply(f.h.sched, a) && f1.h.mu == f.h.mu
    ensures f1.h == HApply(cfg, f.h, SchedStep(a))
  {
    hide FInv, StageOf, Leads, Kept;
    f1 := StepAside(cfg, f, SchedStep(a), t);
  }

  /** A step that brings the loop to its top and leaves tasks, queues and slots alone. */
  ghost predicate BringsToTop(s: State, a: Action, l: ThreadId) {
    && (a == Start(l) || a == LoopNotified(l) || a == LoopTimer(l)) && Typed(s) && Enabled(s, a)
  }

  lemma BroughtToTop(s: State, a: Action, l: ThreadId)
    requires BringsToTop(s, a, l)
    ensures var s' := Apply(s, a);
      && l in s'.threads && s'.threads[l].LoopTop? && s'.core == s.core.(loopActiveCount := s'.core.loopActiveCount)
  {
  }

  lemma ToTopBy(cfg: Config, f: FState, a: Action, l: ThreadId, t: TaskId) returns (f': FState)
    requires InLine(cfg, f, t) && f.h.sched.core.taskActiveCount < f.h.sched.core.slots
    requires HTyped(f.h) && BringsToTop(f.h.sched, a, l) && NotHandlers(f.h, a)
    ensures Reaches(cfg, f, f', t) && InLine(cfg, f', t) && LoopIsTop(f'.h.sched, l)
  {
    hide FInv, Leads, StageOf, HTyped, HApply;
    BroughtToTop(f.h.sched, a, l);
    f' := SchedAside(cfg, f, a, t);
  }

  lemma NotificationArrives(s: State, u: ThreadId, l: ThreadId)
    requires Typed(s) && !s.panicked && l in s.threads && s.threads[l].LoopWait?
    requires u in s.threads && WillNotify(s.threads[u])
    ensures Enabled(s, SetNotification(u))
    ensures var s1 := Apply(s, SetNotification(u)); s1.core == s.core && BringsToTop(s1, LoopNotified(l), l)
  {
  }

  /** How long the loop's timer has still to run. */
  function TimeLeft(s: State, l: ThreadId): nat
    requires l in s.threads && s.threads[l].LoopWait? && s.threads[l].timer.Some?
  {
    if s.threads[l].timer.value < s.now then 0 else s.threads[l].timer.value - s.now
  }

  lemma TimerFires(s: State, l: ThreadId)
    requires Typed(s) && !s.panicked && l in s.threads && s.threads[l].LoopWait? && s.threads[l].timer.Some?
    ensures Enabled(s, Tick(TimeLeft(s, l)))
    ensures var s1 := Apply(s, Tick(TimeLeft(s, l))); s1.core == s.core && BringsToTop(s1, LoopTimer(l), l)
  {
  }

  /** The loop is woken by its event or its timer once the step a is taken. */
  lemma ToTopAfter(cfg: Config, f: FState, a: Action, wake: Action, l: ThreadId, t: TaskId) returns (f': FState)
    requires InLine(cfg, f, t) && f.h.sched.core.taskActiveCount < f.h.sched.core.slots
    requires HTyped(f.h) && Enabled(f.h.sched, a) && (a.Tick? || a.SetNotification?)
    requires var s1 := Apply(f.h.sched, a); s1.core == f.h.sched.core && BringsToTop(s1, wake, l) && !wake.Start?
    ensures Reaches(cfg, f, f', t) && InLine(cfg, f', t) && LoopIsTop(f'.h.sched, l)
  {
    hide FInv, Leads, StageOf, HApply, Apply, Enabled;
    var f1 := SchedAside(cfg, f, a, t);
    TypedAfter(cfg, f1, t);
    f' := ToTopBy(cfg, f1, wake, l, t);
    ReachesOn(cfg, f, f1, f', t);
  }

  lemma TypedAfter(cfg: Config, f: FState, t: TaskId)
    requires Present(cfg, f, t)
    ensures HTyped(f.h) && !f.h.sched.panicked && TasksOk(f.h.sched)
  {
  }

  lemma SomeLoop(s: State) returns (l: ThreadId)
    requires ControlOk(s) && s.core.loopActiveCount != 0 && !s.core.stopRequested
    ensures l in s.threads && (s.threads[l].LoopTop? || s.threads[l].LoopWait?)
  {
    assert Loopers(s) != {};
    l :| l in Loopers(s);
  }

  /** The loop waits, and has been notified, will be, or has a timer for the queued task. */
  lemma LoopWakes(s: State, l: ThreadId, t: TaskId)
    requires s.core.Known() && WakeOk(s) && l in s.threads && s.threads[l].LoopWait? && InQueue(s.core, t)
    requires s.core.taskActiveCount < s.core.slots
    ensures s.loopNotification || NotifyPending(s) || s.threads[l].timer.Some?
  {
  }

  lemma NotifiedNow(s: State, l: ThreadId)
    requires Typed(s) && !s.panicked && l in s.threads && s.threads[l].LoopWait? && s.loopNotification
    ensures BringsToTop(s, LoopNotified(l), l)
  {
  }

  lemma WokenByNotification(cfg: Config, f: FState, l: ThreadId, t: TaskId) returns (f': FState)
    requires InLine(cfg, f, t) && f.h.sched.core.taskActiveCount < f.h.sched.core.slots
    requires l in f.h.sched.threads && f.h.sched.threads[l].LoopWait?
    requires f.h.sched.loopNotification || NotifyPending(f.h.sched)
    ensures Reaches(cfg, f, f', t) && InLine(cfg, f', t) && LoopIsTop(f'.h.sched, l)
  {
    hide FInv, Leads, StageOf, Kept, Apply, Enabled, HTyped, TasksOk;
    TypedAfter(cfg, f, t);
    if f.h.sched.loopNotification {
      NotifiedNow(f.h.sched, l);
      f' := ToTopBy(cfg, f, LoopNotified(l), l, t);
    } else {
      var u :| u in f.h.sched.threads && WillNotify(f.h.sched.threads[u]);
      NotificationArrives(f.h.sched, u, l);
      hide WillNotify;
      f' := ToTopAfter(cfg, f, SetNotification(u), LoopNotified(l), l, t);
    }
  }

  lemma WokenToTop(cfg: Config, f: FState, l: ThreadId, t: TaskId) returns (f': FState)
    requires InLine(cfg, f, t) && f.h.sched.core.taskActiveCount < f.h.sched.core.slots
    requires l in f.h.sched.threads && f.h.sched.threads[l].LoopWait?
    ensures Reaches(cfg, f, f', t) && InLine(cfg, f', t) && LoopIsTop(f'.h.sched, l)
  {
    TypedAfter(cfg, f, t);
    LoopWakes(f.h.sched, l, t);
    hide FInv, Leads, StageOf, Apply, Enabled, NotifyPending;
    if f.h.sched.loopNotification || NotifyPending(f.h.sched) {
      f' := WokenByNotification(cfg, f, l, t);
    } else {
      TimerFires(f.h.sched, l);
      f' := ToTopAfter(cfg, f, Tick(TimeLeft(f.h.sched, l)), LoopTimer(l), l, t);
    }
  }

  lemma StartEnabled(h: HState) returns (l: ThreadId)
    requires HTyped(h) && !h.sched.panicked && h.sched.core.loopActiveCount == 0 && !h.sched.core.stopRequested
    ensures BringsToTop(h.sched, Start(l), l) && NotHandlers(h, Start(l))
  {
    l := NewThread(h);
  }

  lemma ToTopByStart(cfg: Config, f: FState, t: TaskId) returns (f': FState, l: ThreadId)
    requires InLine(cfg, f, t) && f.h.sched.core.taskActiveCount < f.h.sched.core.slots
    requires f.h.sched.core.loopActiveCount == 0
    ensures Reaches(cfg, f, f', t) && InLine(cfg, f', t) && LoopIsTop(f'.h.sched, l)
  {
    TypedAfter(cfg, f, t);
    hide FInv, Leads, StageOf, HTyped, Apply, Enabled;
    l := StartEnabled(f.h);
    f' := ToTopBy(cfg, f, Start(l), l, t);
  }

  /** The loop is started, or woken, or already about to lock. */
  lemma ToTop(cfg: Config, f: FState, t: TaskId) returns (f': FState, l: ThreadId)
    requires InLine(cfg, f, t) && f.h.sched.core.taskActiveCount < f.h.sched.core.slots
    ensures Reaches(cfg, f, f', t) && InLine(cfg, f', t) && LoopIsTop(f'.h.sched, l)
  {
    assert ControlOk(f.h.sched);
    hide FInv, Leads, StageOf, Kept;
    if f.h.sched.core.loopActiveCount == 0 {
      f', l := ToTopByStart(cfg, f, t);
    } else {
      l := SomeLoop(f.h.sched);
      hide ControlOk;
      if f.h.sched.threads[l].LoopTop? {
        ReachesSelf(cfg, f, t);
        f' := f;
      } else {
        f' := WokenToTop(cfg, f, l, t);
      }
    }
  }

  // ---------- From the queue to a run ----------

  /** t has no due time, or it has come. */
  ghost predicate IsDue(s: State, t: TaskId) {
    t in s.core.byOrder || (t in s.core.byTime && t in s.core.tasks && s.core.Due(t) <= s.now)
  }

  /** The loop launches what comes first. */
  lemma LaunchEnabled(h: HState, l: ThreadId, t: TaskId) returns (m: TaskId, r: ThreadId)
    requires HTyped(h) && !h.sched.panicked && !h.sched.core.stopRequested && IsDue(h.sched, t) && LoopIsTop(h.sched, l)
    ensures Enabled(h.sched, LoopLaunch(l, m, r)) && NotHandlers(h, LoopLaunch(l, m, r))
  {
    m := SomeNext(h.sched.core, h.sched.now, t);
    r := NewThread(h);
  }

  /** Another task than t has been launched: it is doomed, and t is as before. */
  ghost predicate LaunchedOther(h: HState, h': HState, r: ThreadId, t: TaskId) {
    && Ending(h', r) && Doomed(h', r) && TopsStay(h.sched, h'.sched)
    && Length(h'.sched.core) == Length(h.sched.core) - 1 && IsDue(h'.sched, t)
    && h'.sched.core.slots == h.sched.core.slots
    && h'.sched.core.taskActiveCount == h.sched.core.taskActiveCount + 1
  }

  /** A launch takes one task from the queues. */
  lemma DequeueShortens(c: Core, m: TaskId)
    requires m in c.tasks && (m in c.byOrder <==> m !in c.byTime)
    ensures Length(Launched(c, m)) == Length(c) - 1
  {
    CardinalityWithout(c.byOrder, m);
    CardinalityWithout(c.byTime, m);
  }

  lemma LaunchShortens(s: State, l: ThreadId, m: TaskId, r: ThreadId)
    requires TasksOk(s) && Enabled(s, LoopLaunch(l, m, r))
    ensures Length(Apply(s, LoopLaunch(l, m, r)).core) == Length(s.core) - 1
  {
    assert InOnePlace(s, m);
    hide TasksOk, Length;
    DequeueShortens(s.core, m);
    LengthOfLaunch(s, l, m, r);
  }

  lemma LengthOfLaunch(s: State, l: ThreadId, m: TaskId, r: ThreadId)
    requires Typed(s) && Enabled(s, LoopLaunch(l, m, r))
    ensures Length(Apply(s, LoopLaunch(l, m, r)).core) == Length(Launched(s.core, m))
  {
  }

  lemma LaunchesOther(cfg: Config, h: HState, l: ThreadId, m: TaskId, r: ThreadId, t: TaskId)
    requires HTyped(h) && HEnabled(h, SchedStep(LoopLaunch(l, m, r))) && h.mu == None && m != t && IsDue(h.sched, t)
    requires Length(Apply(h.sched, LoopLaunch(l, m, r)).core) == Length(h.sched.core) - 1
    ensures LaunchedOther(h, HApply(cfg, h, SchedStep(LoopLaunch(l, m, r))), r, t)
  {
    hide Length;
  }

  lemma LaunchedPrepares(cfg: Config, h: HState, a: HAction, t: TaskId)
    requires HTyped(h) && HEnabled(h, a) && t in h.names && a.SchedStep? && LaunchOf(a.a, t)
    ensures RunIs(HApply(cfg, h, a), a.a.runner, t, Invoking(Preparing))
  {
  }

  /** Others that come first are launched, and end without being queued again, until it is t's turn. */
  lemma {:induction false} LaunchedWhenDue(cfg: Config, f: FState, l: ThreadId, t: TaskId)
    returns (f': FState, u: ThreadId)
    requires InLine(cfg, f, t) && LoopIsTop(f.h.sched, l) && IsDue(f.h.sched, t)
    ensures Reaches(cfg, f, f', t) && RunIs(f'.h, u, t, Invoking(Preparing))
    decreases Length(f.h.sched.core), 0
  {
    TypedAfter(cfg, f, t);
    var m, r := LaunchEnabled(f.h, l, t);
    var f1 := SchedAside(cfg, f, LoopLaunch(l, m, r), t);
    if m == t {
      LaunchedPrepares(cfg, f.h, SchedStep(LoopLaunch(l, t, r)), t);
      f', u := f1, r;
    } else {
      assert TasksOk(f.h.sched);
      hide FInv, Leads, StageOf, HApply, Apply, Length, Doomed;
      LaunchShortens(f.h.sched, l, m, r);
      LaunchesOther(cfg, f.h, l, m, r, t);
      var f2 := RunEnded(cfg, f1, r, t);
      SameLength(f1.h.sched, f2.h.sched);
      f', u := LaunchedInTurn(cfg, f2, l, t);
      ReachesOn(cfg, f, f1, f2, t);
      ReachesOn(cfg, f, f2, f', t);
    }
  }

  lemma SameLength(s: State, s': State)
    requires SameQueues(s, s')
    ensures Length(s'.core) == Length(s.core)
  {
  }

  lemma ComesDue(s: State, t: TaskId)
    requires Typed(s) && !s.panicked && InQueue(s.core, t) && !IsDue(s, t)
    ensures t in s.core.tasks && s.now < s.core.Due(t)
    ensures var s' := Apply(s, Tick(s.core.Due(t) - s.now)); s' == s.(now := s'.now) && IsDue(s', t)
  {
  }

  /** Time passes until t is due. */
  lemma {:induction false} LaunchedInTurn(cfg: Config, f: FState, l: ThreadId, t: TaskId)
    returns (f': FState, u: ThreadId)
    requires InLine(cfg, f, t) && LoopIsTop(f.h.sched, l)
    ensures Reaches(cfg, f, f', t) && RunIs(f'.h, u, t, Invoking(Preparing))
    decreases Length(f.h.sched.core), 1
  {
    hide FInv, Leads, StageOf, HApply, Length, TasksOk, HTyped;
    TypedAfter(cfg, f, t);
    if IsDue(f.h.sched, t) {
      f', u := LaunchedWhenDue(cfg, f, l, t);
    } else {
      ComesDue(f.h.sched, t);
      hide Apply, IsDue;
      var f1 := SchedAside(cfg, f, Tick(f.h.sched.core.Due(t) - f.h.sched.now), t);
      f', u := LaunchedWhenDue(cfg, f1, l, t);
      ReachesOn(cfg, f, f1, f', t);
    }
  }

  /** From the queue to a run: the mutex is given up, a slot becomes free, and the loop gets to t. */
  lemma LaunchedFromQueue(cfg: Config, f: FState, t: TaskId) returns (f': FState, u: ThreadId)
    requires Present(cfg, f, t) && !f.h.sched.core.stopRequested && InQueue(f.h.sched.core, t)
    ensures Reaches(cfg, f, f', t) && RunIs(f'.h, u, t, Invoking(Preparing))
  {
    QueuedIsUnlocked(cfg, f, t);
    hide FInv, Leads, StageOf, RunIs;
    var f1 := MutexFreed(cfg, f, t);
    var f2 := SlotFreed(cfg, f1, t);
    ReachesOn(cfg, f, f1, f2, t);
    var f3, l := ToTop(cfg, f2, t);
    ReachesOn(cfg, f, f2, f3, t);
    f', u := LaunchedInTurn(cfg, f3, l, t);
    ReachesOn(cfg, f, f3, f', t);
  }

  lemma QueuedIsUnlocked(cfg: Config, f: FState, t: TaskId)
    requires FInv(cfg, f) && InQueue(f.h.sched.core, t)
    ensures !Locked(f.h, t)
  {
    assert InOnePlace(f.h.sched, t);
    assert Locked(f.h, t) ==> Owns(f.h.sched, f.h.mu.value, t);
  }

  // ---------- From a thread to the queue ----------

  /** How thread u puts the task it holds into a queue. */
  function QueuingStep(s: State, u: ThreadId): Action {
    if u in s.threads && s.threads[u].AddLock? then AddEnqueue(u) else TaskFinish(u)
  }

  lemma JoinsQueue(s: State, u: ThreadId, t: TaskId)
    requires TasksOk(s) && u in s.threads && (s.threads[u] == AddLock(t) || s.threads[u] == Returned(t, false))
    ensures Enabled(s, QueuingStep(s, u)) && InQueue(Apply(s, QueuingStep(s, u)).core, t)
  {
    NoPanic(s, QueuingStep(s, u));
    hide TasksOk;
  }

  /** The thread that adds t, or brings back its wish for a retry, puts it into a queue. */
  lemma QueuedByThread(cfg: Config, f: FState, u: ThreadId, t: TaskId) returns (f': FState)
    requires Present(cfg, f, t) && u in f.h.sched.threads
    requires f.h.sched.threads[u] == AddLock(t) || f.h.sched.threads[u] == Returned(t, false)
    ensures Reaches(cfg, f, f', t) && InQueue(f'.h.sched.core, t)
  {
    hide FInv, StageOf, Leads, Kept, HApply, Apply, TasksOk, Enabled, HTyped;
    TypedAfter(cfg, f, t);
    JoinsQueue(f.h.sched, u, t);
    f' := SchedAside(cfg, f, QueuingStep(f.h.sched, u), t);
  }

  lemma DoneReturns(cfg: Config, h: HState, u: ThreadId, t: TaskId)
    requires HTyped(h) && HEnabled(h, InvokeDone(u)) && h.hpc[u].outcome.Retry? && TaskOf(h, u) == t
    ensures var s' := HApply(cfg, h, InvokeDone(u)).sched; u in s'.threads && s'.threads[u] == Returned(t, false)
  {
  }

  lemma QueuedAfterLeft(cfg: Config, f: FState, u: ThreadId, t: TaskId) returns (f': FState)
    requires Present(cfg, f, t) && u in f.h.hpc && RunIs(f.h, u, t, f.h.hpc[u])
    requires f.h.hpc[u].Left? && f.h.hpc[u].outcome.Retry?
    ensures Reaches(cfg, f, f', t) && InQueue(f'.h.sched.core, t)
  {
    TypedAfter(cfg, f, t);
    RetryIsEnabled(cfg, f.h, u);
    DoneReturns(cfg, f.h, u, t);
    hide FInv, StageOf, Leads, Kept, HApply;
    var f1 := StepAside(cfg, f, InvokeDone(u), t);
    f' := QueuedByThread(cfg, f1, u, t);
    ReachesOn(cfg, f, f1, f', t);
  }

  lemma UnlockLeaves(cfg: Config, h: HState, u: ThreadId, t: TaskId)
    requires HTyped(h) && u in h.hpc && RunIs(h, u, t, h.hpc[u]) && h.hpc[u].Leaving?
    ensures HEnabled(h, Unlock(u)) && RunIs(HApply(cfg, h, Unlock(u)), u, t, Left(h.hpc[u].outcome))
  {
  }

  lemma QueuedAfterLeaving(cfg: Config, f: FState, u: ThreadId, t: TaskId) returns (f': FState)
    requires Present(cfg, f, t) && u in f.h.hpc && RunIs(f.h, u, t, f.h.hpc[u])
    requires f.h.hpc[u].Leaving? && f.h.hpc[u].outcome.Retry?
    ensures Reaches(cfg, f, f', t) && InQueue(f'.h.sched.core, t)
  {
    TypedAfter(cfg, f, t);
    UnlockLeaves(cfg, f.h, u, t);
    hide FInv, StageOf, Leads, Kept, HApply;
    var f1 := StepAside(cfg, f, Unlock(u), t);
    f' := QueuedAfterLeft(cfg, f1, u, t);
    ReachesOn(cfg, f, f1, f', t);
  }

  /** Where a waiting task is, unless the scheduler was stopped. */
  lemma WaitingPlace(h: HState, t: TaskId) returns (u: ThreadId)
    requires BaseOk(h) && t in h.names && StageOf(h, t) == Waiting && !h.sched.core.stopRequested
    ensures
      || InQueue(h.sched.core, t)
      || (u in h.sched.threads && (h.sched.threads[u] == AddLock(t) || h.sched.threads[u] == Returned(t, false)))
      || (&& u in h.hpc && RunIs(h, u, t, h.hpc[u]) && (h.hpc[u].Leaving? || h.hpc[u].Left?)
          && h.hpc[u].outcome.Retry?)
  {
    assert InOnePlace(h.sched, t);
    u := 0;
    if Held(h.sched, t) {
      u :| Owns(h.sched, u, t);
      StageOfHeld(h, u, t);
      assert u in h.hpc ==> Linked(h, u);
    }
  }

  lemma QueuedFromWaiting(cfg: Config, f: FState, t: TaskId) returns (f': FState)
    requires Present(cfg, f, t) && StageOf(f.h, t) == Waiting && !f.h.sched.core.stopRequested
    ensures Reaches(cfg, f, f', t) && InQueue(f'.h.sched.core, t)
  {
    var u := WaitingPlace(f.h, t);
    hide FInv, StageOf, Leads, Kept, InQueue;
    if InQueue(f.h.sched.core, t) {
      ReachesSelf(cfg, f, t);
      f' := f;
    } else if u in f.h.sched.threads && !f.h.sched.threads[u].Running? {
      f' := QueuedByThread(cfg, f, u, t);
    } else if f.h.hpc[u].Left? {
      f' := QueuedAfterLeft(cfg, f, u, t);
    } else {
      f' := QueuedAfterLeaving(cfg, f, u, t);
    }
  }

  /** From every state a waiting task can be started, unless the scheduler was stopped. */
  lemma WaitingStarts(cfg: Config, f: FState, t: TaskId) returns (f': FState, u: ThreadId)
    requires Present(cfg, f, t) && StageOf(f.h, t) == Waiting && !f.h.sched.core.stopRequested
    ensures Reaches(cfg, f, f', t) && RunIs(f'.h, u, t, Invoking(Preparing))
  {
    hide FInv, StageOf, Leads;
    var f1 := QueuedFromWaiting(cfg, f, t);
    f', u := LaunchedFromQueue(cfg, f1, t);
    ReachesOn(cfg, f, f1, f', t);
  }

  // ---------- After a stop ----------

  /** The stop flag stays set. */
  lemma StopLasts(cfg: Config, h: HState, a: HAction)
    requires BaseOk(h) && HEnabled(h, a) && h.sched.core.stopRequested
    ensures HApply(cfg, h, a).sched.core.stopRequested
  {
    SchedKept(h, a);
    if SchedAction(h, a).Some? && !SchedAction(h, a).value.Tick? {
      StopThreadsFollowFlag(h.sched, SchedAction(h, a).value);
    }
  }

  /** Once the stop flag is set, a waiting task is never started. */
  lemma StoppedStaysWaiting(cfg: Config, h: HState, a: HAction, t: TaskId)
    requires BaseOk(h) && HEnabled(h, a) && t in h.names && StageOf(h, t) == Waiting && h.sched.core.stopRequested
    ensures var h' := HApply(cfg, h, a); StageOf(h', t) == Waiting && h'.sched.core.stopRequested
  {
    hide HApply;
    StopLasts(cfg, h, a);
    StageStep(cfg, h, a, t);
    StageBefore(h, a, t);
  }

  /** Steps aside from t can lead to a run of it that is about to look at the file as it is now. */
  ghost predicate CanStart(cfg: Config, f: FState, t: TaskId) {
    exists f', u :: Leads(cfg, f, f', t) && Kept(f, f', t) && RunIs(f'.h, u, t, Invoking(Preparing))
  }

  lemma {:induction false} StoppedNeverLeads(cfg: Config, f: FState, acts: seq<FAction>, f': FState, t: TaskId)
    requires FInv(cfg, f) && t in f.h.names && StageOf(f.h, t) == Waiting && f.h.sched.core.stopRequested
    requires Path(cfg, f, acts, f', t)
    ensures FInv(cfg, f') && StageOf(f'.h, t) == Waiting
    decreases |acts|
  {
    if acts != [] {
      hide StageOf, HApply;
      FInvStep(cfg, f, acts[0]);
      AsideEffect(cfg, f, acts[0], t);
      StoppedStaysWaiting(cfg, f.h, acts[0].a, t);
      StoppedNeverLeads(cfg, FApply(cfg, f, acts[0]), acts[1..], f', t);
    }
  }

  lemma StoppedCannotStart(cfg: Config, f: FState, t: TaskId)
    requires FInv(cfg, f) && t in f.h.names && StageOf(f.h, t) == Waiting && f.h.sched.core.stopRequested
    ensures !CanStart(cfg, f, t)
  {
    hide StageOf;
    forall f', u | Leads(cfg, f, f', t) && RunIs(f'.h, u, t, Invoking(Preparing))
      ensures false
    {
      var acts :| Path(cfg, f, acts, f', t);
      StoppedNeverLeads(cfg, f, acts, f', t);
      RunIsTried(f'.h, u, t, Invoking(Preparing));
    }
  }

  lemma GoingCanStart(cfg: Config, f: FState, t: TaskId)
    requires FInv(cfg, f) && t in f.h.names && StageOf(f.h, t) == Waiting && !f.h.sched.core.stopRequested
    ensures CanStart(cfg, f, t)
  {
    hide FInv, StageOf, Leads, Kept, RunIs;
    var f', u := WaitingStarts(cfg, f, t);
  }

  /**
   * In every reachable state a waiting task can be started exactly if the scheduler was not stopped,
   * whatever else is queued and running and whoever holds the handler's mutex. It takes no calls from
   * outside other than that of Start: runs end, the mutex is given up, the loop is woken and gets to it.
   */
  lemma WaitingCanStart(cfg: Config, fs: seq<FState>, acts: seq<FAction>, i: nat, t: TaskId)
    requires cfg.Valid() && IsFRun(cfg, fs, acts) && i < |fs| && t in fs[i].h.names && StageOf(fs[i].h, t) == Waiting
    ensures CanStart(cfg, fs[i], t) <==> !fs[i].h.sched.core.stopRequested
  {
    hide FInv, StageOf, CanStart;
    FInvHolds(cfg, fs, acts, i);
    if fs[i].h.sched.core.stopRequested {
      StoppedCannotStart(cfg, fs[i], t);
    } else {
      GoingCanStart(cfg, fs[i], t);
    }
  }
}
