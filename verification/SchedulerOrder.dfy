/** When tasks start: slots, due times, the spacing of retries and the order of insertion. */
module SchedulerOrder {
  import opened Options
  import opened SchedulerCore
  import opened SchedulerProtocol
  import opened SchedulerRuns
  import opened SchedulerSafety
  import opened SequenceNumbers

  function Max(a: int, b: int): int {
    if a < b then b else a
  }

  ghost predicate LaunchOf(a: Action, t: TaskId) {
    a.LoopLaunch? && a.task == t
  }

  // ---------- Slots ----------

  lemma SlotsKept(s: State, a: Action)
    requires Typed(s) && Enabled(s, a) && !Panics(s, a) && !a.Tick? && !a.SetSlots?
    ensures NextCore(s, a).slots == s.core.slots
    ensures NextCore(s, a).taskActiveCount <= Max(s.core.slots, s.core.taskActiveCount)
    ensures a.LoopLaunch? ==> s.core.taskActiveCount < s.core.slots
  {
    ActiveCountFollowsRunners(s, a);
  }

  /** Between two calls of SetSlots the active count exceeds the slots only by what was running before. */
  lemma {:induction false} SlotBound(ss: seq<State>, acts: seq<Action>, i: nat, j: nat)
    requires IsRun(ss, acts) && i <= j < |ss| && forall k | i <= k < j :: !acts[k].SetSlots?
    ensures 1 <= ss[j].core.slots == ss[i].core.slots
    ensures ss[j].core.taskActiveCount <= Max(ss[j].core.slots, ss[i].core.taskActiveCount)
    decreases j
  {
    InvHolds(ss, acts, j);
    if i < j {
      SlotBound(ss, acts, i, j - 1);
      RunStep(ss, acts, j - 1);
      if !acts[j - 1].Tick? {
        SlotsKept(ss[j - 1], acts[j - 1]);
      }
    }
  }

  /** Every launch finds a free slot. */
  lemma LaunchNeedsSlot(ss: seq<State>, acts: seq<Action>, i: nat)
    requires IsRun(ss, acts) && i < |acts| && acts[i].LoopLaunch?
    ensures ss[i].core.taskActiveCount < ss[i].core.slots
      && ss[i + 1].core.taskActiveCount == ss[i].core.taskActiveCount + 1
  {
    RunStep(ss, acts, i);
    SlotsKept(ss[i], acts[i]);
    ActiveCountFollowsRunners(ss[i], acts[i]);
  }

  // ---------- Due times ----------

  lemma LaunchIsDue(s: State, a: Action)
    requires Inv(s) && Enabled(s, a) && a.LoopLaunch?
    ensures a.task in s.core.tasks && s.core.Due(a.task) <= s.now
  {
    assert RecordOk(s, a.task);
  }

  /** No task starts before its due time. */
  lemma NeverStartsEarly(ss: seq<State>, acts: seq<Action>, i: nat)
    requires IsRun(ss, acts) && i < |acts| && acts[i].LoopLaunch?
    ensures acts[i].task in ss[i].core.tasks && ss[i].core.Due(acts[i].task) <= ss[i].now
  {
    RunStep(ss, acts, i);
    LaunchIsDue(ss[i], acts[i]);
  }

  /** t is due at d and no thread executes it, or d has passed. */
  ghost predicate HeldBack(s: State, t: TaskId, d: int) {
    || d <= s.now
    || (t in s.core.tasks && s.core.Due(t) == d && forall th | th in s.threads :: s.threads[th] != Running(t))
  }

  /** A due time changes only by the step in which the task's function returns. */
  lemma DueChangesOnReturn(s: State, a: Action, t: TaskId)
    requires Typed(s) && Enabled(s, a) && !Panics(s, a) && !a.Tick? && t in s.core.tasks && t <= s.counter
    ensures t in NextCore(s, a).tasks
    ensures NextCore(s, a).Due(t) == s.core.Due(t) || (a.TaskReturn? && s.threads[a.th] == Running(t))
  {
  }

  lemma OnlyLaunchRuns(s: State, a: Action, t: TaskId)
    requires Typed(s) && Enabled(s, a) && !Panics(s, a) && !a.Tick?
    ensures NextPc(s, a) == Some(Running(t)) ==> LaunchOf(a, t)
  {
  }

  lemma HeldBackStep(s: State, a: Action, t: TaskId, d: int)
    requires Inv(s) && Enabled(s, a) && !Panics(s, a) && HeldBack(s, t, d)
    ensures HeldBack(Apply(s, a), t, d)
  {
    if s.now < d {
      assert RecordOk(s, t);
      if LaunchOf(a, t) {
        LaunchIsDue(s, a);
      }
    }
    HeldBackKept(s, a, t, d);
  }

  lemma HeldBackKept(s: State, a: Action, t: TaskId, d: int)
    requires Typed(s) && Enabled(s, a) && !Panics(s, a) && HeldBack(s, t, d)
    requires s.now < d ==> t <= s.counter && !LaunchOf(a, t)
    ensures HeldBack(Apply(s, a), t, d)
  {
    if s.now < d && !a.Tick? {
      DueChangesOnReturn(s, a, t);
      OnlyLaunchRuns(s, a, t);
    }
  }

  lemma RetryHoldsBack(s: State, th: ThreadId, d: int)
    requires Inv(s) && Enabled(s, TaskReturn(th, Retry(d)))
    ensures HeldBack(Apply(s, TaskReturn(th, Retry(d))), s.threads[th].task, s.now + d)
  {
    var t := s.threads[th].task;
    assert forall u | u in s.threads && s.threads[u] == Running(t) :: Owns(s, u, t) && Owns(s, th, t);
  }

  lemma RetryHoldsBackInRun(ss: seq<State>, acts: seq<Action>, i: nat, th: ThreadId, d: int)
    requires IsRun(ss, acts) && i < |acts| && acts[i] == TaskReturn(th, Retry(d))
    ensures th in ss[i].threads && ss[i].threads[th].Running?
      && HeldBack(ss[i + 1], ss[i].threads[th].task, ss[i].now + d)
  {
    RunStep(ss, acts, i);
    RetryHoldsBack(ss[i], th, d);
  }

  lemma HeldBackInRun(ss: seq<State>, acts: seq<Action>, i: nat, t: TaskId, d: int)
    requires IsRun(ss, acts) && i < |acts| && HeldBack(ss[i], t, d)
    ensures HeldBack(ss[i + 1], t, d)
  {
    RunStep(ss, acts, i);
    HeldBackStep(ss[i], acts[i], t, d);
  }

  lemma {:induction false} HeldBackLater(ss: seq<State>, acts: seq<Action>, i: nat, j: nat, t: TaskId, d: int)
    requires IsRun(ss, acts) && i <= j < |ss| && HeldBack(ss[i], t, d)
    ensures HeldBack(ss[j], t, d)
    decreases j
  {
    assert |ss| == |acts| + 1;
    hide IsRun, HeldBack;
    if i < j {
      HeldBackLater(ss, acts, i, j - 1, t, d);
      HeldBackInRun(ss, acts, j - 1, t, d);
    }
  }

  lemma LaunchedAfter(ss: seq<State>, acts: seq<Action>, i: nat, j: nat, t: TaskId, d: int)
    requires IsRun(ss, acts) && i <= j < |acts| && HeldBack(ss[i], t, d) && LaunchOf(acts[j], t)
    ensures d <= ss[j].now
  {
    HeldBackLater(ss, acts, i, j, t, d);
    RunStep(ss, acts, j);
    LaunchIsDue(ss[j], acts[j]);
  }

  /** After a task asked for a retry in d, every later start of it is at least d later. */
  lemma RetrySpacing(ss: seq<State>, acts: seq<Action>, i: nat, j: nat, th: ThreadId, d: int)
    requires IsRun(ss, acts) && i < j < |acts| && acts[i] == TaskReturn(th, Retry(d))
    requires th in ss[i].threads && ss[i].threads[th].Running? && LaunchOf(acts[j], ss[i].threads[th].task)
    ensures ss[i].now + d <= ss[j].now
  {
    RetryHoldsBackInRun(ss, acts, i, th, d);
    LaunchedAfter(ss, acts, i + 1, j, ss[i].threads[th].task, ss[i].now + d);
  }

  // ---------- Adding ----------

  /** Thread th is about to queue the new task t, which is due at d. */
  ghost predicate Adding(s: State, th: ThreadId, t: TaskId, d: int) {
    && th in s.threads && s.threads[th] == AddLock(t) && t in s.core.tasks && s.core.Due(t) == d
    && t !in s.core.byOrder && t !in s.core.byTime && ZERO_TIME < s.now
  }

  lemma DrawAdds(s: State, th: ThreadId, delay: Option<int>)
    requires Inv(s) && Enabled(s, AddDraw(th, delay))
    ensures var t, s' := NextTicket(s.counter), Apply(s, AddDraw(th, delay));
      && t !in s.core.tasks
      && Adding(s', th, t, if delay.Some? then s.now + delay.value else ZERO_TIME)
      && (forall u | u in s'.threads :: s'.threads[u] != Running(t))
  {
    var t := NextTicket(s.counter);
    assert t in s.core.tasks ==> RecordOk(s, t);
  }

  lemma AddingStep(s: State, a: Action, th: ThreadId, t: TaskId, d: int)
    requires Inv(s) && Enabled(s, a) && Adding(s, th, t, d) && a != AddEnqueue(th)
    ensures Adding(Apply(s, a), th, t, d)
  {
    NoPanic(s, a);
    assert Owns(s, th, t) && RecordOk(s, t);
    if !a.Tick? {
      DueChangesOnReturn(s, a, t);
      AddingStays(s, a, th, t);
    }
  }

  lemma AddingStays(s: State, a: Action, th: ThreadId, t: TaskId)
    requires TasksOk(s) && Enabled(s, a) && !Panics(s, a) && !a.Tick? && a != AddEnqueue(th) && Owns(s, th, t)
    requires s.threads[th].AddLock? && t !in s.core.byOrder && t !in s.core.byTime
    ensures th in Apply(s, a).threads && Apply(s, a).threads[th] == s.threads[th]
    ensures t !in Apply(s, a).core.byOrder && t !in Apply(s, a).core.byTime
    ensures a.TaskReturn? ==> s.threads[a.th] != Running(t)
  {
    assert a.AddEnqueue? || a.TaskFinish? || a.TaskReturn? ==> Owns(s, a.th, s.threads[a.th].task);
  }

  lemma AddingInRun(ss: seq<State>, acts: seq<Action>, i: nat, th: ThreadId, t: TaskId, d: int)
    requires IsRun(ss, acts) && i < |acts| && Adding(ss[i], th, t, d) && acts[i] != AddEnqueue(th)
    ensures Adding(ss[i + 1], th, t, d)
  {
    RunStep(ss, acts, i);
    AddingStep(ss[i], acts[i], th, t, d);
  }

  lemma {:induction false} AddingUntil(ss: seq<State>, acts: seq<Action>, i: nat, j: nat, th: ThreadId, t: TaskId,
                                       d: int)
    requires IsRun(ss, acts) && i <= j < |ss| && Adding(ss[i], th, t, d)
    requires forall k | i <= k < j :: acts[k] != AddEnqueue(th)
    ensures Adding(ss[j], th, t, d)
    decreases j
  {
    assert |ss| == |acts| + 1;
    hide IsRun, Adding;
    if i < j {
      AddingUntil(ss, acts, i, j - 1, th, t, d);
      AddingInRun(ss, acts, j - 1, th, t, d);
    }
  }

  /** Add gives a new task the due time that its caller asked for, counted from the call, or none. */
  lemma AddedIsDue(ss: seq<State>, acts: seq<Action>, i: nat, th: ThreadId, delay: Option<int>)
    requires IsRun(ss, acts) && i < |acts| && acts[i] == AddDraw(th, delay)
    ensures var t := NextTicket(ss[i].counter);
      && t !in ss[i].core.tasks && t in ss[i + 1].core.tasks
      && (delay.None? ==> ss[i + 1].core.Due(t) == ZERO_TIME)
      && (delay.Some? ==> ss[i + 1].core.Due(t) == ss[i].now + delay.value)
  {
    RunStep(ss, acts, i);
    DrawAdds(ss[i], th, delay);
  }

  lemma Enqueued(s: State, th: ThreadId, t: TaskId, d: int)
    requires Inv(s) && Enabled(s, AddEnqueue(th)) && Adding(s, th, t, d)
    ensures var c := Apply(s, AddEnqueue(th)).core;
      && t in c.tasks && c.Due(t) == d
      && (if d == ZERO_TIME then t in c.byOrder && t !in c.byTime else t in c.byTime && t !in c.byOrder)
  {
    NoPanic(s, AddEnqueue(th));
  }

  /**
   * What Add does when it locks: a task added with a delay joins the time queue, and is due when the delay
   * has passed since the call; one added without joins the insertion-order queue.
   */
  lemma AddJoinsQueue(ss: seq<State>, acts: seq<Action>, i: nat, j: nat, th: ThreadId, delay: Option<int>)
    requires IsRun(ss, acts) && i < j < |acts| && acts[i] == AddDraw(th, delay) && acts[j] == AddEnqueue(th)
    requires forall k | i < k < j :: acts[k] != AddEnqueue(th)
    ensures var t, c := NextTicket(ss[i].counter), ss[j + 1].core;
      && t in c.tasks
      && (delay.None? ==> t in c.byOrder && t !in c.byTime)
      && (delay.Some? ==> c.Due(t) == ss[i].now + delay.value)
      && (delay.Some? && 0 <= delay.value ==> t in c.byTime && t !in c.byOrder)
  {
    var t, d := NextTicket(ss[i].counter), if delay.Some? then ss[i].now + delay.value else ZERO_TIME;
    RunStep(ss, acts, i);
    DrawAdds(ss[i], th, delay);
    AddingUntil(ss, acts, i + 1, j, th, t, d);
    RunStep(ss, acts, j);
    Enqueued(ss[j], th, t, d);
  }

  /** A task added with a delay never starts before the delay has passed since the call. */
  lemma DelayedAdd(ss: seq<State>, acts: seq<Action>, i: nat, j: nat, th: ThreadId, d: int)
    requires IsRun(ss, acts) && i < j < |acts| && acts[i] == AddDraw(th, Some(d))
    requires LaunchOf(acts[j], NextTicket(ss[i].counter))
    ensures ss[i].now + d <= ss[j].now
  {
    RunStep(ss, acts, i);
    DrawAdds(ss[i], th, Some(d));
    LaunchedAfter(ss, acts, i + 1, j, NextTicket(ss[i].counter), ss[i].now + d);
  }

  // ---------- Selection ----------

  /** No task is due, and t was drawn before all others without due time, all tickets being close. */
  ghost predicate ComesFirst(s: State, t: TaskId) {
    && (forall u | u in s.core.byTime :: u in s.core.tasks && s.now < s.core.Due(u))
    && WindowOk(s.core.byOrder) && forall u | u in s.core.byOrder :: t <= u
  }

  /**
   * A task without due time need not wait for anything but a slot: the loop neither leaves nor sleeps, and
   * launches it if no other task is due and it comes first.
   */
  lemma UndelayedMayStart(ss: seq<State>, acts: seq<Action>, i: nat, th: ThreadId, t: TaskId, runner: ThreadId)
    requires IsRun(ss, acts) && i < |ss| && th in ss[i].threads && ss[i].threads[th].LoopTop? && t in ss[i].core.byOrder
    requires ss[i].core.taskActiveCount < ss[i].core.slots && !ss[i].core.stopRequested
    ensures Typed(ss[i]) && !Enabled(ss[i], LoopLeave(th))
    ensures forall timer :: !Enabled(ss[i], LoopSleep(th, timer))
    ensures ComesFirst(ss[i], t) && runner !in ss[i].threads ==> Enabled(ss[i], LoopLaunch(th, t, runner))
  {
    InvHolds(ss, acts, i);
    if ComesFirst(ss[i], t) {
      forall u | u in ss[i].core.byOrder
        ensures NotBelow(u, t)
      {
        SeqLessClose(u, t);
      }
    }
  }

  /**
   * Which task is launched: if any is due, the one that is due first of all; otherwise one without due time,
   * the first that was drawn as long as tickets are less than 2^63 apart.
   */
  lemma LaunchesFirst(ss: seq<State>, acts: seq<Action>, i: nat)
    requires IsRun(ss, acts) && i < |acts| && acts[i].LoopLaunch?
    ensures ss[i].core.Known() && acts[i].task in ss[i].core.tasks
    ensures var c, t := ss[i].core, acts[i].task;
      if exists u :: u in c.byTime && c.Due(u) <= ss[i].now then
        t in c.byTime && forall u | u in c.byTime :: c.Due(t) <= c.Due(u)
      else
        t in c.byOrder && (WindowOk(c.byOrder) ==> forall u | u in c.byOrder :: t <= u)
  {
    RunStep(ss, acts, i);
    if !ss[i].core.SomeDue(ss[i].now) && WindowOk(ss[i].core.byOrder) {
      NextByOrderIsOldest(ss[i].core, ss[i].now, acts[i].task);
    }
  }

  /**
   * How long the loop sleeps: until notified if it has no slot or no task, otherwise until the earliest due
   * time of all, which has yet to come.
   */
  lemma SleepsUntilDue(ss: seq<State>, acts: seq<Action>, i: nat)
    requires IsRun(ss, acts) && i < |acts| && acts[i].LoopSleep?
    ensures ss[i].core.Known()
    ensures var c, timer := ss[i].core, acts[i].timer;
      if c.taskActiveCount >= c.slots then timer == None
      else
        && c.byOrder == {}
        && (timer == None <==> c.byTime == {})
        && (timer.Some? ==> ss[i].now < timer.value && exists u :: u in c.byTime && c.Due(u) == timer.value)
        && (timer.Some? ==> forall u | u in c.byTime :: timer.value <= c.Due(u))
  {
    RunStep(ss, acts, i);
  }

  // ---------- Insertion order ----------

  lemma LaunchTakesOldest(s: State, a: Action)
    requires Inv(s) && Enabled(s, a) && a.LoopLaunch? && a.task in s.core.byOrder && WindowOk(s.core.byOrder)
    ensures forall u | u in s.core.byOrder :: a.task <= u
    ensures !Halted(s.core)
  {
    assert InOnePlace(s, a.task);
    NextByOrderIsOldest(s.core, s.now, a.task);
    SomeLooper(s, a.th);
  }

  /** Some step from p up to r launches t. */
  ghost predicate LaunchedIn(acts: seq<Action>, p: nat, r: nat, t: TaskId)
    requires r <= |acts|
  {
    exists k :: p <= k < r && LaunchOf(acts[k], t)
  }

  /** A call of Stop has returned. */
  ghost predicate StopReturned(s: State) {
    exists th :: th in s.threads && s.threads[th].StopDone?
  }

  /** t waits in the insertion-order queue, or was abandoned by a call of Stop that has returned. */
  ghost predicate Queued(s: State, t: TaskId) {
    t in s.core.byOrder || (t in s.abandoned && StopReturned(s))
  }

  lemma StopStaysReturned(s: State, a: Action)
    requires Typed(s) && Enabled(s, a) && !Panics(s, a) && StopReturned(s)
    ensures StopReturned(Apply(s, a))
  {
    var th :| th in s.threads && s.threads[th].StopDone?;
    assert th in Apply(s, a).threads && Apply(s, a).threads[th].StopDone?;
  }

  lemma StaysQueued(s: State, a: Action, t: TaskId)
    requires Inv(s) && Enabled(s, a) && !Panics(s, a) && Queued(s, t) && !LaunchOf(a, t)
    ensures Queued(Apply(s, a), t)
  {
    if t in s.core.byOrder {
      assert InOnePlace(s, t);
      LeavesByStop(s, a, t);
    } else {
      StopStaysReturned(s, a);
    }
  }

  /** Other than by a launch, a task leaves the insertion-order queue when Stop returns. */
  lemma LeavesByStop(s: State, a: Action, t: TaskId)
    requires Typed(s) && Enabled(s, a) && !Panics(s, a) && t in s.core.byOrder && t !in s.core.byTime && !LaunchOf(a, t)
    ensures Queued(Apply(s, a), t)
  {
    if a.StopCheck? && Halted(s.core) {
      assert Apply(s, a).threads[a.th].StopDone?;
    }
  }

  lemma StaysQueuedInRun(ss: seq<State>, acts: seq<Action>, i: nat, t: TaskId)
    requires IsRun(ss, acts) && i < |acts| && Queued(ss[i], t) && !LaunchOf(acts[i], t)
    ensures Queued(ss[i + 1], t)
  {
    RunStep(ss, acts, i);
    StaysQueued(ss[i], acts[i], t);
  }

  /** A task in the insertion-order queue stays until it is launched, or abandoned by Stop on its return. */
  lemma {:induction false} QueuedUntilLaunch(ss: seq<State>, acts: seq<Action>, p: nat, r: nat, t: TaskId)
    requires IsRun(ss, acts) && p <= r < |ss| && t in ss[p].core.byOrder && !LaunchedIn(acts, p, r, t)
    ensures Queued(ss[r], t)
    decreases r
  {
    if p < r {
      assert !LaunchedIn(acts, p, r - 1, t) && !LaunchOf(acts[r - 1], t);
      QueuedUntilLaunch(ss, acts, p, r - 1, t);
      StaysQueuedInRun(ss, acts, r - 1, t);
    }
  }

  lemma {:induction false} CounterGrows(ss: seq<State>, acts: seq<Action>, i: nat, j: nat)
    requires IsRun(ss, acts) && i <= j < |ss|
    ensures ss[i].counter <= ss[j].counter
    decreases j
  {
    if i < j {
      CounterGrows(ss, acts, i, j - 1);
      RunStep(ss, acts, j - 1);
    }
  }

  /**
   * Start order: if task a without due time was enqueued before the number of task b was drawn, then b
   * leaves the insertion-order queue only after a was launched, as long as the queue never held tickets
   * too far apart to be compared.
   */
  lemma StartsInAddOrder(ss: seq<State>, acts: seq<Action>, p: nat, q: nat, r: nat, a: TaskId)
    requires IsRun(ss, acts) && p <= q < r < |acts|
    requires a in ss[p].core.byOrder && acts[q].AddDraw?
    requires LaunchOf(acts[r], NextTicket(ss[q].counter)) && acts[r].task in ss[r].core.byOrder
    requires forall k | 0 <= k <= r :: WindowOk(ss[k].core.byOrder)
    ensures LaunchedIn(acts, p, r, a)
  {
    if !LaunchedIn(acts, p, r, a) {
      RunStep(ss, acts, r);
      LaunchTakesOldest(ss[r], acts[r]);
      QueuedUntilLaunch(ss, acts, p, r, a);
      InvHolds(ss, acts, p);
      assert RecordOk(ss[p], a);
      CounterGrows(ss, acts, p, q);
    }
  }
}
