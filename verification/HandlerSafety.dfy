/** What every step of the handler on top of the scheduler keeps. */
module HandlerSafety {
  import opened Options
  import opened RetryStrategy
  import opened SchedulerProtocol
  import opened SchedulerSafety
  import opened SchedulerRuns
  import opened SequenceNumbers
  import opened HandlerProtocol

  // ---------- Threads and the mutex ----------

  /** A thread's place in the handler agrees with its place in the scheduler. */
  ghost predicate Linked(h: HState, th: ThreadId)
    requires th in h.hpc
  {
    var pc := h.hpc[th];
    if pc.HandleLock? || pc.HandleReport? then
      th !in h.sched.threads
    else
      && th in h.sched.threads
      && (if pc.HandleAdding? then
            h.sched.threads[th].Notify? || (h.sched.threads[th].AddLock? && h.sched.threads[th].task in h.names)
          else
            h.sched.threads[th].Running? && h.sched.threads[th].task in h.names)
  }

  ghost predicate LinkOk(h: HState) {
    && h.names.Keys == h.retriesOf.Keys && h.names.Keys <= h.sched.core.tasks.Keys
    && (forall th | th in h.hpc :: Linked(h, th))
    && (forall th | th in h.sched.threads && h.sched.threads[th].Running? ::
          h.sched.threads[th].task in h.names ==> th in h.hpc)
  }

  /** The thread is where it must hold the handler's mutex. */
  predicate MustHold(pc: HPc) {
    pc.HandleAdding? || pc.HandleReport? || pc == Leaving(Finished)
  }

  predicate MayHold(pc: HPc) {
    pc.HandleAdding? || pc.HandleReport? || pc == Invoking(Commanding) || pc.Finalizing? || pc.Leaving?
  }

  ghost predicate MuOk(h: HState) {
    && (forall th | th in h.hpc && MustHold(h.hpc[th]) :: h.mu == Some(th))
    && (h.mu.Some? ==> h.mu.value in h.hpc && MayHold(h.hpc[h.mu.value]))
  }

  ghost predicate BaseOk(h: HState) {
    Inv(h.sched) && HTyped(h) && LinkOk(h) && MuOk(h)
  }

  lemma SchedKept(h: HState, a: HAction)
    requires BaseOk(h) && HEnabled(h, a)
    ensures Inv(NextSched(h, a))
    ensures SchedAction(h, a).Some? ==> !Panics(h.sched, SchedAction(h, a).value)
  {
    if SchedAction(h, a).Some? {
      InvStep(h.sched, SchedAction(h, a).value);
      NoPanic(h.sched, SchedAction(h, a).value);
    }
  }

  /** The thread that moves, in the handler or in the scheduler. */
  ghost function MovingThread(a: HAction): Option<ThreadId> {
    if !a.SchedStep? then Some(a.th) else if a.a.Tick? then None else Some(Mover(a.a))
  }

  /** Thread th is at the same place in both states. */
  ghost predicate Stands(s: State, s': State, th: ThreadId) {
    (th in s'.threads <==> th in s.threads) && (th in s.threads ==> s'.threads[th] == s.threads[th])
  }

  ghost predicate HStands(h: HState, h': HState, th: ThreadId) {
    && (th in h'.hpc <==> th in h.hpc) && (th in h.hpc ==> h'.hpc[th] == h.hpc[th])
    && Stands(h.sched, h'.sched, th)
  }

  lemma SchedOthersStand(s: State, a: Action, th: ThreadId)
    requires Typed(s) && Enabled(s, a) && (a.Tick? || Mover(a) != th)
    ensures Stands(s, Apply(s, a), th)
  {
  }

  lemma OthersStand(cfg: Config, h: HState, a: HAction, th: ThreadId)
    requires HTyped(h) && HEnabled(h, a) && MovingThread(a) != Some(th)
    ensures HStands(h, HApply(cfg, h, a), th)
  {
    if SchedAction(h, a).Some? {
      SchedOthersStand(h.sched, SchedAction(h, a).value, th);
    }
  }

  lemma NamesStayTasks(cfg: Config, h: HState, a: HAction)
    requires HTyped(h) && LinkOk(h) && HEnabled(h, a)
    ensures var h' := HApply(cfg, h, a); h'.names.Keys == h'.retriesOf.Keys && h'.names.Keys <= h'.sched.core.tasks.Keys
  {
    if SchedAction(h, a).Some? {
      TasksAreKept(h.sched, SchedAction(h, a).value);
    }
  }

  lemma TasksAreKept(s: State, a: Action)
    requires Typed(s) && Enabled(s, a)
    ensures s.core.tasks.Keys <= Apply(s, a).core.tasks.Keys
    ensures a.AddDraw? ==> NextTicket(s.counter) in Apply(s, a).core.tasks
  {
  }

  ghost predicate LinkedBoth(h: HState, th: ThreadId) {
    && (th in h.hpc ==> Linked(h, th))
    && (th in h.sched.threads && h.sched.threads[th].Running? && h.sched.threads[th].task in h.names ==> th in h.hpc)
  }

  /** The moving thread's two places agree afterwards. */
  lemma SchedMoverLinked(cfg: Config, h: HState, a: Action)
    requires HTyped(h) && LinkOk(h) && HEnabled(h, SchedStep(a)) && !a.Tick? && !Panics(h.sched, a)
    ensures LinkedBoth(HApply(cfg, h, SchedStep(a)), Mover(a))
  {
  }

  lemma HandlerMoverLinked(cfg: Config, h: HState, a: HAction)
    requires HTyped(h) && LinkOk(h) && HEnabled(h, a) && !a.SchedStep?
    ensures LinkedBoth(HApply(cfg, h, a), a.th)
  {
  }

  lemma LinkStepAt(cfg: Config, h: HState, a: HAction, th: ThreadId)
    requires BaseOk(h) && HEnabled(h, a)
    ensures LinkedBoth(HApply(cfg, h, a), th)
  {
    SchedKept(h, a);
    if MovingThread(a) != Some(th) {
      OthersStand(cfg, h, a, th);
      StandingLinked(cfg, h, a, th);
    } else if a.SchedStep? {
      SchedMoverLinked(cfg, h, a.a);
    } else {
      HandlerMoverLinked(cfg, h, a);
    }
  }

  lemma LinkStep(cfg: Config, h: HState, a: HAction)
    requires BaseOk(h) && HEnabled(h, a)
    ensures LinkOk(HApply(cfg, h, a))
  {
    var h' := HApply(cfg, h, a);
    NamesStayTasks(cfg, h, a);
    forall th: ThreadId | th in h'.hpc || th in h'.sched.threads
      ensures LinkedBoth(h', th)
    {
      LinkStepAt(cfg, h, a, th);
    }
  }

  lemma StandingLinked(cfg: Config, h: HState, a: HAction, th: ThreadId)
    requires BaseOk(h) && HEnabled(h, a) && HStands(h, HApply(cfg, h, a), th)
    ensures LinkedBoth(HApply(cfg, h, a), th)
  {
    if Creates(h, a) {
      NewTaskIsNew(h);
    }
  }

  lemma NewTaskIsNew(h: HState)
    requires BaseOk(h)
    ensures NextTicket(h.sched.counter) !in h.sched.core.tasks
  {
    assert NextTicket(h.sched.counter) in h.sched.core.tasks ==> RecordOk(h.sched, NextTicket(h.sched.counter));
  }

  lemma MuStep(cfg: Config, h: HState, a: HAction)
    requires HTyped(h) && LinkOk(h) && MuOk(h) && HEnabled(h, a)
    ensures MuOk(HApply(cfg, h, a))
  {
  }

  /** Threads whose places agree are well typed. */
  lemma LinkedIsTyped(h: HState)
    requires Typed(h.sched) && LinkOk(h)
    ensures HTyped(h)
  {
    forall th | th in h.hpc && InInvoke(h.hpc[th])
      ensures th in h.sched.threads && h.sched.threads[th].Running? && h.sched.threads[th].task in h.names
    {
      assert Linked(h, th);
    }
  }

  lemma BaseStep(cfg: Config, h: HState, a: HAction)
    requires BaseOk(h) && HEnabled(h, a)
    ensures BaseOk(HApply(cfg, h, a))
  {
    ghost var h' := HApply(cfg, h, a);
    assert Inv(h'.sched) by {
      SchedKept(h, a);
    }
    assert LinkOk(h') by {
      LinkStep(cfg, h, a);
    }
    assert MuOk(h') by {
      MuStep(cfg, h, a);
    }
    LinkedIsTyped(h');
  }
}
