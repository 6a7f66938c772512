/** The pending map, the attempts and the counters of a handler as invariants of its steps. */
module HandlerInvariants {
  import opened Options
  import opened RetryStrategy
  import opened SchedulerCore
  import opened SchedulerProtocol
  import opened SchedulerSafety
  import opened SchedulerOrder
  import opened SequenceNumbers
  import opened HandlerProtocol
  import opened HandlerSafety
  import opened HandlerStages

  // ---------- The pending map ----------

  /** The pending map leads from t's name to t. */
  ghost predicate Pending(h: HState, t: TaskId)
    requires t in h.names
  {
    h.names[t] in h.pending && h.pending[h.names[t]] == t
  }

  ghost predicate PendingOk(h: HState) {
    && (forall n | n in h.pending :: h.pending[n] in h.names && h.names[h.pending[n]] == n)
    && (forall t | t in h.names :: Pending(h, t) <==> StageOf(h, t) != Gone)
  }

  lemma PendingStep(cfg: Config, h: HState, a: HAction)
    requires BaseOk(h) && PendingOk(h) && HEnabled(h, a)
    ensures PendingOk(HApply(cfg, h, a))
  {
    var h' := HApply(cfg, h, a);
    PendingNamesStep(cfg, h, a);
    forall t | t in h'.names
      ensures Pending(h', t) <==> StageOf(h', t) != Gone
    {
      if t in h.names {
        PendingStepAt(cfg, h, a, t);
      } else {
        StageOfNew(cfg, h, a);
      }
    }
  }

  lemma PendingNamesStep(cfg: Config, h: HState, a: HAction)
    requires BaseOk(h) && PendingOk(h) && HEnabled(h, a)
    ensures var h' := HApply(cfg, h, a);
      forall n | n in h'.pending :: h'.pending[n] in h'.names && h'.names[h'.pending[n]] == n
  {
    NewTaskIsNew(h);
  }

  lemma PendingStepAt(cfg: Config, h: HState, a: HAction, t: TaskId)
    requires BaseOk(h) && PendingOk(h) && HEnabled(h, a) && t in h.names
    ensures var h' := HApply(cfg, h, a); t in h'.names && (Pending(h', t) <==> StageOf(h', t) != Gone)
  {
    NewTaskIsNew(h);
    PendingChange(cfg, h, a, t);
    StageStep(cfg, h, a, t);
    StageBefore(h, a, t);
    if a.Delete? {
      StageBefore(h, a, TaskOf(h, a.th));
    }
  }

  /** The only step that ends t's place in the map is a deletion of its name. */
  lemma PendingChange(cfg: Config, h: HState, a: HAction, t: TaskId)
    requires HTyped(h) && HEnabled(h, a) && t in h.names && NextTicket(h.sched.counter) !in h.names
    ensures var h' := HApply(cfg, h, a);
      t in h'.names && (Pending(h', t) <==> Pending(h, t) && !Deletes(h, a, h.names[t]))
  {
  }

  ghost predicate Deletes(h: HState, a: HAction, n: Name)
    requires HTyped(h) && HEnabled(h, a)
  {
    a.Delete? && h.names[TaskOf(h, a.th)] == n
  }

  // ---------- Attempts ----------

  /** d is what the jitter makes of the k-th delay. */
  ghost predicate DelayFits(cfg: Config, k: int, d: int) {
    0 <= k && WithinJitter(DelayAt(cfg, k), d)
  }

  predicate WithinJitter(delay: int, d: int) {
    0.95 * delay as real <= d as real <= 1.05 * delay as real
  }

  /** Whether a run of t has begun that has not asked for a retry. */
  ghost predicate InRun(h: HState, t: TaskId) {
    StageOf(h, t) != Waiting
  }

  ghost predicate AttemptsOk(cfg: Config, h: HState, t: TaskId)
    requires t in h.names && t in h.retriesOf && t in h.sched.core.tasks
  {
    && h.sched.core.tasks[t].attemptCount == h.retriesOf[t] + One(InRun(h, t))
    && h.retriesOf[t] <= cfg.retryCount
  }

  /** A thread that asks the scheduler for a retry asks for the right delay. */
  ghost predicate RetryOk(cfg: Config, h: HState, th: ThreadId)
    requires HTyped(h) && th in h.hpc
  {
    var pc := h.hpc[th];
    (pc.Leaving? || pc.Left?) && pc.outcome.Retry? ==>
      DelayFits(cfg, h.retriesOf[TaskOf(h, th)] as int - 1, pc.outcome.delay)
  }

  ghost predicate RunsOk(cfg: Config, h: HState)
    requires HTyped(h) && LinkOk(h)
  {
    && (forall t {:trigger AttemptsOk(cfg, h, t)} | t in h.names :: AttemptsOk(cfg, h, t))
    && (forall th {:trigger RetryOk(cfg, h, th)} | th in h.hpc :: RetryOk(cfg, h, th))
  }

  /** After k retries a failure is retried exactly if k < retryCount, with the k-th delay. */
  lemma OutcomeByBudget(cfg: Config, k: nat, result: InvokeResult)
    requires cfg.Valid() && result.Failure? && 0.0 <= result.jitter < 1.0
    ensures OutcomeOf(cfg, k, result).Retry? <==> k < cfg.retryCount
    ensures OutcomeOf(cfg, k, result).Retry? ==> DelayFits(cfg, k, OutcomeOf(cfg, k, result).delay)
  {
    StrategyYieldsDelays(cfg, k);
    DelayBounds(cfg, k);
    FuzzKeepsMeaning(DelayAt(cfg, k), FUZZ_FACTOR, result.jitter);
    FuzzWithin(DelayAt(cfg, k), FUZZ_FACTOR, result.jitter);
  }

  lemma RetryWithinBudget(cfg: Config, h: HState, a: HAction)
    requires cfg.Valid() && HTyped(h) && HEnabled(h, a) && AsksRetry(cfg, h, a)
    ensures var k := h.retriesOf[TaskOf(h, a.th)];
      k < cfg.retryCount && DelayFits(cfg, k, OutcomeOf(cfg, k, a.result).delay)
  {
    OutcomeByBudget(cfg, h.retriesOf[TaskOf(h, a.th)], a.result);
  }

  /** Starts are counted by the step that launches a task. */
  lemma CountOnLaunch(s: State, a: Action, t: TaskId)
    requires Typed(s) && Enabled(s, a) && !Panics(s, a) && t in s.core.tasks && t != NextTicket(s.counter)
    ensures t in Apply(s, a).core.tasks
    ensures Apply(s, a).core.tasks[t].attemptCount == s.core.tasks[t].attemptCount + One(LaunchOf(a, t))
  {
    if !MovesTask(a) {
      TasksUntouched(s, a);
    } else if a.AddEnqueue? || a.TaskFinish? {
      QueuingKeepsCount(s, a, t);
    }
  }

  lemma TasksUntouched(s: State, a: Action)
    requires Typed(s) && Enabled(s, a) && !Panics(s, a) && !MovesTask(a)
    ensures Apply(s, a).core.tasks == s.core.tasks
  {
  }

  lemma QueuingKeepsCount(s: State, a: Action, t: TaskId)
    requires Typed(s) && Enabled(s, a) && !Panics(s, a) && t in s.core.tasks && (a.AddEnqueue? || a.TaskFinish?)
    ensures t in Apply(s, a).core.tasks
    ensures Apply(s, a).core.tasks[t].attemptCount == s.core.tasks[t].attemptCount
  {
  }

  lemma AttemptsStep(cfg: Config, h: HState, a: HAction, t: TaskId)
    requires cfg.Valid() && BaseOk(h) && HEnabled(h, a) && t in h.names && AttemptsOk(cfg, h, t)
    ensures var h' := HApply(cfg, h, a);
      t in h'.names && t in h'.retriesOf && t in h'.sched.core.tasks && AttemptsOk(cfg, h', t)
  {
    StageStep(cfg, h, a, t);
    StageBefore(h, a, t);
    CountsChange(cfg, h, a, t);
    if AsksRetry(cfg, h, a) {
      RetryWithinBudget(cfg, h, a);
    }
  }

  lemma CountsChange(cfg: Config, h: HState, a: HAction, t: TaskId)
    requires BaseOk(h) && HEnabled(h, a) && t in h.names
    ensures var h' := HApply(cfg, h, a);
      && t in h'.names && t in h'.retriesOf && t in h'.sched.core.tasks
      && h'.sched.core.tasks[t].attemptCount
        == h.sched.core.tasks[t].attemptCount + One(a.SchedStep? && LaunchOf(a.a, t))
      && h'.retriesOf[t] == h.retriesOf[t] + One(RunnerSteps(h, a, t) && AsksRetry(cfg, h, a))
  {
    SchedKept(h, a);
    NewTaskIsNew(h);
    if SchedAction(h, a).Some? {
      CountOnLaunch(h.sched, SchedAction(h, a).value, t);
    }
    RetriesChange(cfg, h, a, t);
  }

  lemma RetriesChange(cfg: Config, h: HState, a: HAction, t: TaskId)
    requires HTyped(h) && HEnabled(h, a) && t in h.names && NextTicket(h.sched.counter) != t
    ensures var h' := HApply(cfg, h, a);
      && t in h'.names && t in h'.retriesOf
      && h'.retriesOf[t] == h.retriesOf[t] + One(RunnerSteps(h, a, t) && AsksRetry(cfg, h, a))
  {
  }

  lemma AttemptsOfNew(cfg: Config, h: HState, a: HAction)
    requires cfg.Valid() && BaseOk(h) && HEnabled(h, a) && Creates(h, a)
    ensures var h', t := HApply(cfg, h, a), NextTicket(h.sched.counter);
      t in h'.names && t in h'.retriesOf && t in h'.sched.core.tasks && AttemptsOk(cfg, h', t)
  {
    StageOfNew(cfg, h, a);
    SchedKept(h, a);
  }

  lemma RetryStep(cfg: Config, h: HState, a: HAction, th: ThreadId)
    requires cfg.Valid() && BaseOk(h) && RunsOk(cfg, h) && HEnabled(h, a) && HTyped(HApply(cfg, h, a))
    requires th in HApply(cfg, h, a).hpc
    ensures RetryOk(cfg, HApply(cfg, h, a), th)
  {
    NewTaskIsNew(h);
    assert th in h.hpc ==> RetryOk(cfg, h, th);
    if MovingThread(a) == Some(th) {
      MoverRetryOk(cfg, h, a, th);
    } else {
      OthersStand(cfg, h, a, th);
      if InInvoke(h.hpc[th]) {
        assert Owns(h.sched, th, TaskOf(h, th));
        NotTheOwner(h, a, th, TaskOf(h, th));
      }
      StandingRetryOk(cfg, h, a, th);
    }
  }

  lemma MoverRetryOk(cfg: Config, h: HState, a: HAction, th: ThreadId)
    requires cfg.Valid() && HTyped(h) && LinkOk(h) && RunsOk(cfg, h) && HEnabled(h, a) && HTyped(HApply(cfg, h, a))
    requires th in HApply(cfg, h, a).hpc && MovingThread(a) == Some(th)
    ensures RetryOk(cfg, HApply(cfg, h, a), th)
  {
    hide WithinJitter;
    assert th in h.hpc ==> RetryOk(cfg, h, th);
    if AsksRetry(cfg, h, a) {
      RetryWithinBudget(cfg, h, a);
    }
  }

  lemma StandingRetryOk(cfg: Config, h: HState, a: HAction, th: ThreadId)
    requires HTyped(h) && HEnabled(h, a) && HTyped(HApply(cfg, h, a)) && NextTicket(h.sched.counter) !in h.names
    requires th in h.hpc && HStands(h, HApply(cfg, h, a), th) && RetryOk(cfg, h, th)
    requires InInvoke(h.hpc[th]) ==> !RunnerSteps(h, a, TaskOf(h, th))
    ensures RetryOk(cfg, HApply(cfg, h, a), th)
  {
  }

  lemma RunsStep(cfg: Config, h: HState, a: HAction)
    requires cfg.Valid() && BaseOk(h) && RunsOk(cfg, h) && HEnabled(h, a)
    ensures BaseOk(HApply(cfg, h, a)) && RunsOk(cfg, HApply(cfg, h, a))
  {
    var h' := HApply(cfg, h, a);
    BaseStep(cfg, h, a);
    forall t | t in h'.names
      ensures AttemptsOk(cfg, h', t)
    {
      if t in h.names {
        assert AttemptsOk(cfg, h, t);
        AttemptsStep(cfg, h, a, t);
      } else {
        AttemptsOfNew(cfg, h, a);
      }
    }
    forall th | th in h'.hpc
      ensures RetryOk(cfg, h', th)
    {
      RetryStep(cfg, h, a, th);
    }
  }
}
