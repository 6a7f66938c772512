/** What holds over every run of a handler on top of the scheduler. */
module HandlerRuns {
  import opened Options
  import opened RetryStrategy
  import opened SchedulerCore
  import opened SchedulerProtocol
  import opened SchedulerSafety
  import opened SchedulerRuns
  import opened SchedulerOrder
  import opened HandlerProtocol
  import opened HandlerSafety
  import opened HandlerStages
  import opened HandlerInvariants
  import opened HandlerMetrics
  import HandlerTask

  ghost predicate HInv(cfg: Config, h: HState) {
    BaseOk(h) && PendingOk(h) && RunsOk(cfg, h) && TotalsOk(h) && RetriesOk(h)
  }

  ghost predicate HSteps(cfg: Config, h: HState, a: HAction, h': HState) {
    HTyped(h) && HEnabled(h, a) && h' == HApply(cfg, h, a)
  }

  ghost predicate HStepAt(cfg: Config, hs: seq<HState>, acts: seq<HAction>, i: nat)
    requires |hs| == |acts| + 1 && i < |acts|
  {
    HSteps(cfg, hs[i], acts[i], hs[i + 1])
  }

  ghost predicate IsHRun(cfg: Config, hs: seq<HState>, acts: seq<HAction>) {
    |hs| == |acts| + 1 && HInit(hs[0]) && forall i | 0 <= i < |acts| :: HStepAt(cfg, hs, acts, i)
  }

  lemma HInvInit(cfg: Config, h: HState)
    requires HInit(h)
    ensures HInv(cfg, h)
  {
    InvInit(h.sched);
    CountersInit(h);
  }

  lemma CountersInit(h: HState)
    requires HInit(h)
    ensures TotalsOk(h) && RetriesOk(h)
  {
    assert |h.names.Keys| == 0 && |h.pending.Keys| == 0 && Finalizers(h.hpc) == {};
    RetriesBelowExtend(h.retriesOf, 0, h.sched.counter + 1);
  }

  lemma HInvStep(cfg: Config, h: HState, a: HAction)
    requires cfg.Valid() && HInv(cfg, h) && HEnabled(h, a)
    ensures HInv(cfg, HApply(cfg, h, a))
  {
    RunsStep(cfg, h, a);
    PendingStep(cfg, h, a);
    TotalsStep(cfg, h, a);
    RetriesStep(cfg, h, a);
  }

  lemma {:induction false} HInvHolds(cfg: Config, hs: seq<HState>, acts: seq<HAction>, i: nat)
    requires cfg.Valid() && IsHRun(cfg, hs, acts) && i < |hs|
    ensures HInv(cfg, hs[i])
    decreases i
  {
    hide HInv;
    if i == 0 {
      HInvFirst(cfg, hs, acts, i);
    } else {
      HInvHolds(cfg, hs, acts, i - 1);
      HInvNext(cfg, hs, acts, i);
    }
  }

  lemma HInvFirst(cfg: Config, hs: seq<HState>, acts: seq<HAction>, i: nat)
    requires IsHRun(cfg, hs, acts) && i == 0
    ensures HInv(cfg, hs[i])
  {
    HInvInit(cfg, hs[0]);
  }

  lemma HInvNext(cfg: Config, hs: seq<HState>, acts: seq<HAction>, i: nat)
    requires cfg.Valid() && IsHRun(cfg, hs, acts) && 0 < i < |hs| && HInv(cfg, hs[i - 1])
    ensures HInv(cfg, hs[i])
  {
    assert HStepAt(cfg, hs, acts, i - 1);
    HInvStep(cfg, hs[i - 1], acts[i - 1]);
  }

  lemma HRunStep(cfg: Config, hs: seq<HState>, acts: seq<HAction>, i: nat)
    requires cfg.Valid() && IsHRun(cfg, hs, acts) && i < |acts|
    ensures HInv(cfg, hs[i]) && HEnabled(hs[i], acts[i]) && hs[i + 1] == HApply(cfg, hs[i], acts[i])
  {
    HInvHolds(cfg, hs, acts, i);
    assert HStepAt(cfg, hs, acts, i);
  }

  // ---------- Projection ----------

  /** The scheduler's part of a step; a step without one lets no time pass. */
  ghost function ActionOf(h: HState, a: HAction): Action {
    if HTyped(h) && HEnabled(h, a) && SchedAction(h, a).Some? then SchedAction(h, a).value else Tick(0)
  }

  ghost function SchedStates(hs: seq<HState>): seq<State> {
    seq(|hs|, i requires 0 <= i < |hs| => hs[i].sched)
  }

  ghost function SchedActions(hs: seq<HState>, acts: seq<HAction>): seq<Action>
    requires |acts| <= |hs|
  {
    seq(|acts|, i requires 0 <= i < |acts| => ActionOf(hs[i], acts[i]))
  }

  lemma ProjectedStep(cfg: Config, h: HState, a: HAction)
    requires BaseOk(h) && HEnabled(h, a)
    ensures Steps(h.sched, ActionOf(h, a), HApply(cfg, h, a).sched)
  {
  }

  lemma ProjectedAt(cfg: Config, hs: seq<HState>, acts: seq<HAction>, i: nat)
    requires cfg.Valid() && IsHRun(cfg, hs, acts) && i < |acts|
    ensures Steps(hs[i].sched, ActionOf(hs[i], acts[i]), hs[i + 1].sched)
  {
    HRunStep(cfg, hs, acts, i);
    ProjectedStep(cfg, hs[i], acts[i]);
  }

  /** What the scheduler does in a handler's run is a run of the scheduler, index by index. */
  lemma HandlerRunIsSchedulerRun(cfg: Config, hs: seq<HState>, acts: seq<HAction>)
    requires cfg.Valid() && IsHRun(cfg, hs, acts)
    ensures IsRun(SchedStates(hs), SchedActions(hs, acts))
  {
    var ss, sas := SchedStates(hs), SchedActions(hs, acts);
    forall i | 0 <= i < |sas|
      ensures StepAt(ss, sas, i)
    {
      ProjectedAt(cfg, hs, acts, i);
    }
  }

  // ---------- De-duplication ----------

  /** Thread th brings back a permanent result of its task. */
  ghost predicate BringsPermanent(h: HState, th: ThreadId)
    requires th in h.sched.threads
  {
    || (h.sched.threads[th].Returned? && h.sched.threads[th].finished)
    || (h.sched.threads[th].Running? && th in h.hpc && (h.hpc[th] == Leaving(Finished) || h.hpc[th] == Left(Finished)))
  }

  /** t is queued, abandoned by Stop, or with a thread that does not bring back a permanent result. */
  ghost predicate Live(h: HState, t: TaskId) {
    || t in h.sched.core.byOrder || t in h.sched.core.byTime || t in h.sched.abandoned
    || exists th :: Owns(h.sched, th, t) && !BringsPermanent(h, th)
  }

  lemma LiveIsNotGone(h: HState, t: TaskId)
    requires BaseOk(h) && t in h.names
    ensures Live(h, t) <==> StageOf(h, t) != Gone
  {
    assert InOnePlace(h.sched, t);
    if Held(h.sched, t) {
      var th: ThreadId :| Owns(h.sched, th, t);
      StageOfHeld(h, th, t);
    }
  }

  /** The pending map holds exactly the names of live tasks, each of which has exactly one. */
  lemma PendingIsLive(cfg: Config, hs: seq<HState>, acts: seq<HAction>, i: nat)
    requires cfg.Valid() && IsHRun(cfg, hs, acts) && i < |hs|
    ensures forall t | t in hs[i].names :: Live(hs[i], t) <==> Pending(hs[i], t)
    ensures forall n | n in hs[i].pending :: hs[i].pending[n] in hs[i].names && hs[i].names[hs[i].pending[n]] == n
    ensures forall t, u | t in hs[i].names && u in hs[i].names && Live(hs[i], t) && Live(hs[i], u) ::
      hs[i].names[t] == hs[i].names[u] ==> t == u
  {
    HInvHolds(cfg, hs, acts, i);
    forall t | t in hs[i].names
      ensures Live(hs[i], t) <==> Pending(hs[i], t)
    {
      LiveIsNotGone(hs[i], t);
    }
  }

  /**
   * The handler drops a task exactly when the scheduler is done with it: of the tasks whose result is on
   * its way to the scheduler, or has reached it, just the finished ones are no longer pending.
   */
  lemma DroppedIffFinished(cfg: Config, hs: seq<HState>, acts: seq<HAction>, i: nat, t: TaskId)
    requires cfg.Valid() && IsHRun(cfg, hs, acts) && i < |hs| && t in hs[i].names
    ensures t in hs[i].sched.finished ==> !Pending(hs[i], t)
    ensures forall th, finished | th in hs[i].sched.threads && hs[i].sched.threads[th] == Returned(t, finished) ::
      finished <==> !Pending(hs[i], t)
    ensures t in hs[i].sched.core.byOrder || t in hs[i].sched.core.byTime ==> Pending(hs[i], t)
  {
    HInvHolds(cfg, hs, acts, i);
    var h := hs[i];
    LiveIsNotGone(h, t);
    forall th, finished | th in h.sched.threads && h.sched.threads[th] == Returned(t, finished)
      ensures finished <==> !Pending(h, t)
    {
      assert Owns(h.sched, th, t);
      StageOfHeld(h, th, t);
    }
  }

  /** Two runs for one name never overlap. */
  lemma NoOverlap(cfg: Config, hs: seq<HState>, acts: seq<HAction>, i: nat, a: ThreadId, b: ThreadId)
    requires cfg.Valid() && IsHRun(cfg, hs, acts) && i < |hs| && HTyped(hs[i])
    requires a in hs[i].hpc && (hs[i].hpc[a].Invoking? || hs[i].hpc[a].Finalizing?)
    requires b in hs[i].hpc && (hs[i].hpc[b].Invoking? || hs[i].hpc[b].Finalizing?)
    requires hs[i].names[TaskOf(hs[i], a)] == hs[i].names[TaskOf(hs[i], b)]
    ensures a == b
  {
    HInvHolds(cfg, hs, acts, i);
    var h := hs[i];
    var t, u := TaskOf(h, a), TaskOf(h, b);
    assert Owns(h.sched, a, t) && Owns(h.sched, b, u);
    StageOfHeld(h, a, t);
    StageOfHeld(h, b, u);
    assert Pending(h, t) && Pending(h, u);
  }

  // ---------- Attempts ----------

  /** What a result of Task.Run means to invokeTask. */
  function ResultOf(err: Option<HandlerTask.Error>, jitter: real): InvokeResult {
    if err == None then Success else if err.value.TaskError? then Failure(jitter) else PermanentFailure
  }

  /**
   * The k-th run of a task does what the protocol lets it: it holds the lock on return exactly if it
   * started its command, only then may it succeed, and the scheduler makes the same of its result.
   */
  lemma RunFollowsProtocol(cfg: Config, d: HandlerTask.Disk, envs: seq<HandlerTask.Env>, k: nat)
    requires cfg.Valid() && HandlerTask.Life(cfg, d, envs) && k < |envs|
    ensures var r, e := HandlerTask.ResultAt(cfg, d, envs, k), envs[k];
      var (p, d1) := HandlerTask.Retried(cfg, d, envs[..k]);
      && (r.locked <==> HandlerTask.Started(p, d1, e))
      && (r.err == None ==> r.locked)
      && OutcomeOf(cfg, k, ResultOf(r.err, e.jitter)) ==
           if HandlerTask.TaskRun(r.err).None? then Finished else Retry(HandlerTask.TaskRun(r.err).value)
  {
    HandlerTask.ProgressAt(cfg, d, envs, k);
  }

  /** Attempt budget: no task starts more than retryCount + 1 times. */
  lemma TaskBudget(cfg: Config, hs: seq<HState>, acts: seq<HAction>, i: nat, t: TaskId)
    requires cfg.Valid() && IsHRun(cfg, hs, acts) && i < |hs| && t in hs[i].names
    ensures t in hs[i].sched.core.tasks && hs[i].sched.core.tasks[t].attemptCount <= cfg.retryCount + 1
  {
    HInvHolds(cfg, hs, acts, i);
    assert AttemptsOk(cfg, hs[i], t);
  }

  /** A failed run is followed by another exactly if it was not number retryCount, counting from zero. */
  lemma RetriedUntilLast(cfg: Config, hs: seq<HState>, acts: seq<HAction>, i: nat)
    requires cfg.Valid() && IsHRun(cfg, hs, acts) && i < |acts| && acts[i].InvokeReturn? && acts[i].result.Failure?
    ensures HTyped(hs[i]) && HEnabled(hs[i], acts[i])
    ensures AsksRetry(cfg, hs[i], acts[i])
       <==> hs[i].sched.core.tasks[TaskOf(hs[i], acts[i].th)].attemptCount - 1 != cfg.retryCount
  {
    HRunStep(cfg, hs, acts, i);
    FailureRetried(cfg, hs[i], acts[i]);
  }

  lemma FailureRetried(cfg: Config, h: HState, a: HAction)
    requires cfg.Valid() && HInv(cfg, h) && HEnabled(h, a) && a.InvokeReturn? && a.result.Failure?
    ensures AsksRetry(cfg, h, a) <==> h.sched.core.tasks[TaskOf(h, a.th)].attemptCount - 1 != cfg.retryCount
  {
    var t := TaskOf(h, a.th);
    StageBefore(h, a, t);
    assert AttemptsOk(cfg, h, t);
    OutcomeByBudget(cfg, h.retriesOf[t], a.result);
  }

  /** A run that leaves for a retry has been counted. */
  lemma RetryIsCounted(cfg: Config, h: HState, th: ThreadId)
    requires HInv(cfg, h) && th in h.hpc && h.hpc[th].Left? && h.hpc[th].outcome.Retry?
    ensures h.retriesOf[TaskOf(h, th)] == h.sched.core.tasks[TaskOf(h, th)].attemptCount
    ensures RetryOk(cfg, h, th)
  {
    hide RetryOk;
    var t := TaskOf(h, th);
    assert Owns(h.sched, th, t);
    StageOfHeld(h, th, t);
    assert AttemptsOk(cfg, h, t) && RetryOk(cfg, h, th);
  }

  lemma RetryDelayInRun(cfg: Config, hs: seq<HState>, acts: seq<HAction>, i: nat, th: ThreadId, k: nat)
    requires cfg.Valid() && IsHRun(cfg, hs, acts) && i < |hs| && HTyped(hs[i])
    requires th in hs[i].hpc && hs[i].hpc[th].Left? && hs[i].hpc[th].outcome.Retry?
    requires hs[i].sched.core.tasks[TaskOf(hs[i], th)].attemptCount == k + 1
    ensures DelayFits(cfg, k, hs[i].hpc[th].outcome.delay)
  {
    hide DelayFits;
    HInvHolds(cfg, hs, acts, i);
    RetryIsCounted(cfg, hs[i], th);
  }

  /**
   * Retry spacing: between the end of run k and any later start of the task at least the k-th delay of
   * the back-off passes, less 5% of jitter.
   */
  lemma AttemptSpacing(cfg: Config, hs: seq<HState>, acts: seq<HAction>, i: nat, j: nat, th: ThreadId, k: nat)
    requires cfg.Valid() && IsHRun(cfg, hs, acts) && i < j < |acts| && acts[i] == InvokeDone(th) && HTyped(hs[i])
    requires th in hs[i].hpc && hs[i].hpc[th].Left? && hs[i].hpc[th].outcome.Retry?
    requires hs[i].sched.core.tasks[TaskOf(hs[i], th)].attemptCount == k + 1
    requires acts[j].SchedStep? && LaunchOf(acts[j].a, TaskOf(hs[i], th))
    ensures hs[i].sched.now as real + 0.95 * DelayAt(cfg, k) as real <= hs[j].sched.now as real
  {
    RetryDelayInRun(cfg, hs, acts, i, th, k);
    StartsAfterDelay(cfg, hs, acts, i, j, th);
  }

  lemma StartsAfterDelay(cfg: Config, hs: seq<HState>, acts: seq<HAction>, i: nat, j: nat, th: ThreadId)
    requires cfg.Valid() && IsHRun(cfg, hs, acts) && i < j < |acts| && acts[i] == InvokeDone(th) && HTyped(hs[i])
    requires th in hs[i].hpc && hs[i].hpc[th].Left? && hs[i].hpc[th].outcome.Retry?
    requires acts[j].SchedStep? && LaunchOf(acts[j].a, TaskOf(hs[i], th))
    ensures hs[i].sched.now + hs[i].hpc[th].outcome.delay <= hs[j].sched.now
  {
    HandlerRunIsSchedulerRun(cfg, hs, acts);
    assert HStepAt(cfg, hs, acts, i) && HStepAt(cfg, hs, acts, j);
    ActionOfSteps(hs[i], acts[i]);
    ActionOfSteps(hs[j], acts[j]);
    RetrySpacing(SchedStates(hs), SchedActions(hs, acts), i, j, th, hs[i].hpc[th].outcome.delay);
  }

  lemma ActionOfSteps(h: HState, a: HAction)
    requires HTyped(h) && HEnabled(h, a)
    ensures a.InvokeDone? ==> ActionOf(h, a) == TaskReturn(a.th, h.hpc[a.th].outcome)
    ensures a.SchedStep? ==> ActionOf(h, a) == a.a
  {
  }

  // ---------- Counters ----------

  /**
   * Metric conservation: created tasks are finished or pending, except that those between the final
   * report and the deletion count as both; at most one call of handle is yet to report a created task;
   * retries are within the budget of the created tasks.
   */
  lemma MetricConservation(cfg: Config, hs: seq<HState>, acts: seq<HAction>, i: nat)
    requires cfg.Valid() && IsHRun(cfg, hs, acts) && i < |hs|
    ensures var h := hs[i];
      && |h.names.Keys| == h.finishedTotal + |h.pending.Keys| - |Finalizers(h.hpc)|
      && |h.names.Keys| <= h.fileChanges + One(InHandle(h))
      && h.retries <= cfg.retryCount * |h.names.Keys|
      && h.failures <= h.finishedTotal
  {
    HInvHolds(cfg, hs, acts, i);
    RetriesWithinBudget(cfg, hs[i]);
  }

  /** What the counters of a handler count. */
  datatype Event = Change | AskedRetry | EndedTask | EndedWell

  /** The step is an event of this kind. A task ends with a run that is not followed by another. */
  ghost predicate IsEvent(cfg: Config, h: HState, a: HAction, e: Event) {
    && HTyped(h) && HEnabled(h, a)
    && match e
       case Change => a.HandleExit?
       case AskedRetry => AsksRetry(cfg, h, a)
       case EndedTask => a.InvokeReturn? && !AsksRetry(cfg, h, a)
       case EndedWell => a.InvokeReturn? && a.result.Success?
  }

  /** The number of events among the first n steps. */
  ghost function Tally(cfg: Config, hs: seq<HState>, acts: seq<HAction>, n: nat, e: Event): int
    requires n <= |acts| <= |hs|
  {
    if n == 0 then 0 else Tally(cfg, hs, acts, n - 1, e) + One(IsEvent(cfg, hs[n - 1], acts[n - 1], e))
  }

  lemma CountersStep(cfg: Config, h: HState, a: HAction)
    requires HTyped(h) && HEnabled(h, a)
    ensures var h' := HApply(cfg, h, a);
      && h'.fileChanges == h.fileChanges + One(IsEvent(cfg, h, a, Change))
      && h'.retries == h.retries + One(IsEvent(cfg, h, a, AskedRetry))
      && h'.finishedTotal == h.finishedTotal + One(IsEvent(cfg, h, a, EndedTask))
      && h'.finishedTotal - h'.failures == h.finishedTotal - h.failures + One(IsEvent(cfg, h, a, EndedWell))
  {
  }

  /**
   * The counters count events of the run: reported changes, runs that asked for another, runs that ended
   * their task; and the failures are those of the last that did not succeed.
   */
  lemma {:induction false} CountersTally(cfg: Config, hs: seq<HState>, acts: seq<HAction>, i: nat)
    requires cfg.Valid() && IsHRun(cfg, hs, acts) && i < |hs|
    ensures hs[i].fileChanges == Tally(cfg, hs, acts, i, Change)
    ensures hs[i].retries == Tally(cfg, hs, acts, i, AskedRetry)
    ensures hs[i].finishedTotal == Tally(cfg, hs, acts, i, EndedTask)
    ensures hs[i].finishedTotal - hs[i].failures == Tally(cfg, hs, acts, i, EndedWell)
    decreases i
  {
    if 0 < i {
      hide HApply, IsEvent, HEnabled;
      CountersTally(cfg, hs, acts, i - 1);
      CountedAt(cfg, hs, acts, i - 1);
    }
  }

  lemma CountedAt(cfg: Config, hs: seq<HState>, acts: seq<HAction>, i: nat)
    requires IsHRun(cfg, hs, acts) && i < |acts|
    ensures hs[i + 1].fileChanges == hs[i].fileChanges + One(IsEvent(cfg, hs[i], acts[i], Change))
    ensures hs[i + 1].retries == hs[i].retries + One(IsEvent(cfg, hs[i], acts[i], AskedRetry))
    ensures hs[i + 1].finishedTotal == hs[i].finishedTotal + One(IsEvent(cfg, hs[i], acts[i], EndedTask))
    ensures hs[i + 1].finishedTotal - hs[i + 1].failures
         == hs[i].finishedTotal - hs[i].failures + One(IsEvent(cfg, hs[i], acts[i], EndedWell))
  {
    hide HApply;
    assert HStepAt(cfg, hs, acts, i);
    CountersStep(cfg, hs[i], acts[i]);
  }

  lemma RetriesWithinBudget(cfg: Config, h: HState)
    requires cfg.Valid() && HTyped(h) && LinkOk(h) && RunsOk(cfg, h) && RetriesOk(h)
    ensures h.retries <= cfg.retryCount * |h.names.Keys|
  {
    assert forall t | t in h.names :: AttemptsOk(cfg, h, t);
    RetriesBounded(h.retriesOf, h.names.Keys, cfg.retryCount, h.sched.counter + 1);
  }
}
