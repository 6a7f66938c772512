/**
 * The handler together with the files it handles. A state adds to the handler's what is at every input
 * path and in the archives, what each run found in its first look, and how the commands of each task
 * ended. Anybody may change a file at any time; what a run returns follows from what it finds.
 */
module HandlerFiles {
  import opened Options
  import opened RetryStrategy
  import opened SchedulerCore
  import opened SchedulerProtocol
  import opened SchedulerSafety
  import opened SequenceNumbers
  import opened HandlerProtocol
  import opened HandlerSafety
  import opened HandlerStages
  import opened HandlerInvariants
  import opened HandlerRuns
  import opened Files = HandlerTask

  datatype FState = FState(
    h: HState,
    disks: map<Name, Disk>,
    seen: map<ThreadId, Entry>,
    log: map<TaskId, seq<bool>>)
  {
    function DiskOf(n: Name): Disk {
      if n in disks then disks[n] else Disk(Missing, [], [])
    }
  }

  datatype FAction = Act(a: HAction, e: Env) | Modify(name: Name, entry: Entry)

  /** The file of the task that thread th runs. */
  ghost function FileOf(h: HState, th: ThreadId): Name
    requires HTyped(h) && th in h.hpc && InInvoke(h.hpc[th])
  {
    h.names[TaskOf(h, th)]
  }

  /** Whether a run after k retries is told that it is the last before giving up. */
  predicate IsFinal(cfg: Config, k: nat) {
    CurrentOf(After(cfg, k)) == STOP
  }

  /** What is returned for a failure before the first look. */
  predicate EarlyResult(e: Env, r: InvokeResult) {
    match r
    case Success => false
    case PermanentFailure => e.journalFails || e.newFails
    case Failure(jitter) => (e.logFails || e.dirFails) && jitter == e.jitter
  }

  /** What is returned once the command is done and the log is closed. */
  function LateResult(r: AttemptResult, e: Env): InvokeResult {
    if !r.failed && !e.closeFails then Success else if r.permanent then PermanentFailure else Failure(e.jitter)
  }

  /** Thread th is past its command, and returns. */
  ghost predicate EndsCommand(h: HState, a: HAction) {
    a.InvokeReturn? && a.th in h.hpc && h.hpc[a.th] == Invoking(Commanding)
  }

  /** What thread th makes of its file after its command. */
  ghost function Attempted(cfg: Config, f: FState, th: ThreadId, e: Env): AttemptResult
    requires HTyped(f.h) && th in f.h.hpc && InInvoke(f.h.hpc[th]) && th in f.seen && f.seen[th].Regular?
  {
    AfterCommand(f.seen[th], f.DiskOf(FileOf(f.h, th)), IsFinal(cfg, f.h.retriesOf[TaskOf(f.h, th)]), e)
  }

  ghost predicate ActOk(cfg: Config, f: FState, a: HAction, e: Env)
    requires HTyped(f.h) && HEnabled(f.h, a)
  {
    && EnvOk(e)
    && (a.FirstLook? ==> (a.ok <==> !e.statBeforeFails && f.DiskOf(FileOf(f.h, a.th)).input.Regular?))
    && (a.InvokeReturn? && f.h.hpc[a.th] == Invoking(Preparing) ==> EarlyResult(e, a.result))
    && (EndsCommand(f.h, a) ==>
          a.th in f.seen && f.seen[a.th].Regular? && a.result == LateResult(Attempted(cfg, f, a.th, e), e))
  }

  ghost predicate FEnabled(cfg: Config, f: FState, b: FAction)
    requires HTyped(f.h)
  {
    b.Act? ==> HEnabled(f.h, b.a) && ActOk(cfg, f, b.a, b.e)
  }

  ghost function FApply(cfg: Config, f: FState, b: FAction): FState
    requires HTyped(f.h) && FEnabled(cfg, f, b)
  {
    if b.Modify? then
      f.(disks := f.disks[b.name := f.DiskOf(b.name).(input := b.entry)])
    else
      FState(
        HApply(cfg, f.h, b.a),
        if EndsCommand(f.h, b.a) then f.disks[FileOf(f.h, b.a.th) := Attempted(cfg, f, b.a.th, b.e).disk] else f.disks,
        if b.a.FirstLook? then f.seen[b.a.th := f.DiskOf(FileOf(f.h, b.a.th)).input] else f.seen,
        if Creates(f.h, b.a) then f.log[NextTicket(f.h.sched.counter) := []]
        else if EndsCommand(f.h, b.a) then f.log[TaskOf(f.h, b.a.th) := LogOf(f, TaskOf(f.h, b.a.th)) + [b.e.commandOk]]
        else f.log)
  }

  /** How the commands of t ended, in order. */
  function LogOf(f: FState, t: TaskId): seq<bool> {
    if t in f.log then f.log[t] else []
  }

  // ---------- One run in steps ----------

  /**
   * Task.Run goes one of three ways, and the protocol's steps go the same: it fails before it looks at
   * the file, it finds no regular file, or it runs its command and takes the lock.
   */
  lemma RunInSteps(cfg: Config, p: Progress, d: Disk, e: Env, k: nat)
    requires RetryOf(cfg, p) == After(cfg, k)
    ensures var r := RunTask(cfg, p, d, e);
      var result := ResultOf(r.err, e.jitter);
      if (!p.journal && e.journalFails) || e.logFails || e.dirFails || e.newFails then
        r.disk == d && !r.locked && EarlyResult(e, result)
      else if e.statBeforeFails || !d.input.Regular? then
        r.disk == d && !r.locked && result == PermanentFailure
      else
        var late := AfterCommand(d.input, d.(input := e.left), IsFinal(cfg, k), e);
        r.disk == late.disk && r.locked && result == LateResult(late, e)
  {
  }

  // ---------- Runs ----------

  ghost predicate FInv(cfg: Config, f: FState) {
    && cfg.Valid() && HInv(cfg, f.h)
    && (forall th | th in f.h.hpc && f.h.hpc[th] == Invoking(Commanding) :: th in f.seen && f.seen[th].Regular?)
    && f.log.Keys == f.h.names.Keys
  }

  lemma FInvBase(cfg: Config, f: FState)
    requires FInv(cfg, f)
    ensures cfg.Valid() && BaseOk(f.h) && HTyped(f.h)
  {
  }

  ghost predicate FInit(f: FState) {
    HInit(f.h) && f.log == map[]
  }

  ghost predicate FSteps(cfg: Config, f: FState, b: FAction, f': FState) {
    HTyped(f.h) && FEnabled(cfg, f, b) && f' == FApply(cfg, f, b)
  }

  ghost predicate FStepAt(cfg: Config, fs: seq<FState>, acts: seq<FAction>, i: nat)
    requires |fs| == |acts| + 1 && i < |acts|
  {
    FSteps(cfg, fs[i], acts[i], fs[i + 1])
  }

  ghost predicate IsFRun(cfg: Config, fs: seq<FState>, acts: seq<FAction>) {
    |fs| == |acts| + 1 && FInit(fs[0]) && forall i | 0 <= i < |acts| :: FStepAt(cfg, fs, acts, i)
  }

  lemma SeenStep(cfg: Config, f: FState, b: FAction, th: ThreadId)
    requires HTyped(f.h) && FEnabled(cfg, f, b)
    requires th in f.h.hpc && f.h.hpc[th] == Invoking(Commanding) ==> th in f.seen && f.seen[th].Regular?
    ensures var f' := FApply(cfg, f, b);
      th in f'.h.hpc && f'.h.hpc[th] == Invoking(Commanding) ==> th in f'.seen && f'.seen[th].Regular?
  {
  }

  lemma LogKeysStep(cfg: Config, f: FState, b: FAction)
    requires HTyped(f.h) && FEnabled(cfg, f, b) && f.log.Keys == f.h.names.Keys
    ensures FApply(cfg, f, b).log.Keys == FApply(cfg, f, b).h.names.Keys
  {
  }

  lemma FInvStep(cfg: Config, f: FState, b: FAction)
    requires FInv(cfg, f) && FEnabled(cfg, f, b)
    ensures FInv(cfg, FApply(cfg, f, b))
  {
    var f' := FApply(cfg, f, b);
    if b.Act? {
      HInvStep(cfg, f.h, b.a);
    }
    LogKeysStep(cfg, f, b);
    hide HInv;
    forall th | th in f'.h.hpc && f'.h.hpc[th] == Invoking(Commanding)
      ensures th in f'.seen && f'.seen[th].Regular?
    {
      SeenStep(cfg, f, b, th);
    }
  }

  lemma FInvInit(cfg: Config, f: FState)
    requires cfg.Valid() && FInit(f)
    ensures FInv(cfg, f)
  {
    HInvInit(cfg, f.h);
  }

  lemma FInvNext(cfg: Config, fs: seq<FState>, acts: seq<FAction>, i: nat)
    requires cfg.Valid() && IsFRun(cfg, fs, acts) && 0 < i < |fs| && FInv(cfg, fs[i - 1])
    ensures FInv(cfg, fs[i])
  {
    hide FInv;
    assert FStepAt(cfg, fs, acts, i - 1);
    FInvStep(cfg, fs[i - 1], acts[i - 1]);
  }

  lemma {:induction false} FInvHolds(cfg: Config, fs: seq<FState>, acts: seq<FAction>, i: nat)
    requires cfg.Valid() && IsFRun(cfg, fs, acts) && i < |fs|
    ensures FInv(cfg, fs[i])
    decreases i
  {
    hide FInv;
    if i == 0 {
      FInvInit(cfg, fs[i]);
    } else {
      FInvHolds(cfg, fs, acts, i - 1);
      FInvNext(cfg, fs, acts, i);
    }
  }

  lemma FRunStep(cfg: Config, fs: seq<FState>, acts: seq<FAction>, i: nat)
    requires cfg.Valid() && IsFRun(cfg, fs, acts) && i < |acts|
    ensures FInv(cfg, fs[i]) && FEnabled(cfg, fs[i], acts[i]) && fs[i + 1] == FApply(cfg, fs[i], acts[i])
  {
    FInvHolds(cfg, fs, acts, i);
    assert FStepAt(cfg, fs, acts, i);
  }

  // ---------- Projection ----------

  ghost function HandlerStates(fs: seq<FState>): seq<HState> {
    seq(|fs|, i requires 0 <= i < |fs| => fs[i].h)
  }

  /** The handler's part of a step; a change of a file lets no time pass. */
  function HandlerAction(b: FAction): HAction {
    if b.Act? then b.a else SchedStep(Tick(0))
  }

  ghost function HandlerActions(acts: seq<FAction>): seq<HAction> {
    seq(|acts|, i requires 0 <= i < |acts| => HandlerAction(acts[i]))
  }

  lemma StepProjected(cfg: Config, f: FState, b: FAction)
    requires HTyped(f.h) && FEnabled(cfg, f, b) && !f.h.sched.panicked
    ensures HSteps(cfg, f.h, HandlerAction(b), FApply(cfg, f, b).h)
  {
  }

  lemma ProjectedStepAt(cfg: Config, fs: seq<FState>, acts: seq<FAction>, i: nat)
    requires cfg.Valid() && IsFRun(cfg, fs, acts) && i < |acts|
    ensures HSteps(cfg, fs[i].h, HandlerAction(acts[i]), fs[i + 1].h)
  {
    FRunStep(cfg, fs, acts, i);
    StepProjected(cfg, fs[i], acts[i]);
  }

  /** What the handler does among files is a run of the handler, index by index. */
  lemma FileRunIsHandlerRun(cfg: Config, fs: seq<FState>, acts: seq<FAction>)
    requires cfg.Valid() && IsFRun(cfg, fs, acts)
    ensures IsHRun(cfg, HandlerStates(fs), HandlerActions(acts))
  {
    hide HSteps;
    forall i | 0 <= i < |acts|
      ensures HStepAt(cfg, HandlerStates(fs), HandlerActions(acts), i)
    {
      ProjectedStepAt(cfg, fs, acts, i);
    }
  }

  // ---------- What concerns one task ----------

  /** The step is taken by the thread that runs t. */
  ghost predicate OwnStep(f: FState, b: FAction, t: TaskId)
    requires HTyped(f.h)
  {
    b.Act? && RunnerSteps(f.h, b.a, t)
  }

  /** The step changes t's file, other than by a run. */
  ghost predicate Touches(f: FState, b: FAction, t: TaskId)
    requires t in f.h.names
  {
    b.Modify? && b.name == f.h.names[t]
  }

  /** The run of a pending task is the only one for its file. */
  lemma SoleRun(h: HState, v: ThreadId, t: TaskId)
    requires BaseOk(h) && PendingOk(h) && t in h.names && StageOf(h, t) != Gone
    requires v in h.hpc && (h.hpc[v].Invoking? || h.hpc[v].Finalizing?) && FileOf(h, v) == h.names[t]
    ensures TaskOf(h, v) == t
  {
    var t' := TaskOf(h, v);
    assert Owns(h.sched, v, t');
    StageOfHeld(h, v, t');
    assert Pending(h, t) && Pending(h, t');
  }

  /** Steps of others leave the file of a pending task alone. */
  lemma FileStands(cfg: Config, f: FState, b: FAction, t: TaskId)
    requires FInv(cfg, f) && FEnabled(cfg, f, b) && t in f.h.names && StageOf(f.h, t) != Gone
    requires !OwnStep(f, b, t) && !Touches(f, b, t)
    ensures var f' := FApply(cfg, f, b);
      && t in f'.h.names && f'.h.names[t] == f.h.names[t] && t in f'.h.retriesOf
        && f'.h.retriesOf[t] == f.h.retriesOf[t]
      && f'.DiskOf(f.h.names[t]) == f.DiskOf(f.h.names[t]) && LogOf(f', t) == LogOf(f, t)
  {
    NewTaskIsNew(f.h);
    if b.Act? {
      if EndsCommand(f.h, b.a) && FileOf(f.h, b.a.th) == f.h.names[t] {
        SoleRun(f.h, b.a.th, t);
      }
      RetriesChange(cfg, f.h, b.a, t);
      OtherFileStands(cfg, f, b, t);
    }
  }

  lemma OtherFileStands(cfg: Config, f: FState, b: FAction, t: TaskId)
    requires HTyped(f.h) && FEnabled(cfg, f, b) && b.Act? && t in f.h.names && t != NextTicket(f.h.sched.counter)
    requires EndsCommand(f.h, b.a) ==> FileOf(f.h, b.a.th) != f.h.names[t]
    ensures var f' := FApply(cfg, f, b);
      && t in f'.h.names && f'.h.names[t] == f.h.names[t]
      && f'.DiskOf(f.h.names[t]) == f.DiskOf(f.h.names[t]) && LogOf(f', t) == LogOf(f, t)
  {
    assert EndsCommand(f.h, b.a) ==> TaskOf(f.h, b.a.th) != t;
  }

  /** Exactly the run after retryCount retries is the last. */
  lemma FinalIff(cfg: Config, k: nat)
    requires cfg.Valid() && k <= cfg.retryCount
    ensures IsFinal(cfg, k) <==> k == cfg.retryCount
  {
    StrategyYieldsDelays(cfg, k);
    DelayBounds(cfg, k);
  }

  // ---------- A run in which nothing fails ----------

  /** Nothing fails, and the command succeeds. */
  const QUIET: Env := Env(false, false, false, false, false, true, Missing, false, false, false, 0.0)

  ghost function FileAt(f: FState, t: TaskId): Entry
    requires t in f.h.names
  {
    f.DiskOf(f.h.names[t]).input
  }

  /** What the run of u returns if its command and all other calls succeed. */
  ghost function QuietReturn(cfg: Config, f: FState, u: ThreadId): FAction
    requires HTyped(f.h) && u in f.h.hpc && InInvoke(f.h.hpc[u]) && u in f.seen && f.seen[u].Regular?
  {
    Act(InvokeReturn(u, LateResult(Attempted(cfg, f, u, QUIET), QUIET)), QUIET)
  }

  /** With the lock, the run finds its file missing, unchanged or changed. */
  lemma QuietReturnEffect(cfg: Config, f: FState, u: ThreadId, t: TaskId)
    requires cfg.Valid() && HTyped(f.h) && t in f.h.names && RunIs(f.h, u, t, Invoking(Commanding)) && f.h.mu == Some(u)
    requires u in f.seen && f.seen[u].Regular? && f.h.retriesOf[t] <= cfg.retryCount
    ensures FEnabled(cfg, f, QuietReturn(cfg, f, u)) && OwnStep(f, QuietReturn(cfg, f, u), t)
    ensures var f', k := FApply(cfg, f, QuietReturn(cfg, f, u)), f.h.retriesOf[t];
      var retries := FileAt(f, t) != Missing && FileAt(f, t) != f.seen[u] && k != cfg.retryCount;
      && (AsksRetry(cfg, f.h, QuietReturn(cfg, f, u).a) <==> retries)
      && t in f'.h.names && f'.h.names[t] == f.h.names[t] && f'.h.mu == Some(u) && f'.h.sched == f.h.sched
        && u in f'.h.hpc
      && (if retries then f'.h.hpc[u].Leaving? && FileAt(f', t) == FileAt(f, t) else f'.h.hpc[u] == Finalizing)
  {
    var b := QuietReturn(cfg, f, u);
    if b.a.result.Failure? {
      OutcomeByBudget(cfg, f.h.retriesOf[t], b.a.result);
    }
  }

  lemma RetriesAreBounded(cfg: Config, f: FState, u: ThreadId, t: TaskId)
    requires FInv(cfg, f) && t in f.h.names && RunIs(f.h, u, t, Invoking(Commanding))
    ensures t in f.h.retriesOf && f.h.retriesOf[t] <= cfg.retryCount && u in f.seen && f.seen[u].Regular?
  {
    assert AttemptsOk(cfg, f.h, t);
  }
}
