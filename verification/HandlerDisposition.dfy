/** Where a file ends up, over every run of the handler among files. */
module HandlerDisposition {
  import opened Options
  import opened RetryStrategy
  import opened SchedulerCore
  import opened SchedulerProtocol
  import opened SchedulerSafety
  import opened SequenceNumbers
  import opened HandlerProtocol
  import opened HandlerSafety
  import opened HandlerStages
  import opened HandlerInvariants
  import opened HandlerFiles
  import opened Files = HandlerTask

  /** Nobody but its own runs touches t's file, and nothing but possibly the command fails in them. */
  ghost predicate Calm(f: FState, b: FAction, t: TaskId) {
    HTyped(f.h) && t in f.h.names && !Touches(f, b, t) && (OwnStep(f, b, t) ==> NothingFails(b.e))
  }

  /** A run that has no final result yet has found the file d. */
  ghost predicate RunFinds(f: FState, u: ThreadId, pc: HPc, d: Disk) {
    && pc != Invoking(Refused) && pc != Finalizing
    && (pc == Invoking(Commanding) ==> u in f.seen && f.seen[u] == d.input)
  }

  /** t is pending without a final result: its file is in place and all its commands have failed. */
  ghost predicate Undecided(f: FState, t: TaskId, d: Disk) {
    && t in f.h.names && t in f.h.retriesOf && StageOf(f.h, t) != Gone
    && f.DiskOf(f.h.names[t]) == d && |LogOf(f, t)| == f.h.retriesOf[t] && true !in LogOf(f, t)
    && forall u, pc {:trigger RunIs(f.h, u, t, pc)} | RunIs(f.h, u, t, pc) :: RunFinds(f, u, pc, d)
  }

  /** The commands of t ended with the last one's result, which decided where the file is. */
  ghost predicate Result(cfg: Config, f: FState, t: TaskId, d: Disk)
    requires d.input.Regular?
  {
    && t in f.h.names && t in f.h.retriesOf
    && var log, k := LogOf(f, t), f.h.retriesOf[t];
       && |log| == k + 1 && true !in log[..k] && (log[k] || k == cfg.retryCount)
       && f.DiskOf(f.h.names[t]) == Archived(d, log[k])
  }

  /** t has its final result, and no command is run for its file. */
  ghost predicate Decided(cfg: Config, f: FState, t: TaskId, d: Disk)
    requires d.input.Regular?
  {
    && Result(cfg, f, t, d)
    && (StageOf(f.h, t) == Gone || exists u :: RunIs(f.h, u, t, Finalizing))
    && HTyped(f.h) && forall v | v in f.h.hpc && f.h.hpc[v] == Invoking(Commanding) :: FileOf(f.h, v) != f.h.names[t]
  }

  // ---------- While there is no result ----------

  lemma UndecidedStands(cfg: Config, f: FState, b: FAction, t: TaskId, d: Disk)
    requires FInv(cfg, f) && FEnabled(cfg, f, b) && Undecided(f, t, d) && Calm(f, b, t) && !OwnStep(f, b, t)
    ensures Undecided(FApply(cfg, f, b), t, d)
  {
    var f' := FApply(cfg, f, b);
    FileStands(cfg, f, b, t);
    if b.Act? {
      StageStep(cfg, f.h, b.a, t);
      hide StageOf, FInv;
      forall u, pc | RunIs(f'.h, u, t, pc)
        ensures RunFinds(f', u, pc, d)
      {
        FoundStands(cfg, f, b, u, t, pc, d);
      }
    }
  }

  lemma SeenByOthers(cfg: Config, f: FState, b: FAction, u: ThreadId)
    requires HTyped(f.h) && FEnabled(cfg, f, b) && b.Act?
    ensures FApply(cfg, f, b).h == HApply(cfg, f.h, b.a)
    ensures u in f.seen && !(b.a.FirstLook? && b.a.th == u) ==>
      u in FApply(cfg, f, b).seen && FApply(cfg, f, b).seen[u] == f.seen[u]
  {
  }

  lemma FoundStands(cfg: Config, f: FState, b: FAction, u: ThreadId, t: TaskId, pc: HPc, d: Disk)
    requires FInv(cfg, f) && FEnabled(cfg, f, b) && Undecided(f, t, d) && b.Act? && !RunnerSteps(f.h, b.a, t)
    requires RunIs(FApply(cfg, f, b).h, u, t, pc)
    ensures RunFinds(FApply(cfg, f, b), u, pc, d)
  {
    hide FInv, HApply, FApply, StageOf;
    FInvBase(cfg, f);
    SeenByOthers(cfg, f, b, u);
    RunBefore(cfg, f.h, b.a, u, t, pc);
  }

  /** Steps of t's own run before it has a result. */
  lemma UndecidedOwn(cfg: Config, f: FState, b: FAction, t: TaskId, d: Disk)
    requires FInv(cfg, f) && FEnabled(cfg, f, b) && Undecided(f, t, d) && d.input.Regular?
    requires Calm(f, b, t) && OwnStep(f, b, t)
    ensures Undecided(FApply(cfg, f, b), t, d) || Decided(cfg, FApply(cfg, f, b), t, d)
  {
    assert RunIs(f.h, b.a.th, t, f.h.hpc[b.a.th]);
    if b.a.InvokeReturn? {
      OwnReturn(cfg, f, b, t, d);
    } else {
      OwnMove(cfg, f, b, t, d);
    }
  }

  lemma MovedStands(cfg: Config, f: FState, b: FAction, t: TaskId)
    requires FInv(cfg, f) && FEnabled(cfg, f, b) && t in f.h.names && StageOf(f.h, t) != Gone
    requires OwnStep(f, b, t) && !b.a.InvokeReturn? && (b.a.Delete? ==> f.h.hpc[b.a.th] != Finalizing)
    ensures var f' := FApply(cfg, f, b);
      && t in f'.h.names && f'.h.names[t] == f.h.names[t] && t in f'.h.retriesOf
        && f'.h.retriesOf[t] == f.h.retriesOf[t] && StageOf(f'.h, t) != Gone
      && f'.DiskOf(f.h.names[t]) == f.DiskOf(f.h.names[t]) && LogOf(f', t) == LogOf(f, t)
  {
    hide HApply;
    StageStep(cfg, f.h, b.a, t);
    NewTaskIsNew(f.h);
    OtherFileStands(cfg, f, b, t);
    RetriesChange(cfg, f.h, b.a, t);
  }

  lemma OwnMove(cfg: Config, f: FState, b: FAction, t: TaskId, d: Disk)
    requires FInv(cfg, f) && FEnabled(cfg, f, b) && Undecided(f, t, d) && d.input.Regular?
    requires Calm(f, b, t) && OwnStep(f, b, t) && !b.a.InvokeReturn?
    ensures Undecided(FApply(cfg, f, b), t, d)
  {
    hide FInv, StageOf, FApply, FEnabled, LogOf;
    FInvBase(cfg, f);
    var f' := FApply(cfg, f, b);
    assert RunIs(f.h, b.a.th, t, f.h.hpc[b.a.th]);
    hide BaseOk, HTyped;
    MovedStands(cfg, f, b, t);
    forall u, pc | RunIs(f'.h, u, t, pc)
      ensures RunFinds(f', u, pc, d)
    {
      OnlyRunner(cfg, f, b, u, t, pc);
      MovedFinds(cfg, f, b, t, pc, d);
    }
  }

  lemma MovedFinds(cfg: Config, f: FState, b: FAction, t: TaskId, pc: HPc, d: Disk)
    requires HTyped(f.h) && FEnabled(cfg, f, b) && OwnStep(f, b, t) && !b.a.InvokeReturn? && NothingFails(b.e)
    requires RunFinds(f, b.a.th, f.h.hpc[b.a.th], d) && f.DiskOf(f.h.names[t]) == d && d.input.Regular?
    requires RunIs(FApply(cfg, f, b).h, b.a.th, t, pc)
    ensures RunFinds(FApply(cfg, f, b), b.a.th, pc, d)
  {
  }

  /** Nobody else runs t. */
  lemma OnlyRunner(cfg: Config, f: FState, b: FAction, u: ThreadId, t: TaskId, pc: HPc)
    requires FInv(cfg, f) && FEnabled(cfg, f, b) && t in f.h.names && OwnStep(f, b, t)
      && RunIs(FApply(cfg, f, b).h, u, t, pc)
    ensures u == b.a.th
  {
    assert Owns(f.h.sched, b.a.th, t);
    if u != b.a.th {
      OthersStand(cfg, f.h, b.a, u);
      assert Owns(f.h.sched, u, t);
    }
  }

  lemma OwnReturn(cfg: Config, f: FState, b: FAction, t: TaskId, d: Disk)
    requires FInv(cfg, f) && FEnabled(cfg, f, b) && Undecided(f, t, d) && d.input.Regular?
    requires Calm(f, b, t) && OwnStep(f, b, t) && b.a.InvokeReturn?
    ensures Undecided(FApply(cfg, f, b), t, d) || Decided(cfg, FApply(cfg, f, b), t, d)
  {
    assert RunIs(f.h, b.a.th, t, f.h.hpc[b.a.th]);
    assert f.h.hpc[b.a.th] == Invoking(Commanding) by {
      assert f.h.hpc[b.a.th].phase.Preparing? || f.h.hpc[b.a.th].phase.Refused? || f.h.hpc[b.a.th].phase.Commanding?;
    }
    ReturnEffect(cfg, f, b, t, d);
    StageStep(cfg, f.h, b.a, t);
    if b.e.commandOk || f.h.retriesOf[t] == cfg.retryCount {
      ReturnDecides(cfg, f, b, t, d);
    } else {
      ReturnRetries(cfg, f, b, t, d);
    }
  }

  /** The command's result decides if it is a success or the last. */
  lemma ReturnEffect(cfg: Config, f: FState, b: FAction, t: TaskId, d: Disk)
    requires FInv(cfg, f) && FEnabled(cfg, f, b) && Undecided(f, t, d) && d.input.Regular?
    requires OwnStep(f, b, t) && NothingFails(b.e) && EndsCommand(f.h, b.a)
    ensures var f', k := FApply(cfg, f, b), f.h.retriesOf[t];
      var ends := b.e.commandOk || k == cfg.retryCount;
      && k <= cfg.retryCount && t in f'.h.names && f'.h.names[t] == f.h.names[t] && t in f'.h.retriesOf
      && (AsksRetry(cfg, f.h, b.a) <==> !ends)
      && f'.h.retriesOf[t] == (if ends then k else k + 1) && LogOf(f', t) == LogOf(f, t) + [b.e.commandOk]
      && f'.DiskOf(f.h.names[t]) == (if ends then Archived(d, b.e.commandOk) else d)
      && b.a.th in f'.h.hpc && f'.h.hpc[b.a.th] == (if ends then Finalizing else Leaving(OutcomeOf(cfg, k, b.a.result)))
  {
    var k := f.h.retriesOf[t];
    assert RunIs(f.h, b.a.th, t, Invoking(Commanding));
    assert cfg.Valid() && AttemptsOk(cfg, f.h, t);
    hide FInv, StageOf;
    FinalIff(cfg, k);
    if b.a.result.Failure? {
      OutcomeByBudget(cfg, k, b.a.result);
    }
  }

  lemma ReturnDecides(cfg: Config, f: FState, b: FAction, t: TaskId, d: Disk)
    requires FInv(cfg, f) && FEnabled(cfg, f, b) && Undecided(f, t, d) && d.input.Regular?
    requires OwnStep(f, b, t) && NothingFails(b.e) && EndsCommand(f.h, b.a)
    requires b.e.commandOk || f.h.retriesOf[t] == cfg.retryCount
    ensures Decided(cfg, FApply(cfg, f, b), t, d)
  {
    var f' := FApply(cfg, f, b);
    ReturnEffect(cfg, f, b, t, d);
    BaseStep(cfg, f.h, b.a);
    assert RunIs(f'.h, b.a.th, t, Finalizing);
    forall v | v in f'.h.hpc && f'.h.hpc[v] == Invoking(Commanding)
      ensures FileOf(f'.h, v) != f'.h.names[t]
    {
      OthersStand(cfg, f.h, b.a, v);
      if FileOf(f.h, v) == f.h.names[t] {
        SoleRun(f.h, v, t);
        assert Owns(f.h.sched, v, t) && Owns(f.h.sched, b.a.th, t);
      }
    }
    var log, k := LogOf(f', t), f'.h.retriesOf[t];
    assert log[..k] == LogOf(f, t);
  }

  lemma ReturnRetries(cfg: Config, f: FState, b: FAction, t: TaskId, d: Disk)
    requires FInv(cfg, f) && FEnabled(cfg, f, b) && Undecided(f, t, d) && d.input.Regular?
    requires OwnStep(f, b, t) && NothingFails(b.e) && EndsCommand(f.h, b.a)
    requires !b.e.commandOk && f.h.retriesOf[t] != cfg.retryCount
    ensures Undecided(FApply(cfg, f, b), t, d)
  {
    hide FInv, FApply, StageOf, RunFinds;
    ReturnEffect(cfg, f, b, t, d);
    RetryStage(cfg, f, b, t);
    RetriedFinds(cfg, f, b, t, d);
  }

  lemma RetriedFinds(cfg: Config, f: FState, b: FAction, t: TaskId, d: Disk)
    requires FInv(cfg, f) && FEnabled(cfg, f, b) && t in f.h.names && OwnStep(f, b, t)
    requires var h' := FApply(cfg, f, b).h; b.a.th in h'.hpc && h'.hpc[b.a.th].Leaving?
    ensures var f' := FApply(cfg, f, b); forall u, pc | RunIs(f'.h, u, t, pc) :: RunFinds(f', u, pc, d)
  {
    var f' := FApply(cfg, f, b);
    forall u, pc | RunIs(f'.h, u, t, pc)
      ensures RunFinds(f', u, pc, d)
    {
      OnlyRunner(cfg, f, b, u, t, pc);
    }
  }

  lemma RetryStage(cfg: Config, f: FState, b: FAction, t: TaskId)
    requires FInv(cfg, f) && FEnabled(cfg, f, b) && t in f.h.names && OwnStep(f, b, t) && AsksRetry(cfg, f.h, b.a)
    ensures StageOf(FApply(cfg, f, b).h, t) == Waiting
  {
    StageStep(cfg, f.h, b.a, t);
  }

  // ---------- Once there is a result ----------

  /** The thread that brings back a final result only deletes its task, unlocks and leaves. */
  lemma DecidedOwn(cfg: Config, f: FState, b: FAction, t: TaskId, d: Disk)
    requires FInv(cfg, f) && FEnabled(cfg, f, b) && d.input.Regular? && Decided(cfg, f, t, d) && OwnStep(f, b, t)
    ensures !b.a.InvokeReturn? && !b.a.FirstLook? && !b.a.InvokeLock?
  {
    assert RunIs(f.h, b.a.th, t, f.h.hpc[b.a.th]);
    if f.h.hpc[b.a.th].Invoking? {
      RunIsTried(f.h, b.a.th, t, f.h.hpc[b.a.th]);
    }
  }

  /** A run that starts its command found a regular file. */
  lemma FirstLookIsRegular(cfg: Config, f: FState, b: FAction, v: ThreadId)
    requires HTyped(f.h) && FEnabled(cfg, f, b) && b.Act? && MovingThread(b.a) == Some(v)
    requires var h' := FApply(cfg, f, b).h; v in h'.hpc && h'.hpc[v] == Invoking(Commanding)
    ensures v in f.h.hpc && InInvoke(f.h.hpc[v]) && FApply(cfg, f, b).h.sched == f.h.sched
    ensures f.h.hpc[v] == Invoking(Commanding) || f.DiskOf(FileOf(f.h, v)).input.Regular?
  {
  }

  lemma NamesGrow(cfg: Config, f: FState, b: FAction, t: TaskId)
    requires HTyped(f.h) && FEnabled(cfg, f, b) && NextTicket(f.h.sched.counter) !in f.h.names && t in f.h.names
    ensures var h' := FApply(cfg, f, b).h; t in h'.names && h'.names[t] == f.h.names[t]
  {
  }

  /** No run of t's file is past its first look afterwards either: there is no file. */
  lemma NoCommandStep(cfg: Config, f: FState, b: FAction, t: TaskId, d: Disk, v: ThreadId)
    requires HTyped(f.h) && FEnabled(cfg, f, b) && b.Act? && HTyped(FApply(cfg, f, b).h)
    requires d.input.Regular? && Decided(cfg, f, t, d) && NextTicket(f.h.sched.counter) !in f.h.names
    requires var h' := FApply(cfg, f, b).h; v in h'.hpc && h'.hpc[v] == Invoking(Commanding)
    ensures FileOf(FApply(cfg, f, b).h, v) != f.h.names[t]
  {
    hide HApply;
    if MovingThread(b.a) != Some(v) {
      OthersStand(cfg, f.h, b.a, v);
    } else {
      FirstLookIsRegular(cfg, f, b, v);
    }
    NamesGrow(cfg, f, b, TaskOf(f.h, v));
  }

  lemma ResultStands(cfg: Config, f: FState, b: FAction, t: TaskId, d: Disk)
    requires FInv(cfg, f) && FEnabled(cfg, f, b) && d.input.Regular? && Decided(cfg, f, t, d) && Calm(f, b, t)
    ensures Result(cfg, FApply(cfg, f, b), t, d) && FApply(cfg, f, b).h.names[t] == f.h.names[t]
  {
    NewTaskIsNew(f.h);
    if b.Act? {
      if OwnStep(f, b, t) {
        DecidedOwn(cfg, f, b, t, d);
      }
      RetriesChange(cfg, f.h, b.a, t);
      OtherFileStands(cfg, f, b, t);
    }
  }

  /** A thread that is about to delete its task does so with its next step. */
  lemma FinalizingStep(cfg: Config, h: HState, a: HAction, u: ThreadId, t: TaskId)
    requires BaseOk(h) && HEnabled(h, a) && t in h.names && RunIs(h, u, t, Finalizing)
    ensures RunIs(HApply(cfg, h, a), u, t, Finalizing) || (a.Delete? && RunnerSteps(h, a, t))
  {
    if RunnerSteps(h, a, t) {
      RunIsTried(h, u, t, Finalizing);
      assert RunIs(h, a.th, t, h.hpc[a.th]);
    } else {
      RunStands(cfg, h, a, u, t, Finalizing);
    }
  }

  lemma EndStands(cfg: Config, f: FState, b: FAction, t: TaskId, d: Disk)
    requires FInv(cfg, f) && FEnabled(cfg, f, b) && d.input.Regular? && Decided(cfg, f, t, d) && b.Act?
    ensures var h' := FApply(cfg, f, b).h; StageOf(h', t) == Gone || exists u :: RunIs(h', u, t, Finalizing)
  {
    assert t in f.h.names;
    hide FInv, BaseOk, HApply, StageOf, Result;
    FInvBase(cfg, f);
    StageStep(cfg, f.h, b.a, t);
    StageBefore(f.h, b.a, t);
    if StageOf(f.h, t) != Gone {
      var u :| RunIs(f.h, u, t, Finalizing);
      FinalizingStep(cfg, f.h, b.a, u, t);
      RunIsTried(f.h, u, t, Finalizing);
    }
  }

  lemma DecidedStep(cfg: Config, f: FState, b: FAction, t: TaskId, d: Disk)
    requires FInv(cfg, f) && FEnabled(cfg, f, b) && d.input.Regular? && Decided(cfg, f, t, d) && Calm(f, b, t)
    ensures Decided(cfg, FApply(cfg, f, b), t, d)
  {
    hide HApply;
    var f' := FApply(cfg, f, b);
    ResultStands(cfg, f, b, t, d);
    if b.Act? {
      EndStands(cfg, f, b, t, d);
      BaseStep(cfg, f.h, b.a);
      NewTaskIsNew(f.h);
      hide FInv, StageOf, Result, BaseOk;
      forall v | v in f'.h.hpc && f'.h.hpc[v] == Invoking(Commanding)
        ensures FileOf(f'.h, v) != f'.h.names[t]
      {
        NoCommandStep(cfg, f, b, t, d, v);
      }
    }
  }

  // ---------- Over runs ----------

  /** The step with which handle makes task t for the file n. */
  ghost predicate MakesTask(f: FState, b: FAction, t: TaskId, n: Name) {
    && b.Act? && b.a.HandleEnter? && HTyped(f.h) && HEnabled(f.h, b.a) && Creates(f.h, b.a)
    && t == NextTicket(f.h.sched.counter) && n == f.h.hpc[b.a.th].name
  }

  lemma NewTaskFields(cfg: Config, f: FState, b: FAction, t: TaskId, n: Name)
    requires HTyped(f.h) && FEnabled(cfg, f, b) && MakesTask(f, b, t, n)
    ensures var f' := FApply(cfg, f, b);
      && t in f'.h.names && f'.h.names[t] == n && t in f'.h.retriesOf && f'.h.retriesOf[t] == 0
      && LogOf(f', t) == [] && f'.DiskOf(n) == f.DiskOf(n)
  {
  }

  lemma NewTaskUndecided(cfg: Config, f: FState, b: FAction, t: TaskId, n: Name)
    requires FInv(cfg, f) && FEnabled(cfg, f, b) && MakesTask(f, b, t, n)
    ensures var f' := FApply(cfg, f, b); Undecided(f', t, f.DiskOf(n)) && f'.h.names[t] == n
  {
    hide HApply, LogOf;
    StageOfNew(cfg, f.h, b.a);
    NewTaskFields(cfg, f, b, t, n);
    NewTaskHasNoRun(cfg, f, b, t, n);
    hide FInv, StageOf;
  }

  lemma NewTaskHasNoRun(cfg: Config, f: FState, b: FAction, t: TaskId, n: Name)
    requires FInv(cfg, f) && FEnabled(cfg, f, b) && MakesTask(f, b, t, n)
    ensures forall u, pc :: !RunIs(FApply(cfg, f, b).h, u, t, pc)
  {
    hide FInv;
    FInvBase(cfg, f);
    var s' := FApply(cfg, f, b).h.sched;
    BaseStep(cfg, f.h, b.a);
    assert Owns(s', b.a.th, t);
    hide HApply;
    assert forall u, pc | RunIs(FApply(cfg, f, b).h, u, t, pc) :: Owns(s', u, t);
  }

  lemma DispositionStep(cfg: Config, f: FState, b: FAction, t: TaskId, d: Disk)
    requires FInv(cfg, f) && FEnabled(cfg, f, b) && d.input.Regular? && Calm(f, b, t)
    requires Undecided(f, t, d) || Decided(cfg, f, t, d)
    ensures Undecided(FApply(cfg, f, b), t, d) || Decided(cfg, FApply(cfg, f, b), t, d)
  {
    hide FInv, Undecided, Decided;
    if Decided(cfg, f, t, d) {
      DecidedStep(cfg, f, b, t, d);
    } else if OwnStep(f, b, t) {
      UndecidedOwn(cfg, f, b, t, d);
    } else {
      UndecidedStands(cfg, f, b, t, d);
    }
  }

  lemma NameKept(cfg: Config, f: FState, b: FAction, t: TaskId)
    requires FInv(cfg, f) && FEnabled(cfg, f, b) && t in f.h.names
    ensures var h' := FApply(cfg, f, b).h; t in h'.names && h'.names[t] == f.h.names[t]
  {
    hide FInv;
    FInvBase(cfg, f);
    NewTaskIsNew(f.h);
    hide BaseOk;
    NamesGrow(cfg, f, b, t);
  }

  /** t, a task for n, has its file d in place, or its result has decided where it is. */
  ghost predicate Disposed(cfg: Config, f: FState, t: TaskId, n: Name, d: Disk)
    requires d.input.Regular?
  {
    t in f.h.names && f.h.names[t] == n && (Undecided(f, t, d) || Decided(cfg, f, t, d))
  }

  lemma DisposedFirst(cfg: Config, fs: seq<FState>, acts: seq<FAction>, i: nat, t: TaskId, n: Name)
    requires cfg.Valid() && IsFRun(cfg, fs, acts) && i < |acts| && MakesTask(fs[i], acts[i], t, n)
    requires fs[i].DiskOf(n).input.Regular?
    ensures Disposed(cfg, fs[i + 1], t, n, fs[i].DiskOf(n))
  {
    FRunStep(cfg, fs, acts, i);
    hide FInv;
    NewTaskUndecided(cfg, fs[i], acts[i], t, n);
  }

  lemma DisposedNext(cfg: Config, fs: seq<FState>, acts: seq<FAction>, i: nat, t: TaskId, n: Name, d: Disk)
    requires cfg.Valid() && IsFRun(cfg, fs, acts) && i < |acts| && d.input.Regular?
    requires Disposed(cfg, fs[i], t, n, d) && Calm(fs[i], acts[i], t)
    ensures Disposed(cfg, fs[i + 1], t, n, d)
  {
    FRunStep(cfg, fs, acts, i);
    hide FInv, Undecided, Decided;
    DispositionStep(cfg, fs[i], acts[i], t, d);
    NameKept(cfg, fs[i], acts[i], t);
  }

  lemma {:induction false} DisposedUntil(
      cfg: Config, fs: seq<FState>, acts: seq<FAction>, i: nat, j: nat, t: TaskId, n: Name)
    requires cfg.Valid() && IsFRun(cfg, fs, acts) && i < j < |fs| && MakesTask(fs[i], acts[i], t, n)
    requires fs[i].DiskOf(n).input.Regular? && forall k | i < k < j :: Calm(fs[k], acts[k], t)
    ensures Disposed(cfg, fs[j], t, n, fs[i].DiskOf(n))
    decreases j
  {
    assert |fs| == |acts| + 1;
    hide IsFRun, MakesTask, Disposed, Calm;
    if i + 1 < j {
      DisposedUntil(cfg, fs, acts, i, j - 1, t, n);
      DisposedNext(cfg, fs, acts, j - 1, t, n, fs[i].DiskOf(n));
    } else {
      DisposedFirst(cfg, fs, acts, i, t, n);
    }
  }

  /**
   * Whole-run disposition: in every run, a task made for a regular file that nobody else touches, and in
   * whose runs nothing but the command fails, leaves nothing at the input path once it is done. The file
   * is then in the success directory if and only if one of its commands succeeded, and in the failure
   * directory if and only if all retryCount + 1 of them failed.
   */
  lemma FileDispositionInRuns(cfg: Config, fs: seq<FState>, acts: seq<FAction>, i: nat, j: nat, t: TaskId, n: Name)
    requires cfg.Valid() && IsFRun(cfg, fs, acts) && i < j < |fs| && MakesTask(fs[i], acts[i], t, n)
    requires fs[i].DiskOf(n).input.Regular? && forall k | i < k < j :: Calm(fs[k], acts[k], t)
    requires t in fs[j].h.sched.finished || StageOf(fs[j].h, t) == Gone
    ensures var d, end, log := fs[i].DiskOf(n), fs[j].DiskOf(n), LogOf(fs[j], t);
      && end.input == Missing
      && (end == Archived(d, true) <==> true in log)
      && (end == Archived(d, false) <==> |log| == cfg.retryCount + 1 && true !in log)
  {
    DisposedUntil(cfg, fs, acts, i, j, t, n);
    var d, log := fs[i].DiskOf(n), LogOf(fs[j], t);
    assert |Archived(d, true).success| != |Archived(d, false).success|;
    assert log == log[..|log| - 1] + [log[|log| - 1]];
  }
}
