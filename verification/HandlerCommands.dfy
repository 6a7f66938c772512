/** Whether a reported change of a file is followed by another command on it. */
module HandlerCommands {
  import opened Options
  import opened RetryStrategy
  import opened SchedulerCore
  import opened SchedulerProtocol
  import opened SchedulerOrder
  import opened SequenceNumbers
  import opened HandlerProtocol
  import opened HandlerSafety
  import opened HandlerStages
  import opened HandlerInvariants
  import opened HandlerRuns
  import opened HandlerFiles
  import opened HandlerProgress
  import opened HandlerLaunch
  import opened HandlerChanges
  import opened Files = HandlerTask

  /** t's run starts its command. */
  ghost predicate StartsCommand(f: FState, b: FAction, t: TaskId)
    requires HTyped(f.h)
  {
    OwnStep(f, b, t) && b.a.FirstLook? && b.a.ok
  }

  /**
   * Nobody but its own runs touches t's file, nothing fails in them up to the first look at it, and Stop
   * is not called.
   */
  ghost predicate Steady(f: FState, b: FAction, t: TaskId)
    requires HTyped(f.h) && t in f.h.names
  {
    && !Touches(f, b, t) && (b.Act? ==> !FailsEarly(f.h, b.a, t) && !IsStopCall(b.a))
    && (OwnStep(f, b, t) && b.a.FirstLook? ==> !b.e.statBeforeFails)
  }

  /** One of the steps acts from f starts t's command; if so asked, they are steady. */
  ghost predicate CommandsWithin(cfg: Config, f: FState, acts: seq<FAction>, t: TaskId, steady: bool)
    decreases |acts|
  {
    && acts != [] && HTyped(f.h) && t in f.h.names && FEnabled(cfg, f, acts[0])
    && (steady ==> Steady(f, acts[0], t))
    && (StartsCommand(f, acts[0], t) || CommandsWithin(cfg, FApply(cfg, f, acts[0]), acts[1..], t, steady))
  }

  /** Some continuation starts another command on t's file. */
  ghost predicate CanCommand(cfg: Config, f: FState, t: TaskId, steady: bool) {
    exists acts :: CommandsWithin(cfg, f, acts, t, steady)
  }

  /** A steady step that does not start t's command. */
  ghost predicate Idles(cfg: Config, f: FState, b: FAction, t: TaskId) {
    HTyped(f.h) && t in f.h.names && FEnabled(cfg, f, b) && Steady(f, b, t) && !StartsCommand(f, b, t)
  }

  /** The idle steps acts lead from f to a state after which t's command is never started again. */
  ghost predicate GoesUncommanded(cfg: Config, f: FState, acts: seq<FAction>, t: TaskId)
    decreases |acts|
  {
    if acts == [] then !CanCommand(cfg, f, t, false)
    else Idles(cfg, f, acts[0], t) && GoesUncommanded(cfg, FApply(cfg, f, acts[0]), acts[1..], t)
  }

  /**
   * t can go without another command, although nothing fails before its looks, nobody touches its file and
   * Stop is not called.
   */
  ghost predicate CanGoUncommanded(cfg: Config, f: FState, t: TaskId) {
    exists acts :: GoesUncommanded(cfg, f, acts, t)
  }

  /**
   * Thread u's run of t starts its command next, or finds the file changed after its command and has a
   * retry left, which starts another.
   */
  ghost predicate RunLeads(cfg: Config, f: FState, u: ThreadId, t: TaskId)
    requires t in f.h.names && t in f.h.retriesOf
  {
    && FileAt(f, t).Regular?
    && (|| RunIs(f.h, u, t, Invoking(Preparing))
        || (&& RunIs(f.h, u, t, Invoking(Commanding)) && u in f.seen && FileAt(f, t) != f.seen[u]
            && f.h.retriesOf[t] < cfg.retryCount && !f.h.sched.core.stopRequested))
  }

  /** t waits for a start that finds a regular file. */
  ghost predicate WaitLeads(f: FState, t: TaskId)
    requires t in f.h.names
  {
    StageOf(f.h, t) == Waiting && FileAt(f, t).Regular? && !f.h.sched.core.stopRequested
  }

  /** Another command will be started on t's file. */
  ghost predicate CommandComes(cfg: Config, f: FState, t: TaskId) {
    t in f.h.names && t in f.h.retriesOf && (WaitLeads(f, t) || exists u :: RunLeads(cfg, f, u, t))
  }

  // ---------- Building continuations ----------

  lemma UncommandedAfter(cfg: Config, f: FState, b: FAction, t: TaskId)
    requires Idles(cfg, f, b, t) && CanGoUncommanded(cfg, FApply(cfg, f, b), t)
    ensures CanGoUncommanded(cfg, f, t)
  {
    hide CanCommand;
    var acts :| GoesUncommanded(cfg, FApply(cfg, f, b), acts, t);
    assert ([b] + acts)[1..] == acts;
    assert GoesUncommanded(cfg, f, [b] + acts, t);
  }

  lemma CommandedAfter(cfg: Config, f: FState, b: FAction, t: TaskId)
    requires Idles(cfg, f, b, t) && CanCommand(cfg, FApply(cfg, f, b), t, true)
    ensures CanCommand(cfg, f, t, true)
  {
    var acts :| CommandsWithin(cfg, FApply(cfg, f, b), acts, t, true);
    assert ([b] + acts)[1..] == acts;
    assert CommandsWithin(cfg, f, [b] + acts, t, true);
  }

  lemma AsideIdles(cfg: Config, f: FState, b: FAction, t: TaskId)
    requires Aside(cfg, f, b, t) && t in f.h.names
    ensures Idles(cfg, f, b, t) && FApply(cfg, f, b).h.names == f.h.names
  {
  }

  lemma {:induction false} UncommandedAfterPath(cfg: Config, f: FState, acts: seq<FAction>, f': FState, t: TaskId)
    requires Path(cfg, f, acts, f', t) && t in f.h.names && CanGoUncommanded(cfg, f', t)
    ensures CanGoUncommanded(cfg, f, t)
    decreases |acts|
  {
    hide CanGoUncommanded, FApply, Idles, Aside;
    if acts != [] {
      AsideIdles(cfg, f, acts[0], t);
      UncommandedAfterPath(cfg, FApply(cfg, f, acts[0]), acts[1..], f', t);
      UncommandedAfter(cfg, f, acts[0], t);
    }
  }

  lemma {:induction false} CommandedAfterPath(cfg: Config, f: FState, acts: seq<FAction>, f': FState, t: TaskId)
    requires Path(cfg, f, acts, f', t) && t in f.h.names && CanCommand(cfg, f', t, true)
    ensures CanCommand(cfg, f, t, true)
    decreases |acts|
  {
    hide CanCommand, FApply, Idles, Aside;
    if acts != [] {
      AsideIdles(cfg, f, acts[0], t);
      CommandedAfterPath(cfg, FApply(cfg, f, acts[0]), acts[1..], f', t);
      CommandedAfter(cfg, f, acts[0], t);
    }
  }

  lemma UncommandedLater(cfg: Config, f: FState, f': FState, t: TaskId)
    requires Reaches(cfg, f, f', t) && CanGoUncommanded(cfg, f', t)
    ensures CanGoUncommanded(cfg, f, t)
  {
    hide CanGoUncommanded, Path, Present;
    var acts :| Path(cfg, f, acts, f', t);
    UncommandedAfterPath(cfg, f, acts, f', t);
  }

  lemma CommandedLater(cfg: Config, f: FState, f': FState, t: TaskId)
    requires Reaches(cfg, f, f', t) && CanCommand(cfg, f', t, true)
    ensures CanCommand(cfg, f, t, true)
  {
    hide CanCommand, Path, Present;
    var acts :| Path(cfg, f, acts, f', t);
    CommandedAfterPath(cfg, f, acts, f', t);
  }

  // ---------- A command that comes ----------

  /** A waiting task waits on, or is launched. */
  lemma WaitingLeads(cfg: Config, f: FState, b: FAction, t: TaskId)
    requires FInv(cfg, f) && Idles(cfg, f, b, t) && b.Act? && !OwnStep(f, b, t) && WaitLeads(f, t)
    ensures CommandComes(cfg, FApply(cfg, f, b), t)
  {
    var f' := FApply(cfg, f, b);
    FileStands(cfg, f, b, t);
    FlagKept(cfg, f.h, b.a);
    StageStep(cfg, f.h, b.a, t);
    StageBefore(f.h, b.a, t);
    if b.a.SchedStep? && LaunchOf(b.a.a, t) {
      LaunchedPrepares(cfg, f.h, b.a, t);
      assert RunLeads(cfg, f', b.a.a.runner, t);
    }
  }

  /** Its thread's place and what it has seen stay as they are. */
  lemma RunAndFileStand(cfg: Config, f: FState, b: FAction, u: ThreadId, t: TaskId, pc: HPc)
    requires FInv(cfg, f) && Idles(cfg, f, b, t) && !OwnStep(f, b, t)
    requires RunIs(f.h, u, t, pc) && pc.Invoking?
    ensures var f' := FApply(cfg, f, b);
      RunIs(f'.h, u, t, pc) && (u in f.seen ==> u in f'.seen && f'.seen[u] == f.seen[u])
  {
    hide FInv, HApply, HEnabled, ActOk;
    FInvBase(cfg, f);
    hide BaseOk, HTyped;
    if b.Act? {
      RunStands(cfg, f.h, b.a, u, t, pc);
    }
  }

  lemma FlagStands(cfg: Config, f: FState, b: FAction, t: TaskId)
    requires FInv(cfg, f) && Idles(cfg, f, b, t)
    ensures FApply(cfg, f, b).h.sched.core.stopRequested == f.h.sched.core.stopRequested
  {
    if b.Act? {
      FlagKept(cfg, f.h, b.a);
    }
  }

  lemma RunLeadsOn(cfg: Config, f: FState, b: FAction, u: ThreadId, t: TaskId)
    requires FInv(cfg, f) && Idles(cfg, f, b, t) && !OwnStep(f, b, t) && t in f.h.retriesOf && RunLeads(cfg, f, u, t)
    ensures var f' := FApply(cfg, f, b); t in f'.h.names && t in f'.h.retriesOf && RunLeads(cfg, f', u, t)
  {
    hide FInv, BaseOk, HApply, FApply, StageOf, HTyped, FEnabled;
    FInvBase(cfg, f);
    RunIsTried(f.h, u, t, f.h.hpc[u]);
    FileStands(cfg, f, b, t);
    RunAndFileStand(cfg, f, b, u, t, f.h.hpc[u]);
    FlagStands(cfg, f, b, t);
  }

  /** The run itself goes on to find its file changed, and asks for a retry. */
  lemma RunLeadsItself(cfg: Config, f: FState, b: FAction, u: ThreadId, t: TaskId)
    requires FInv(cfg, f) && Idles(cfg, f, b, t) && OwnStep(f, b, t) && t in f.h.retriesOf && RunLeads(cfg, f, u, t)
    ensures CommandComes(cfg, FApply(cfg, f, b), t)
  {
    RunIsTried(f.h, u, t, f.h.hpc[u]);
    assert RunIs(f.h, b.a.th, t, f.h.hpc[b.a.th]) && b.a.th == u;
    NewTaskIsNew(f.h);
    FlagKept(cfg, f.h, b.a);
    if b.a.InvokeReturn? {
      ChangedIsRetried(cfg, f, b, t);
      StageStep(cfg, f.h, b.a, t);
    } else {
      LockLeads(cfg, f, b, u, t);
    }
  }

  lemma LockLeads(cfg: Config, f: FState, b: FAction, u: ThreadId, t: TaskId)
    requires HTyped(f.h) && Idles(cfg, f, b, t) && OwnStep(f, b, t) && b.a.th == u && !b.a.InvokeReturn?
    requires t in f.h.retriesOf && RunLeads(cfg, f, u, t) && t != NextTicket(f.h.sched.counter)
    requires FApply(cfg, f, b).h.sched.core.stopRequested == f.h.sched.core.stopRequested
    ensures var f' := FApply(cfg, f, b); t in f'.h.names && t in f'.h.retriesOf && RunLeads(cfg, f', u, t)
  {
  }

  lemma ChangedIsRetried(cfg: Config, f: FState, b: FAction, t: TaskId)
    requires cfg.Valid() && HTyped(f.h) && Idles(cfg, f, b, t) && OwnStep(f, b, t) && b.a.InvokeReturn?
    requires t in f.h.retriesOf && RunLeads(cfg, f, b.a.th, t)
    ensures var f' := FApply(cfg, f, b);
      && AsksRetry(cfg, f.h, b.a) && t in f'.h.names && f'.h.names[t] == f.h.names[t] && t in f'.h.retriesOf
      && FileAt(f', t) == FileAt(f, t) && !f.h.sched.core.stopRequested
  {
    OutcomeByBudget(cfg, f.h.retriesOf[t], b.a.result);
  }

  /** t's own thread on its way back to the scheduler. */
  lemma WaitingLeadsItself(cfg: Config, f: FState, b: FAction, t: TaskId)
    requires FInv(cfg, f) && Idles(cfg, f, b, t) && OwnStep(f, b, t) && WaitLeads(f, t)
    ensures CommandComes(cfg, FApply(cfg, f, b), t)
  {
    StageStep(cfg, f.h, b.a, t);
    StageBefore(f.h, b.a, t);
    NewTaskIsNew(f.h);
    OtherFileStands(cfg, f, b, t);
    RetriesChange(cfg, f.h, b.a, t);
    FlagKept(cfg, f.h, b.a);
  }

  lemma ModifiedLeads(cfg: Config, f: FState, b: FAction, t: TaskId)
    requires Idles(cfg, f, b, t) && b.Modify? && t in f.h.retriesOf && WaitLeads(f, t)
    ensures CommandComes(cfg, FApply(cfg, f, b), t)
  {
    hide StageOf;
  }

  lemma CommandComesStep(cfg: Config, f: FState, b: FAction, t: TaskId)
    requires FInv(cfg, f) && Idles(cfg, f, b, t) && CommandComes(cfg, f, t)
    ensures CommandComes(cfg, FApply(cfg, f, b), t)
  {
    hide FInv, FApply, WaitLeads, RunLeads, FEnabled;
    if WaitLeads(f, t) {
      if OwnStep(f, b, t) {
        WaitingLeadsItself(cfg, f, b, t);
      } else if b.Act? {
        WaitingLeads(cfg, f, b, t);
      } else {
        ModifiedLeads(cfg, f, b, t);
      }
    } else {
      var u :| RunLeads(cfg, f, u, t);
      if OwnStep(f, b, t) {
        RunLeadsItself(cfg, f, b, u, t);
      } else {
        RunLeadsOn(cfg, f, b, u, t);
      }
    }
  }

  /** The first look finds the regular file, and the command is started. */
  lemma PreparingCommands(cfg: Config, f: FState, u: ThreadId, t: TaskId)
    requires HTyped(f.h) && t in f.h.names && RunIs(f.h, u, t, Invoking(Preparing)) && FileAt(f, t).Regular?
    ensures CanCommand(cfg, f, t, true)
  {
    assert CommandsWithin(cfg, f, [Act(FirstLook(u, true), QUIET)], t, true);
  }

  lemma WaitingCommands(cfg: Config, f: FState, t: TaskId)
    requires FInv(cfg, f) && t in f.h.names && WaitLeads(f, t)
    ensures CanCommand(cfg, f, t, true)
  {
    hide FInv, StageOf, Leads, CanCommand;
    var f', u := WaitingStarts(cfg, f, t);
    TypedAfter(cfg, f', t);
    PreparingCommands(cfg, f', u, t);
    CommandedLater(cfg, f, f', t);
  }

  lemma LockEffect(cfg: Config, f: FState, u: ThreadId, t: TaskId)
    requires HTyped(f.h) && t in f.h.names && RunIs(f.h, u, t, Invoking(Commanding)) && f.h.mu == None
    ensures var b := Act(InvokeLock(u), QUIET);
      Idles(cfg, f, b, t) && FApply(cfg, f, b) == f.(h := f.h.(mu := Some(u)))
  {
    assert f.h.hpc[u := Invoking(Commanding)] == f.h.hpc;
  }

  lemma LockedAmongFiles(cfg: Config, f: FState, u: ThreadId, t: TaskId)
    requires FInv(cfg, f) && t in f.h.names && RunIs(f.h, u, t, Invoking(Commanding)) && f.h.mu == None
    ensures FInv(cfg, f.(h := f.h.(mu := Some(u))))
  {
    assert HTyped(f.h);
    hide FInv;
    LockEffect(cfg, f, u, t);
    FInvStep(cfg, f, Act(InvokeLock(u), QUIET));
  }

  lemma RetryWaits(cfg: Config, f: FState, b: FAction, t: TaskId)
    requires FInv(cfg, f) && FEnabled(cfg, f, b) && OwnStep(f, b, t) && AsksRetry(cfg, f.h, b.a) && t in f.h.names
    ensures StageOf(FApply(cfg, f, b).h, t) == Waiting
  {
    StageStep(cfg, f.h, b.a, t);
  }

  /** What the run returns is an idle step. */
  lemma ReturnIdles(cfg: Config, f: FState, u: ThreadId, t: TaskId)
    requires HTyped(f.h) && t in f.h.names && RunIs(f.h, u, t, Invoking(Commanding))
    requires u in f.seen && f.seen[u].Regular?
    requires FEnabled(cfg, f, QuietReturn(cfg, f, u)) && OwnStep(f, QuietReturn(cfg, f, u), t)
    ensures Idles(cfg, f, QuietReturn(cfg, f, u), t)
  {
  }

  /** The run has a final result, or asks for a retry. */
  ghost predicate Reported(f: FState, f1: FState, u: ThreadId, t: TaskId, retries: bool)
    requires t in f.h.names
  {
    && t in f1.h.names && f1.h.mu == Some(u) && f1.h.sched == f.h.sched
    && (if retries then StageOf(f1.h, t) == Waiting && FileAt(f1, t) == FileAt(f, t) else RunIs(f1.h, u, t, Finalizing))
  }

  /** With the lock, a run asks for a retry if it finds a changed file and has one left. */
  lemma QuietlyReported(cfg: Config, f: FState, u: ThreadId, t: TaskId) returns (b: FAction)
    requires FInv(cfg, f) && t in f.h.names && RunIs(f.h, u, t, Invoking(Commanding)) && f.h.mu == Some(u)
    ensures t in f.h.retriesOf && u in f.seen && Idles(cfg, f, b, t) && FInv(cfg, FApply(cfg, f, b))
    ensures var retries := FileAt(f, t) != Missing && FileAt(f, t) != f.seen[u] && f.h.retriesOf[t] < cfg.retryCount;
      Reported(f, FApply(cfg, f, b), u, t, retries)
  {
    assert HTyped(f.h) && cfg.Valid();
    hide FInv, HApply, FApply, StageOf, Attempted, Idles;
    RetriesAreBounded(cfg, f, u, t);
    QuietReturnEffect(cfg, f, u, t);
    b := QuietReturn(cfg, f, u);
    ReturnIdles(cfg, f, u, t);
    FInvStep(cfg, f, b);
    if AsksRetry(cfg, f.h, b.a) {
      RetryWaits(cfg, f, b, t);
    }
  }

  lemma LockedCommands(cfg: Config, f: FState, u: ThreadId, t: TaskId)
    requires FInv(cfg, f) && t in f.h.names && t in f.h.retriesOf && RunLeads(cfg, f, u, t)
    requires RunIs(f.h, u, t, Invoking(Commanding)) && f.h.mu == Some(u)
    ensures CanCommand(cfg, f, t, true)
  {
    hide FInv, FApply, StageOf, CanCommand;
    var b := QuietlyReported(cfg, f, u, t);
    WaitingCommands(cfg, FApply(cfg, f, b), t);
    CommandedAfter(cfg, f, b, t);
  }

  lemma FreeCommands(cfg: Config, f: FState, u: ThreadId, t: TaskId)
    requires FInv(cfg, f) && t in f.h.names && t in f.h.retriesOf && RunLeads(cfg, f, u, t)
    requires RunIs(f.h, u, t, Invoking(Commanding)) && f.h.mu == None
    ensures CanCommand(cfg, f, t, true)
  {
    assert HTyped(f.h);
    hide FInv, FApply, CanCommand, Idles;
    LockEffect(cfg, f, u, t);
    LockedAmongFiles(cfg, f, u, t);
    LockedCommands(cfg, f.(h := f.h.(mu := Some(u))), u, t);
    CommandedAfter(cfg, f, Act(InvokeLock(u), QUIET), t);
  }

  lemma KeptLeads(cfg: Config, f: FState, f': FState, u: ThreadId, t: TaskId)
    requires Kept(f, f', t) && RunIs(f.h, u, t, Invoking(Commanding)) && RunIs(f'.h, u, t, Invoking(Commanding))
    ensures RunLeads(cfg, f', u, t) <==> RunLeads(cfg, f, u, t)
  {
  }

  lemma CommandingCommands(cfg: Config, f: FState, u: ThreadId, t: TaskId)
    requires FInv(cfg, f) && t in f.h.names && t in f.h.retriesOf && RunLeads(cfg, f, u, t)
    requires RunIs(f.h, u, t, Invoking(Commanding)) && f.h.mu != Some(u)
    ensures CanCommand(cfg, f, t, true)
  {
    RunWithoutLock(f.h, u, t, Invoking(Commanding));
    hide FInv, StageOf, Leads, CanCommand, RunLeads;
    var f' := MutexFreed(cfg, f, t);
    KeptLeads(cfg, f, f', u, t);
    FreeCommands(cfg, f', u, t);
    CommandedLater(cfg, f, f', t);
  }

  lemma RunCommands(cfg: Config, f: FState, u: ThreadId, t: TaskId)
    requires FInv(cfg, f) && t in f.h.names && t in f.h.retriesOf && RunLeads(cfg, f, u, t)
    ensures CanCommand(cfg, f, t, true)
  {
    hide FInv, StageOf, CanCommand;
    if RunIs(f.h, u, t, Invoking(Preparing)) {
      FInvBase(cfg, f);
      PreparingCommands(cfg, f, u, t);
    } else if f.h.mu == Some(u) {
      LockedCommands(cfg, f, u, t);
    } else {
      CommandingCommands(cfg, f, u, t);
    }
  }

  /** The command that comes can indeed be started. */
  lemma ComingCommands(cfg: Config, f: FState, t: TaskId)
    requires FInv(cfg, f) && CommandComes(cfg, f, t)
    ensures CanCommand(cfg, f, t, true)
  {
    hide FInv, WaitLeads, RunLeads, CanCommand;
    if WaitLeads(f, t) {
      WaitingCommands(cfg, f, t);
    } else {
      var u :| RunLeads(cfg, f, u, t);
      RunCommands(cfg, f, u, t);
    }
  }

  lemma SteadyOrNot(cfg: Config, f: FState, acts: seq<FAction>, t: TaskId)
    requires CommandsWithin(cfg, f, acts, t, true)
    ensures CommandsWithin(cfg, f, acts, t, false)
    decreases |acts|
  {
    if !StartsCommand(f, acts[0], t) {
      SteadyOrNot(cfg, FApply(cfg, f, acts[0]), acts[1..], t);
    }
  }

  lemma SteadyIsPossible(cfg: Config, f: FState, t: TaskId)
    requires CanCommand(cfg, f, t, true)
    ensures CanCommand(cfg, f, t, false)
  {
    hide CommandsWithin;
    var acts :| CommandsWithin(cfg, f, acts, t, true);
    SteadyOrNot(cfg, f, acts, t);
  }

  lemma {:induction false} CommandComesFirst(cfg: Config, f: FState, acts: seq<FAction>, t: TaskId)
    requires FInv(cfg, f) && CommandComes(cfg, f, t)
    ensures !GoesUncommanded(cfg, f, acts, t)
    decreases |acts|
  {
    hide FInv, CommandComes, CanCommand, FApply;
    if acts == [] {
      ComingCommands(cfg, f, t);
      SteadyIsPossible(cfg, f, t);
    } else if Idles(cfg, f, acts[0], t) {
      FInvStep(cfg, f, acts[0]);
      CommandComesStep(cfg, f, acts[0], t);
      CommandComesFirst(cfg, FApply(cfg, f, acts[0]), acts[1..], t);
    }
  }

  lemma NeverUncommanded(cfg: Config, f: FState, t: TaskId)
    requires FInv(cfg, f) && CommandComes(cfg, f, t)
    ensures !CanGoUncommanded(cfg, f, t)
  {
    hide FInv, CommandComes, GoesUncommanded;
    forall acts
      ensures !GoesUncommanded(cfg, f, acts, t)
    {
      CommandComesFirst(cfg, f, acts, t);
    }
  }

  // ---------- No command ----------

  /** A task that is gone, or waits for a stopped scheduler, never starts a command again. */
  lemma {:induction false} PastNeverCommands(cfg: Config, f: FState, acts: seq<FAction>, t: TaskId)
    requires FInv(cfg, f) && Past(f.h, t)
    ensures !CommandsWithin(cfg, f, acts, t, false)
    decreases |acts|
  {
    assert HTyped(f.h);
    hide FInv, Past, FApply, HApply;
    if acts != [] && t in f.h.names && FEnabled(cfg, f, acts[0]) {
      PastAmongFiles(cfg, f, acts[0], t);
      FInvStep(cfg, f, acts[0]);
      PastNeverCommands(cfg, FApply(cfg, f, acts[0]), acts[1..], t);
    }
  }

  lemma PastAmongFiles(cfg: Config, f: FState, b: FAction, t: TaskId)
    requires FInv(cfg, f) && FEnabled(cfg, f, b) && Past(f.h, t)
    ensures !StartsCommand(f, b, t) && Past(FApply(cfg, f, b).h, t)
  {
    if b.Act? {
      PastStep(cfg, f.h, b.a, t);
    }
  }

  lemma EndPast(cfg: Config, f: FState, t: TaskId)
    requires FInv(cfg, f) && Past(f.h, t)
    ensures CanGoUncommanded(cfg, f, t)
  {
    hide FInv, Past, CommandsWithin;
    forall acts
      ensures !CommandsWithin(cfg, f, acts, t, false)
    {
      PastNeverCommands(cfg, f, acts, t);
    }
    assert GoesUncommanded(cfg, f, [], t);
  }

  lemma DeleteIdles(cfg: Config, f: FState, u: ThreadId, t: TaskId)
    requires HTyped(f.h) && t in f.h.names && RunIs(f.h, u, t, Finalizing) && (f.h.mu == None || f.h.mu == Some(u))
    ensures var b := Act(Delete(u), QUIET);
      && Idles(cfg, f, b, t) && FApply(cfg, f, b).h == HApply(cfg, f.h, Delete(u)) && RunnerSteps(f.h, Delete(u), t)
      && FApply(cfg, f, b).h.names == f.h.names
  {
  }

  lemma EndDeleting(cfg: Config, f: FState, u: ThreadId, t: TaskId)
    requires FInv(cfg, f) && t in f.h.names && RunIs(f.h, u, t, Finalizing) && (f.h.mu == None || f.h.mu == Some(u))
    ensures CanGoUncommanded(cfg, f, t)
  {
    assert BaseOk(f.h);
    hide FInv, StageOf, CanGoUncommanded, HApply, FApply;
    var b := Act(Delete(u), QUIET);
    DeleteIdles(cfg, f, u, t);
    StageStep(cfg, f.h, Delete(u), t);
    FInvStep(cfg, f, b);
    EndPast(cfg, FApply(cfg, f, b), t);
    UncommandedAfter(cfg, f, b, t);
  }

  lemma EndFinalizing(cfg: Config, f: FState, u: ThreadId, t: TaskId)
    requires FInv(cfg, f) && t in f.h.names && RunIs(f.h, u, t, Finalizing)
    ensures CanGoUncommanded(cfg, f, t)
  {
    if f.h.mu == Some(u) {
      EndDeleting(cfg, f, u, t);
    } else {
      RunWithoutLock(f.h, u, t, Finalizing);
      hide FInv, StageOf, Leads, CanGoUncommanded;
      var f' := MutexFreed(cfg, f, t);
      EndDeleting(cfg, f', u, t);
      UncommandedLater(cfg, f, f', t);
    }
  }

  lemma RefusedReturns(cfg: Config, f: FState, u: ThreadId, t: TaskId)
    requires HTyped(f.h) && t in f.h.names && RunIs(f.h, u, t, Invoking(Refused))
    ensures var b := Act(InvokeReturn(u, PermanentFailure), QUIET);
      Idles(cfg, f, b, t) && var h' := FApply(cfg, f, b).h; t in h'.names && RunIs(h', u, t, Finalizing)
  {
  }

  lemma EndRefused(cfg: Config, f: FState, u: ThreadId, t: TaskId)
    requires FInv(cfg, f) && t in f.h.names && RunIs(f.h, u, t, Invoking(Refused))
    ensures CanGoUncommanded(cfg, f, t)
  {
    hide FInv, FApply, CanGoUncommanded;
    FInvBase(cfg, f);
    var b := Act(InvokeReturn(u, PermanentFailure), QUIET);
    RefusedReturns(cfg, f, u, t);
    FInvStep(cfg, f, b);
    EndFinalizing(cfg, FApply(cfg, f, b), u, t);
    UncommandedAfter(cfg, f, b, t);
  }

  lemma NoFileIsRefused(cfg: Config, f: FState, u: ThreadId, t: TaskId)
    requires HTyped(f.h) && t in f.h.names && RunIs(f.h, u, t, Invoking(Preparing)) && !FileAt(f, t).Regular?
    ensures var b := Act(FirstLook(u, false), QUIET);
      Idles(cfg, f, b, t) && var h' := FApply(cfg, f, b).h; t in h'.names && RunIs(h', u, t, Invoking(Refused))
  {
  }

  /** Without a regular file the first look refuses. */
  lemma EndPreparing(cfg: Config, f: FState, u: ThreadId, t: TaskId)
    requires FInv(cfg, f) && t in f.h.names && RunIs(f.h, u, t, Invoking(Preparing)) && !FileAt(f, t).Regular?
    ensures CanGoUncommanded(cfg, f, t)
  {
    hide FInv, FApply, CanGoUncommanded;
    FInvBase(cfg, f);
    var b := Act(FirstLook(u, false), QUIET);
    NoFileIsRefused(cfg, f, u, t);
    FInvStep(cfg, f, b);
    EndRefused(cfg, FApply(cfg, f, b), u, t);
    UncommandedAfter(cfg, f, b, t);
  }

  lemma EndWaiting(cfg: Config, f: FState, t: TaskId)
    requires FInv(cfg, f) && t in f.h.names && StageOf(f.h, t) == Waiting && !WaitLeads(f, t)
    ensures CanGoUncommanded(cfg, f, t)
  {
    hide FInv, StageOf, Leads, CanGoUncommanded;
    if f.h.sched.core.stopRequested {
      EndPast(cfg, f, t);
    } else {
      var f', u := WaitingStarts(cfg, f, t);
      EndPreparing(cfg, f', u, t);
      UncommandedLater(cfg, f, f', t);
    }
  }

  /** With the lock: the result is final, or the retry finds no regular file or a stopped scheduler. */
  lemma EndLocked(cfg: Config, f: FState, u: ThreadId, t: TaskId)
    requires FInv(cfg, f) && t in f.h.names && t in f.h.retriesOf && !RunLeads(cfg, f, u, t)
    requires RunIs(f.h, u, t, Invoking(Commanding)) && f.h.mu == Some(u)
    ensures CanGoUncommanded(cfg, f, t)
  {
    hide FInv, FApply, StageOf, CanGoUncommanded;
    var b := QuietlyReported(cfg, f, u, t);
    var f1 := FApply(cfg, f, b);
    if RunIs(f1.h, u, t, Finalizing) {
      EndFinalizing(cfg, f1, u, t);
    } else {
      EndWaiting(cfg, f1, t);
    }
    UncommandedAfter(cfg, f, b, t);
  }

  lemma EndUnlocked(cfg: Config, f: FState, u: ThreadId, t: TaskId)
    requires FInv(cfg, f) && t in f.h.names && t in f.h.retriesOf && !RunLeads(cfg, f, u, t)
    requires RunIs(f.h, u, t, Invoking(Commanding)) && f.h.mu == None
    ensures CanGoUncommanded(cfg, f, t)
  {
    hide FInv, FApply, Idles, CanGoUncommanded;
    FInvBase(cfg, f);
    LockEffect(cfg, f, u, t);
    LockedAmongFiles(cfg, f, u, t);
    EndLocked(cfg, f.(h := f.h.(mu := Some(u))), u, t);
    UncommandedAfter(cfg, f, Act(InvokeLock(u), QUIET), t);
  }

  lemma EndCommanding(cfg: Config, f: FState, u: ThreadId, t: TaskId)
    requires FInv(cfg, f) && t in f.h.names && t in f.h.retriesOf && !RunLeads(cfg, f, u, t)
    requires RunIs(f.h, u, t, Invoking(Commanding)) && f.h.mu != Some(u)
    ensures CanGoUncommanded(cfg, f, t)
  {
    RunWithoutLock(f.h, u, t, Invoking(Commanding));
    hide FInv, StageOf, Leads, CanGoUncommanded, RunLeads;
    var f' := MutexFreed(cfg, f, t);
    KeptLeads(cfg, f, f', u, t);
    EndUnlocked(cfg, f', u, t);
    UncommandedLater(cfg, f, f', t);
  }

  /** Unless a command comes, the task can go without one. */
  lemma EndsUncommanded(cfg: Config, f: FState, t: TaskId)
    requires FInv(cfg, f) && t in f.h.names && t in f.h.retriesOf && !CommandComes(cfg, f, t)
    ensures CanGoUncommanded(cfg, f, t)
  {
    assert BaseOk(f.h);
    hide FInv, CanGoUncommanded, StageOf;
    if StageOf(f.h, t) == Gone {
      EndPast(cfg, f, t);
    } else if StageOf(f.h, t) == Waiting {
      EndWaiting(cfg, f, t);
    } else {
      var u := TriedByRun(f.h, t);
      hide BaseOk;
      assert !RunLeads(cfg, f, u, t);
      EndRun(cfg, f, u, t);
    }
  }

  lemma EndRun(cfg: Config, f: FState, u: ThreadId, t: TaskId)
    requires FInv(cfg, f) && t in f.h.names && t in f.h.retriesOf && !RunLeads(cfg, f, u, t)
    requires
      || RunIs(f.h, u, t, Invoking(Preparing)) || RunIs(f.h, u, t, Invoking(Refused))
      || RunIs(f.h, u, t, Invoking(Commanding)) || RunIs(f.h, u, t, Finalizing)
    ensures CanGoUncommanded(cfg, f, t)
  {
    hide FInv, CanGoUncommanded;
    if f.h.hpc[u].Finalizing? {
      EndFinalizing(cfg, f, u, t);
    } else if f.h.hpc[u].phase.Refused? {
      EndRefused(cfg, f, u, t);
    } else if f.h.hpc[u].phase.Preparing? {
      EndPreparing(cfg, f, u, t);
    } else if f.h.mu == Some(u) {
      EndLocked(cfg, f, u, t);
    } else {
      EndCommanding(cfg, f, u, t);
    }
  }

  // ---------- The result ----------

  /** The call that reports the change locks. */
  lemma CoalescedAmongFiles(cfg: Config, f: FState, th: ThreadId, t: TaskId)
    requires FInv(cfg, f) && Coalesces(cfg, f.h, th, t)
    ensures FInv(cfg, f.(h := Entered(f.h, th)))
  {
    FInvBase(cfg, f);
    hide FInv, HInv, HApply;
    CoalescedStep(cfg, f.h, th);
    EntersAmongFiles(cfg, f, th);
    FInvStep(cfg, f, Act(HandleEnter(th), QUIET));
  }

  lemma EntersAmongFiles(cfg: Config, f: FState, th: ThreadId)
    requires HTyped(f.h) && HEnabled(f.h, HandleEnter(th)) && f.h.hpc[th].name in f.h.pending
    requires HApply(cfg, f.h, HandleEnter(th)) == Entered(f.h, th)
    ensures FEnabled(cfg, f, Act(HandleEnter(th), QUIET))
    ensures FApply(cfg, f, Act(HandleEnter(th), QUIET)) == f.(h := Entered(f.h, th))
  {
    hide HApply;
  }

  /** The thread of the call is in no run. */
  lemma CallerLeadsNothing(cfg: Config, f: FState, th: ThreadId, t: TaskId)
    requires LinkOk(f.h) && th in f.h.hpc && f.h.hpc[th].HandleLock? && t in f.h.names
    requires StageOf(Entered(f.h, th), t) == StageOf(f.h, t)
    ensures CommandComes(cfg, f.(h := Entered(f.h, th)), t) <==> CommandComes(cfg, f, t)
  {
    CallerIsNoRunner(f.h, th, t);
    hide LinkOk, StageOf;
    assert forall u :: RunLeads(cfg, f.(h := Entered(f.h, th)), u, t) <==> RunLeads(cfg, f, u, t);
  }

  lemma CommandComesEntered(cfg: Config, f: FState, th: ThreadId, t: TaskId)
    requires FInv(cfg, f) && Coalesces(cfg, f.h, th, t)
    ensures t in f.h.names && t in f.h.retriesOf
    ensures CommandComes(cfg, f.(h := Entered(f.h, th)), t) <==> CommandComes(cfg, f, t)
  {
    hide FInv, HInv, CommandComes, StageOf;
    FInvBase(cfg, f);
    CoalescedEnter(cfg, f.h, th, t);
    CallerLeadsNothing(cfg, f, th, t);
  }

  lemma CommandFollowsIffHere(cfg: Config, f: FState, th: ThreadId, t: TaskId)
    requires FInv(cfg, f) && Coalesces(cfg, f.h, th, t)
    ensures var f1 := f.(h := Entered(f.h, th));
      && (CanGoUncommanded(cfg, f1, t) <==> !CommandComes(cfg, f, t))
      && (CommandComes(cfg, f, t) ==> CanCommand(cfg, f1, t, true))
  {
    hide FInv, Coalesces, CanGoUncommanded, CommandComes, CanCommand;
    var f1 := f.(h := Entered(f.h, th));
    CoalescedAmongFiles(cfg, f, th, t);
    CommandComesEntered(cfg, f, th, t);
    if CommandComes(cfg, f, t) {
      NeverUncommanded(cfg, f1, t);
      ComingCommands(cfg, f1, t);
    } else {
      EndsUncommanded(cfg, f1, t);
    }
  }

  lemma InvariantsOfRun(cfg: Config, fs: seq<FState>, acts: seq<FAction>, i: nat, th: ThreadId, t: TaskId)
    requires cfg.Valid() && IsFRun(cfg, fs, acts) && i < |fs| && FindsPending(fs[i].h, th, t)
    ensures FInv(cfg, fs[i]) && Coalesces(cfg, fs[i].h, th, t)
  {
    FInvHolds(cfg, fs, acts, i);
    hide HInv;
  }

  /**
   * In every reachable state, a change that finds its name pending is followed by another command on the
   * file exactly if the file is regular and one of these holds: the task waits, and the scheduler was not
   * stopped; its run is about to look at the file; its command is being run, the file is no longer what
   * the run looked at, a retry is left, and the scheduler was not stopped. Otherwise the task can go
   * without one: some continuation leads to a state after which no command on the file is ever started.
   * All that is meant under the assumption that nobody touches the file afterwards, nothing fails up to the
   * first look, and Stop is not called afterwards.
   */
  lemma CommandFollowsIff(cfg: Config, fs: seq<FState>, acts: seq<FAction>, i: nat, th: ThreadId, t: TaskId)
    requires cfg.Valid() && IsFRun(cfg, fs, acts) && i < |fs| && FindsPending(fs[i].h, th, t)
    ensures CanGoUncommanded(cfg, fs[i].(h := Entered(fs[i].h, th)), t) <==> !CommandComes(cfg, fs[i], t)
  {
    hide FInv, Coalesces, CanGoUncommanded, CommandComes, CanCommand;
    InvariantsOfRun(cfg, fs, acts, i, th, t);
    CommandFollowsIffHere(cfg, fs[i], th, t);
  }

  /** And the command that follows can indeed be started, with nothing but steady steps on the way. */
  lemma CommandCanFollow(cfg: Config, fs: seq<FState>, acts: seq<FAction>, i: nat, th: ThreadId, t: TaskId)
    requires cfg.Valid() && IsFRun(cfg, fs, acts) && i < |fs| && FindsPending(fs[i].h, th, t)
    requires CommandComes(cfg, fs[i], t)
    ensures CanCommand(cfg, fs[i].(h := Entered(fs[i].h, th)), t, true)
  {
    hide FInv, Coalesces, CanGoUncommanded, CommandComes, CanCommand;
    InvariantsOfRun(cfg, fs, acts, i, th, t);
    CommandFollowsIffHere(cfg, fs[i], th, t);
  }

  lemma RunningCommandLeads(cfg: Config, f: FState, u: ThreadId, t: TaskId)
    requires FInv(cfg, f) && t in f.h.names && RunIs(f.h, u, t, Invoking(Commanding)) && u in f.seen
    requires FileAt(f, t).Regular? && FileAt(f, t) != f.seen[u]
    ensures t in f.h.retriesOf
    ensures CommandComes(cfg, f, t) <==> f.h.retriesOf[t] != cfg.retryCount && !f.h.sched.core.stopRequested
  {
    RunIsTried(f.h, u, t, Invoking(Commanding));
    assert AttemptsOk(cfg, f.h, t);
    hide FInv, StageOf;
    assert f.h.retriesOf[t] < cfg.retryCount && !f.h.sched.core.stopRequested ==> RunLeads(cfg, f, u, t);
    assert forall v | RunLeads(cfg, f, v, t) :: RunIs(f.h, v, t, f.h.hpc[v]);
  }

  /**
   * A file changed during its command is handled again exactly if the task has a retry left and the
   * scheduler was not stopped.
   */
  lemma ChangeDuringCommandIff(
      cfg: Config, fs: seq<FState>, acts: seq<FAction>, i: nat, th: ThreadId, u: ThreadId, t: TaskId)
    requires cfg.Valid() && IsFRun(cfg, fs, acts) && i < |fs| && FindsPending(fs[i].h, th, t) && t in fs[i].h.names
    requires RunIs(fs[i].h, u, t, Invoking(Commanding)) && u in fs[i].seen
    requires FileAt(fs[i], t).Regular? && FileAt(fs[i], t) != fs[i].seen[u]
    ensures t in fs[i].h.retriesOf
    ensures CanGoUncommanded(cfg, fs[i].(h := Entered(fs[i].h, th)), t) <==>
      fs[i].h.retriesOf[t] == cfg.retryCount || fs[i].h.sched.core.stopRequested
  {
    hide FInv, Coalesces, CanGoUncommanded, CommandComes;
    CommandFollowsIff(cfg, fs, acts, i, th, t);
    InvariantsOfRun(cfg, fs, acts, i, th, t);
    RunningCommandLeads(cfg, fs[i], u, t);
  }
}
