/**
 * One changed file on its way through attempts: internal/handlerattempt, internal/handlertask and the
 * error classification of internal/scheduler.
 */
module HandlerTask {
  import opened Options
  import opened RetryStrategy

  // ---------- Errors ----------

  /** Errors as far as errors.As sees them. */
  datatype Error =
    | Plain
    | Wrapped(inner: Error)
    | Joined(first: Error, second: Error)
    | TaskError(cause: Error, retryDelay: int)

  /** errors.As with a *TaskError target. */
  function FindTaskError(e: Error): Option<Error> {
    match e
    case Plain => None
    case Wrapped(inner) => FindTaskError(inner)
    case Joined(first, second) => if FindTaskError(first).Some? then FindTaskError(first) else FindTaskError(second)
    case TaskError(_, _) => Some(e)
  }

  /** AsTaskError; None is the nil error. */
  function AsTaskError(err: Option<Error>): (te: Option<Error>)
    ensures te.Some? ==> te.value.TaskError?
    ensures te.None? <==> err.None?
  {
    if err.None? then None
    else if FindTaskError(err.value).Some? then Found(err.value)
    else Some(TaskError(err.value, STOP))
  }

  function Found(e: Error): (te: Option<Error>)
    requires FindTaskError(e).Some?
    ensures te == FindTaskError(e) && te.value.TaskError?
  {
    match e
    case Wrapped(inner) => Found(inner)
    case Joined(first, second) => if FindTaskError(first).Some? then Found(first) else Found(second)
    case TaskError(_, _) => Some(e)
  }

  /** TaskError.Permanent; the nil receiver is permanent. */
  predicate Permanent(te: Option<Error>)
    requires te.Some? ==> te.value.TaskError?
  {
    te.None? || te.value.retryDelay < 0
  }

  /** The scheduler's Task.run: None for finished, otherwise the delay before the next run. */
  function TaskRun(err: Option<Error>): Option<int> {
    if err.None? then None
    else
      var te := AsTaskError(err);
      if Permanent(te) then None else Some(te.value.retryDelay)
  }

  /** A task error is in e at the end of a chain of wrapped and joined errors. */
  predicate Mentions(e: Error, te: Error) {
    match e
    case Plain => false
    case Wrapped(inner) => Mentions(inner, te)
    case Joined(first, second) => Mentions(first, te) || Mentions(second, te)
    case TaskError(_, _) => e == te
  }

  ghost predicate MentionsSome(e: Error) {
    exists te :: Mentions(e, te)
  }

  /**
   * What the scheduler makes of an error: one that mentions no task error is permanent, wrapping changes
   * nothing, of joined errors the first that mentions one counts, and a task error counts by its own delay,
   * which is a delay before a retry exactly if it is not negative.
   */
  lemma {:induction false} ErrorClassification(e: Error)
    ensures !MentionsSome(e) ==> TaskRun(Some(e)) == None
    ensures TaskRun(Some(e)).Some? ==>
      && 0 <= TaskRun(Some(e)).value
      && exists te :: Mentions(e, te) && te.TaskError? && te.retryDelay == TaskRun(Some(e)).value
    ensures TaskRun(Some(Wrapped(e))) == TaskRun(Some(e))
    ensures forall other ::
      TaskRun(Some(Joined(e, other))) == TaskRun(Some(if MentionsSome(e) then e else other))
    ensures forall delay :: TaskRun(Some(TaskError(e, delay))) == (if delay < 0 then None else Some(delay))
  {
    FoundIffMentioned(e);
    if FindTaskError(e).Some? {
      FoundIsMentioned(e);
    }
  }

  lemma {:induction false} FoundIfMentioned(e: Error, te: Error)
    requires Mentions(e, te)
    ensures FindTaskError(e).Some?
  {
    match e
    case Wrapped(inner) => FoundIfMentioned(inner, te);
    case Joined(first, second) =>
      if Mentions(first, te) {
        FoundIfMentioned(first, te);
      } else {
        FoundIfMentioned(second, te);
      }
    case TaskError(_, _) =>
  }

  lemma FoundIffMentioned(e: Error)
    ensures FindTaskError(e).Some? <==> MentionsSome(e)
  {
    if FindTaskError(e).Some? {
      FoundIsMentioned(e);
    } else if te :| Mentions(e, te) {
      FoundIfMentioned(e, te);
    }
  }

  /** An error without a task error becomes the cause of a permanent one; otherwise one that it mentions is taken. */
  lemma AsTaskErrorKeepsError(e: Error)
    ensures var te := AsTaskError(Some(e)).value;
      if MentionsSome(e) then Mentions(e, te) else te == TaskError(e, STOP)
  {
    FoundIffMentioned(e);
    if FindTaskError(e).Some? {
      FoundIsMentioned(e);
    }
  }

  lemma {:induction false} FoundIsMentioned(e: Error)
    requires FindTaskError(e).Some?
    ensures FindTaskError(e).value.TaskError? && Mentions(e, FindTaskError(e).value)
  {
    match e
    case Wrapped(inner) => FoundIsMentioned(inner);
    case Joined(first, second) =>
      if FindTaskError(first).Some? {
        FoundIsMentioned(first);
      } else {
        FoundIsMentioned(second);
      }
    case TaskError(_, _) =>
  }

  // ---------- One attempt ----------

  /** What is found at the path of the changed file. `stat` stands for all that DescribeChanges compares. */
  datatype Entry = Missing | Irregular(stat: nat) | Regular(stat: nat)

  /** The input path and what the archive directories received. */
  datatype Disk = Disk(input: Entry, success: seq<nat>, failure: seq<nat>)

  /** All that an attempt cannot decide: failing calls and what the command did. */
  datatype Env = Env(
    journalFails: bool,      // creating the journal directory
    logFails: bool,          // opening the log file
    dirFails: bool,          // creating the attempt's directory
    newFails: bool,          // setting up the command
    statBeforeFails: bool,   // Lstat before the command, other than for a missing file
    commandOk: bool,
    left: Entry,             // what the command and everybody else left at the input path
    statAfterFails: bool,    // Lstat after the command, other than for a missing file
    moveFails: bool,         // moving to the archive
    closeFails: bool,        // closing the log file
    jitter: real)

  datatype AttemptResult = AttemptResult(disk: Disk, permanent: bool, failed: bool, locked: bool)

  function Archived(d: Disk, success: bool): Disk
    requires d.input.Regular?
  {
    if success then d.(input := Missing, success := d.success + [d.input.stat])
    else d.(input := Missing, failure := d.failure + [d.input.stat])
  }

  /** The rest of Attempt.Run once the command is done: `before` is what the first Lstat found. */
  function AfterCommand(before: Entry, after: Disk, final: bool, e: Env): AttemptResult
    requires before.Regular?
  {
    if e.statAfterFails then
      AttemptResult(after, false, true, true)
    else if after.input.Missing? then
      AttemptResult(after, true, !e.commandOk, true)
    else if after.input != before then
      AttemptResult(after, false, true, true)
    else if (e.commandOk || final) && !e.moveFails then
      AttemptResult(Archived(after, e.commandOk), false, !e.commandOk, true)
    else
      AttemptResult(after, false, true, true)
  }

  /** Attempt.Run */
  function Attempt(d: Disk, final: bool, e: Env): AttemptResult {
    if e.statBeforeFails || !d.input.Regular? then AttemptResult(d, true, true, false)
    else AfterCommand(d.input, d.(input := e.left), final, e)
  }

  // ---------- The task ----------

  /** A task between two runs. */
  datatype Progress = Progress(attempt: nat, journal: bool, retry: Option<Snapshot>)

  datatype RunResult = RunResult(progress: Progress, disk: Disk, err: Option<Error>, locked: bool)

  function RetryOf(cfg: Config, p: Progress): Snapshot {
    if p.retry.Some? then p.retry.value else Snapshot(cfg.retryCount, cfg.initial)
  }

  /** The part of Task.Run under the log wrapper: the attempt's directory, the attempt and closing the log. */
  function WithLog(d: Disk, final: bool, e: Env): AttemptResult {
    if e.logFails || e.dirFails then AttemptResult(d, false, true, false)
    else
      var r := if e.newFails then AttemptResult(d, true, true, false) else Attempt(d, final, e);
      r.(failed := r.failed || e.closeFails)
  }

  /** Task.Run */
  function RunTask(cfg: Config, p: Progress, d: Disk, e: Env): RunResult {
    if !p.journal && e.journalFails then
      RunResult(p.(attempt := p.attempt + 1), d, Some(Plain), false)
    else
      var retry := RetryOf(cfg, p);
      var delay := CurrentOf(retry);
      var r := WithLog(d, delay == STOP, e);
      if r.permanent || !r.failed then
        RunResult(Progress(p.attempt + 1, true, Some(retry)), r.disk, if r.failed then Some(Plain) else None, r.locked)
      else
        RunResult(Progress(p.attempt + 1, true, Some(Advanced(cfg, retry))), r.disk,
                  Some(TaskError(Plain, Fuzz(delay, FUZZ_FACTOR, e.jitter))), r.locked)
  }

  // ---------- The objects ----------

  /** The changed file's path and the archive directories. */
  class Site {
    var input: Entry
    var success: seq<nat>
    var failure: seq<nat>

    constructor (d: Disk)
      ensures View() == d
    {
      input, success, failure := d.input, d.success, d.failure;
    }

    ghost function View(): Disk
      reads this
    {
      Disk(input, success, failure)
    }

    /** Journal.MoveToArchive for the changed file, which is regular at this point. */
    method MoveToArchive(succeeded: bool, fails: bool) returns (failed: bool)
      requires input.Regular?
      modifies this
      ensures failed == fails && View() == if fails then old(View()) else Archived(old(View()), succeeded)
    {
      if fails {
        return true;
      }
      if succeeded {
        success := success + [input.stat];
      } else {
        failure := failure + [input.stat];
      }
      input := Missing;
      failed := false;
    }

    /** Attempt.Run */
    method RunAttempt(final: bool, e: Env) returns (permanent: bool, failed: bool, locked: bool)
      modifies this
      ensures AttemptResult(View(), permanent, failed, locked) == Attempt(old(View()), final, e)
    {
      var before := input;
      if e.statBeforeFails || !before.Regular? {
        return true, true, false;
      }
      input := e.left;
      locked := true;
      permanent, failed := false, !e.commandOk;
      if e.statAfterFails || input.Missing? {
        if !(e.commandOk && !e.statAfterFails) {
          failed := true;
        }
        permanent := !e.statAfterFails;
      } else if input != before {
        failed := true;
      } else if e.commandOk || final {
        var moveFailed := MoveToArchive(e.commandOk, e.moveFails);
        failed := failed || moveFailed;
      }
    }

    /** The function that Task.Run passes to the log wrapper, and the wrapper itself. */
    method RunWithLog(final: bool, e: Env) returns (permanent: bool, failed: bool, locked: bool)
      modifies this
      ensures AttemptResult(View(), permanent, failed, locked) == WithLog(old(View()), final, e)
    {
      if e.logFails || e.dirFails {
        return false, true, false;
      }
      if e.newFails {
        permanent, failed, locked := true, true, false;
      } else {
        permanent, failed, locked := RunAttempt(final, e);
      }
      failed := failed || e.closeFails;
    }
  }

  /** The handler's task. */
  class Task {
    const cfg: Config
    var retry: Strategy?
    var currentAttempt: nat
    var journalDir: bool

    constructor (cfg: Config)
      ensures this.cfg == cfg && retry == null && View() == Progress(0, false, None)
    {
      this.cfg := cfg;
      retry, currentAttempt, journalDir := null, 0, false;
    }

    ghost function View(): Progress
      reads this, retry
    {
      Progress(currentAttempt, journalDir, if retry == null then None else Some(retry.View()))
    }

    /** The first part of Task.Run: a journal directory and a strategy, unless there are some already. */
    method Prepare(e: Env) returns (failed: bool)
      requires retry != null ==> retry.cfg == cfg
      modifies this`journalDir, this`retry
      ensures failed == (!old(journalDir) && e.journalFails)
      ensures failed ==> retry == old(retry) && journalDir == old(journalDir)
      ensures !failed ==> journalDir && retry != null && retry.cfg == cfg && retry.View() == RetryOf(cfg, old(View()))
      ensures retry == old(retry) || fresh(retry)
    {
      if !journalDir {
        if e.journalFails {
          return true;
        }
        journalDir := true;
      }
      if retry == null {
        retry := new Strategy(cfg);
      }
      failed := false;
    }

    /** Task.Run; the deferred increment of currentAttempt comes first here, where nothing reads it. */
    method Run(site: Site, e: Env) returns (err: Option<Error>, locked: bool)
      requires retry != null ==> retry.cfg == cfg
      modifies this, retry, site
      ensures retry != null ==> retry.cfg == cfg
      ensures RunResult(View(), site.View(), err, locked) == RunTask(cfg, old(View()), old(site.View()), e)
    {
      hide WithLog;
      currentAttempt := currentAttempt + 1;
      var failed := Prepare(e);
      if failed {
        return Some(Plain), false;
      }
      var retryDelay := retry.Current();
      var permanent;
      ghost var prepared := View();
      assert prepared == Progress(old(currentAttempt) + 1, true, Some(RetryOf(cfg, old(View()))));
      permanent, failed, locked := site.RunWithLog(retryDelay == STOP, e);
      assert View() == prepared;
      if permanent || !failed {
        return if failed then Some(Plain) else None, locked;
      }
      retry.Advance();
      err := Some(TaskError(Plain, Fuzz(retryDelay, FUZZ_FACTOR, e.jitter)));
    }
  }

  // ---------- Whole runs ----------

  predicate EnvOk(e: Env) {
    0.0 <= e.jitter < 1.0
  }

  /** The scheduler is done with the task. */
  predicate Done(r: RunResult) {
    TaskRun(r.err).None?
  }

  /** The task and the disk after the runs envs, each of which asked for another. */
  function Retried(cfg: Config, d: Disk, envs: seq<Env>): (Progress, Disk) {
    if envs == [] then (Progress(0, false, None), d)
    else
      var (p, d1) := Retried(cfg, d, envs[..|envs| - 1]);
      var r := RunTask(cfg, p, d1, envs[|envs| - 1]);
      (r.progress, r.disk)
  }

  /** The result of the run number k. */
  function ResultAt(cfg: Config, d: Disk, envs: seq<Env>, k: nat): RunResult
    requires k < |envs|
  {
    var (p, d1) := Retried(cfg, d, envs[..k]);
    RunTask(cfg, p, d1, envs[k])
  }

  /** A life of the task: all runs but the last ask for another. */
  ghost predicate Life(cfg: Config, d: Disk, envs: seq<Env>) {
    && 0 < |envs| && (forall k | 0 <= k < |envs| :: EnvOk(envs[k]))
    && (forall k | 0 <= k < |envs| - 1 :: !Done(ResultAt(cfg, d, envs, k)))
  }

  /** After k runs that asked for another, the task is at attempt k with k retries used up. */
  lemma {:induction false} ProgressAt(cfg: Config, d: Disk, envs: seq<Env>, k: nat)
    requires cfg.Valid() && Life(cfg, d, envs) && k < |envs|
    ensures k <= cfg.retryCount
    ensures Retried(cfg, d, envs[..k]).0.attempt == k
    ensures RetryOf(cfg, Retried(cfg, d, envs[..k]).0) == After(cfg, k)
  {
    if 0 < k {
      ProgressAt(cfg, d, envs, k - 1);
      assert envs[..k][..k - 1] == envs[..k - 1];
      StrategyYieldsDelays(cfg, k - 1);
      StrategyYieldsDelays(cfg, k);
      var (p, d1) := Retried(cfg, d, envs[..k - 1]);
      assert !Done(ResultAt(cfg, d, envs, k - 1));
      RunAdvances(cfg, p, d1, envs[k - 1], k - 1);
    }
  }

  /** A run that asks for another uses up one retry, and there was one left. */
  lemma RunAdvances(cfg: Config, p: Progress, d: Disk, e: Env, k: nat)
    requires cfg.Valid() && EnvOk(e) && RetryOf(cfg, p) == After(cfg, k) && !Done(RunTask(cfg, p, d, e))
    ensures k < cfg.retryCount && RetryOf(cfg, RunTask(cfg, p, d, e).progress) == After(cfg, k + 1)
  {
    StrategyYieldsDelays(cfg, k);
    FuzzKeepsMeaning(CurrentOf(After(cfg, k)), FUZZ_FACTOR, e.jitter);
  }

  /** Whether the run number k is told that it is the last before giving up. */
  function FinalAt(cfg: Config, d: Disk, envs: seq<Env>, k: nat): bool
    requires k < |envs|
  {
    CurrentOf(RetryOf(cfg, Retried(cfg, d, envs[..k]).0)) == STOP
  }

  /**
   * Attempt budget: whatever happens, a task runs at most retryCount + 1 times, exactly the run number
   * retryCount is flagged as final, and that run is the end.
   */
  lemma AttemptBudget(cfg: Config, d: Disk, envs: seq<Env>, k: nat)
    requires cfg.Valid() && Life(cfg, d, envs) && k < |envs|
    ensures |envs| <= cfg.retryCount + 1
    ensures FinalAt(cfg, d, envs, k) <==> k == cfg.retryCount
    ensures k == cfg.retryCount ==> Done(ResultAt(cfg, d, envs, k))
  {
    ProgressAt(cfg, d, envs, |envs| - 1);
    ProgressAt(cfg, d, envs, k);
    StrategyYieldsDelays(cfg, k);
    DelayBounds(cfg, k);
    if !Done(ResultAt(cfg, d, envs, k)) {
      RunAdvances(cfg, Retried(cfg, d, envs[..k]).0, Retried(cfg, d, envs[..k]).1, envs[k], k);
    }
  }

  /** A run that asks for another asks for the k-th delay of the back-off, give or take 5%. */
  lemma RetryDelayAt(cfg: Config, d: Disk, envs: seq<Env>, k: nat)
    requires cfg.Valid() && Life(cfg, d, envs) && k < |envs| && !Done(ResultAt(cfg, d, envs, k))
    ensures var delay := TaskRun(ResultAt(cfg, d, envs, k).err).value as real;
      0.95 * DelayAt(cfg, k) as real <= delay <= 1.05 * DelayAt(cfg, k) as real
  {
    ProgressAt(cfg, d, envs, k);
    StrategyYieldsDelays(cfg, k);
    DelayBounds(cfg, k);
    RunAdvances(cfg, Retried(cfg, d, envs[..k]).0, Retried(cfg, d, envs[..k]).1, envs[k], k);
    FuzzWithin(DelayAt(cfg, k), FUZZ_FACTOR, envs[k].jitter);
  }

  // ---------- Where the file ends up ----------

  /** Nothing fails but possibly the command. */
  predicate NothingFails(e: Env) {
    && !e.journalFails && !e.logFails && !e.dirFails && !e.newFails && !e.statBeforeFails && !e.statAfterFails
    && !e.moveFails && !e.closeFails
  }

  /** Besides, nobody touches the file. */
  predicate Quiet(e: Env, file: Entry) {
    NothingFails(e) && e.left == file
  }

  lemma QuietRun(cfg: Config, p: Progress, d: Disk, e: Env)
    requires cfg.Valid() && EnvOk(e) && d.input.Regular? && Quiet(e, d.input)
    requires CurrentOf(RetryOf(cfg, p)) == STOP || 0 < CurrentOf(RetryOf(cfg, p))
    ensures var r := RunTask(cfg, p, d, e);
      var final := CurrentOf(RetryOf(cfg, p)) == STOP;
      && (Done(r) <==> e.commandOk || final)
      && r.disk == if e.commandOk || final then Archived(d, e.commandOk) else d
  {
    FuzzKeepsMeaning(CurrentOf(RetryOf(cfg, p)), FUZZ_FACTOR, e.jitter);
  }

  /** Until the task is done, the file stays where it is and every command has failed. */
  lemma {:induction false} QuietUntil(cfg: Config, d: Disk, envs: seq<Env>, k: nat)
    requires cfg.Valid() && Life(cfg, d, envs) && k < |envs| && d.input.Regular?
    requires forall j | 0 <= j < |envs| :: Quiet(envs[j], d.input)
    ensures Retried(cfg, d, envs[..k]).1 == d && forall j | 0 <= j < k :: !envs[j].commandOk
  {
    hide RunTask, Quiet;
    if 0 < k {
      QuietUntil(cfg, d, envs, k - 1);
      assert envs[..k][..k - 1] == envs[..k - 1];
      QuietAt(cfg, d, envs, k - 1);
      assert !Done(ResultAt(cfg, d, envs, k - 1));
    }
  }

  lemma QuietAt(cfg: Config, d: Disk, envs: seq<Env>, k: nat)
    requires cfg.Valid() && Life(cfg, d, envs) && k < |envs| && d.input.Regular?
    requires Quiet(envs[k], d.input) && Retried(cfg, d, envs[..k]).1 == d
    ensures var r := ResultAt(cfg, d, envs, k);
      && (Done(r) <==> envs[k].commandOk || k == cfg.retryCount)
      && r.disk == if envs[k].commandOk || k == cfg.retryCount then Archived(d, envs[k].commandOk) else d
  {
    ProgressAt(cfg, d, envs, k);
    StrategyYieldsDelays(cfg, k);
    DelayBounds(cfg, k);
    QuietRun(cfg, Retried(cfg, d, envs[..k]).0, d, envs[k]);
  }

  /**
   * Disposition by the Task object alone, whose Run is RunTask, called until it is done: if nobody else
   * touches the file and no call fails, a completed task leaves nothing at the input path; the file is in
   * the success directory if and only if some command succeeded, and in the failure directory if and only
   * if all retryCount + 1 of them failed.
   */
  lemma FileDisposition(cfg: Config, d: Disk, envs: seq<Env>)
    requires cfg.Valid() && Life(cfg, d, envs) && d.input.Regular?
    requires forall j | 0 <= j < |envs| :: Quiet(envs[j], d.input)
    requires Done(ResultAt(cfg, d, envs, |envs| - 1))
    ensures var end := ResultAt(cfg, d, envs, |envs| - 1).disk;
      && end.input == Missing
      && (end == Archived(d, true) <==> exists k | 0 <= k < |envs| :: envs[k].commandOk)
      && (end == Archived(d, false) <==>
        |envs| == cfg.retryCount + 1 && forall k | 0 <= k < |envs| :: !envs[k].commandOk)
  {
    var n := |envs| - 1;
    QuietUntil(cfg, d, envs, n);
    QuietAt(cfg, d, envs, n);
    assert |Archived(d, true).success| != |Archived(d, false).success|;
    if exists k | 0 <= k < |envs| :: envs[k].commandOk {
      assert envs[n].commandOk;
    }
  }

  /** The attempt set out with a regular file, found it unchanged after the command, and could move it. */
  predicate Undisturbed(d: Disk, e: Env) {
    && !e.logFails && !e.dirFails && !e.newFails && !e.statBeforeFails && !e.statAfterFails && !e.moveFails
    && d.input.Regular? && e.left == d.input
  }

  /** The run got as far as starting the command. */
  predicate Started(p: Progress, d: Disk, e: Env) {
    (p.journal || !e.journalFails) && !e.logFails && !e.dirFails && !e.newFails && !e.statBeforeFails
      && d.input.Regular?
  }

  /** The file was in place after the command, and is moved to an archive. */
  predicate Archives(p: Progress, d: Disk, e: Env, last: bool) {
    Started(p, d, e) && Undisturbed(d, e) && (e.commandOk || last)
  }

  /** The run fails for good before its command: no journal directory, no command, or no regular file. */
  predicate FailsForGood(p: Progress, d: Disk, e: Env) {
    || (!p.journal && e.journalFails)
    || (!e.logFails && !e.dirFails && (e.newFails || e.statBeforeFails || !d.input.Regular?))
  }

  /**
   * A run succeeds exactly if it got to the command, that succeeded, the file was gone afterwards or was
   * unchanged and moved, and no other call failed. It takes the lock exactly if it got to the command.
   */
  lemma RunSucceedsIff(cfg: Config, p: Progress, d: Disk, e: Env)
    ensures var r := RunTask(cfg, p, d, e);
      r.err == None <==>
        && Started(p, d, e) && e.commandOk && !e.statAfterFails && !e.closeFails
        && (e.left == Missing || (e.left == d.input && !e.moveFails))
    ensures RunTask(cfg, p, d, e).locked <==> Started(p, d, e)
  {
    hide CurrentOf, Advanced, RetryOf, Fuzz;
  }

  /**
   * A file that is gone after the command ends the task whatever retries are left, with an error exactly
   * if the command or the closing of the log failed.
   */
  lemma MissingEndsTask(cfg: Config, p: Progress, d: Disk, e: Env)
    requires Started(p, d, e) && !e.statAfterFails && e.left == Missing
    ensures var r := RunTask(cfg, p, d, e);
      Done(r) && (r.err != None <==> !e.commandOk || e.closeFails)
  {
    hide CurrentOf, Advanced, RetryOf, Fuzz;
  }

  /** A failure asks for another run unless it is for good. */
  lemma FailureIsRetriedIff(cfg: Config, p: Progress, d: Disk, e: Env)
    ensures var r := RunTask(cfg, p, d, e);
      var gone := Started(p, d, e) && !e.statAfterFails && e.left == Missing;
      r.err == Some(TaskError(Plain, Fuzz(CurrentOf(RetryOf(cfg, p)), FUZZ_FACTOR, e.jitter))) <==>
        r.err != None && !FailsForGood(p, d, e) && !gone
  {
    hide CurrentOf, Advanced, RetryOf, Fuzz;
  }

  /**
   * After k retries, a run ends its task exactly with a success, a failure for good before the command, the
   * file gone after the command, or no retry left.
   */
  lemma RunEndsIff(cfg: Config, p: Progress, d: Disk, e: Env, k: nat)
    requires cfg.Valid() && EnvOk(e) && RetryOf(cfg, p) == After(cfg, k) && k <= cfg.retryCount
    ensures Done(RunTask(cfg, p, d, e)) <==>
      || RunTask(cfg, p, d, e).err == None || FailsForGood(p, d, e) || k == cfg.retryCount
      || (Started(p, d, e) && !e.statAfterFails && e.left == Missing)
  {
    StrategyYieldsDelays(cfg, k);
    DelayBounds(cfg, k);
    FuzzKeepsMeaning(CurrentOf(After(cfg, k)), FUZZ_FACTOR, e.jitter);
    FailureIsRetriedIff(cfg, p, d, e);
    OtherErrorsArePlain(cfg, p, d, e);
    hide RunTask, Fuzz, FailsForGood, Started, After, CurrentOf;
  }

  lemma OtherErrorsArePlain(cfg: Config, p: Progress, d: Disk, e: Env)
    ensures var err := RunTask(cfg, p, d, e).err;
      || err == None || err == Some(Plain)
      || err == Some(TaskError(Plain, Fuzz(CurrentOf(RetryOf(cfg, p)), FUZZ_FACTOR, e.jitter)))
  {
    hide CurrentOf, Advanced, RetryOf, Fuzz, WithLog;
  }

  /** Where a run leaves files: nothing changes but by the command and by the move to an archive. */
  lemma RunLeavesFiles(cfg: Config, p: Progress, d: Disk, e: Env, k: nat)
    requires cfg.Valid() && RetryOf(cfg, p) == After(cfg, k) && k <= cfg.retryCount
    ensures var r := RunTask(cfg, p, d, e);
      && r.disk.input ==
        (if !Started(p, d, e) then d.input else if Archives(p, d, e, k == cfg.retryCount) then Missing else e.left)
      && r.disk.success == d.success +
        (if Archives(p, d, e, k == cfg.retryCount) && e.commandOk then [d.input.stat] else [])
      && r.disk.failure == d.failure +
        (if Archives(p, d, e, k == cfg.retryCount) && !e.commandOk then [d.input.stat] else [])
  {
    StrategyYieldsDelays(cfg, k);
    DelayBounds(cfg, k);
  }

  /**
   * What any single run archives, whatever fails and whoever interferes: an undisturbed file and
   * nothing else, as a success if the command succeeded, as a failure if the run was the last.
   */
  lemma RunArchives(cfg: Config, d: Disk, envs: seq<Env>, k: nat)
    requires cfg.Valid() && Life(cfg, d, envs) && k < |envs|
    ensures var p, d1, r := Retried(cfg, d, envs[..k]).0, Retried(cfg, d, envs[..k]).1, ResultAt(cfg, d, envs, k);
      var e := envs[k];
      && (r.disk.success != d1.success <==> Started(p, d1, e) && Undisturbed(d1, e) && e.commandOk)
      && (r.disk.failure != d1.failure <==>
        Started(p, d1, e) && Undisturbed(d1, e) && !e.commandOk && k == cfg.retryCount)
      && (r.disk.success != d1.success || r.disk.failure != d1.failure ==> r.disk == Archived(d1, e.commandOk))
  {
    AttemptBudget(cfg, d, envs, k);
    var d1 := Retried(cfg, d, envs[..k]).1;
    if d1.input.Regular? {
      assert |d1.success + [d1.input.stat]| != |d1.success| && |d1.failure + [d1.input.stat]| != |d1.failure|;
    }
  }

  /**
   * Without the assumption that nobody interferes, a completed task may leave something at the input
   * path. It does exactly if something was there after the last command, or in the last run without
   * one, and was not an undisturbed file.
   */
  lemma LeftAtInputIff(cfg: Config, d: Disk, envs: seq<Env>)
    requires cfg.Valid() && Life(cfg, d, envs) && Done(ResultAt(cfg, d, envs, |envs| - 1))
    ensures var k := |envs| - 1;
      var p, d1, e := Retried(cfg, d, envs[..k]).0, Retried(cfg, d, envs[..k]).1, envs[k];
      ResultAt(cfg, d, envs, k).disk.input != Missing
      <==> (if Started(p, d1, e) then e.left != Missing && !Undisturbed(d1, e) else d1.input != Missing)
  {
    var k := |envs| - 1;
    AttemptBudget(cfg, d, envs, k);
    ProgressAt(cfg, d, envs, k);
    StrategyYieldsDelays(cfg, k);
    DelayBounds(cfg, k);
    FuzzKeepsMeaning(DelayAt(cfg, k), FUZZ_FACTOR, envs[k].jitter);
  }

  /** A file modified while its last command ran stays at the input path. */
  lemma ModifiedFileStays()
    ensures var cfg, d := Config(0, 1, 1.0, 0), Disk(Regular(1), [], []);
      var envs := [Env(false, false, false, false, false, true, Regular(2), false, false, false, 0.0)];
      Life(cfg, d, envs) && Done(ResultAt(cfg, d, envs, 0))
        && ResultAt(cfg, d, envs, 0).disk == Disk(Regular(2), [], [])
  {
    FuzzKeepsMeaning(1, FUZZ_FACTOR, 0.0);
  }
}
