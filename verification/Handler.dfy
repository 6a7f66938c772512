/** The handler object of watch/handler.go. Its sections under the mutex take the steps of the protocol. */
module Handlers {
  import opened Options
  import opened RetryStrategy
  import opened SchedulerCore
  import opened SchedulerProtocol
  import opened SequenceNumbers
  import opened HandlerProtocol
  import HandlerTask
  import HandlerRuns

  class Handler {
    var pending: map<Name, TaskId>
    var fileChanges: nat
    var retries: nat
    var finishedTotal: nat
    var failures: nat

    constructor ()
      ensures forall h: HState | HInit(h) :: Matches(h)
    {
      pending, fileChanges, retries, finishedTotal, failures := map[], 0, 0, 0, 0;
    }

    /** The fields are those of the protocol's state. */
    ghost predicate Matches(h: HState)
      reads this
    {
      && pending == h.pending && fileChanges == h.fileChanges && retries == h.retries
      && finishedTotal == h.finishedTotal && failures == h.failures
    }

    /** The first part of handle: a task is made and added unless the name is pending. */
    method Enter(name: Name, drawn: TaskId, ghost cfg: Config, ghost h: HState, ghost th: ThreadId)
      returns (added: bool)
      requires HTyped(h) && HEnabled(h, HandleEnter(th)) && h.hpc[th].name == name
        && drawn == NextTicket(h.sched.counter)
      requires Matches(h)
      modifies this
      ensures Matches(HApply(cfg, h, HandleEnter(th))) && added == Creates(h, HandleEnter(th))
    {
      added := name !in pending;
      if added {
        pending := pending[name := drawn];
      }
    }

    /** The last part of handle. */
    method Exit(ghost cfg: Config, ghost h: HState, ghost th: ThreadId)
      requires HTyped(h) && HEnabled(h, HandleExit(th)) && Matches(h)
      modifies this
      ensures Matches(HApply(cfg, h, HandleExit(th)))
    {
      fileChanges := fileChanges + 1;
    }

    /** invokeTask after the task's Run: the result is reported as final or as a retry. */
    method Report(err: Option<HandlerTask.Error>, ghost jitter: real, ghost cfg: Config, ghost h: HState,
                  ghost th: ThreadId)
      returns (permanent: bool)
      requires var a := InvokeReturn(th, HandlerRuns.ResultOf(err, jitter));
        && HTyped(h) && HEnabled(h, a)
        && OutcomeOf(cfg, h.retriesOf[TaskOf(h, th)], a.result) ==
             if HandlerTask.TaskRun(err).None? then Finished else Retry(HandlerTask.TaskRun(err).value)
      requires Matches(h)
      modifies this
      ensures Matches(HApply(cfg, h, InvokeReturn(th, HandlerRuns.ResultOf(err, jitter))))
      ensures permanent == HandlerTask.TaskRun(err).None?
    {
      permanent := HandlerTask.Permanent(HandlerTask.AsTaskError(err));
      if permanent {
        finishedTotal := finishedTotal + 1;
        if err != None {
          failures := failures + 1;
        }
      } else {
        retries := retries + 1;
      }
    }

    /** invokeTask after a permanent result, with the lock. */
    method Forget(name: Name, ghost cfg: Config, ghost h: HState, ghost th: ThreadId)
      requires HTyped(h) && HEnabled(h, Delete(th)) && h.names[TaskOf(h, th)] == name && Matches(h)
      modifies this
      ensures Matches(HApply(cfg, h, Delete(th)))
    {
      pending := pending - {name};
    }
  }
}
