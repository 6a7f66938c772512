/** The counters of watch/handlermetrics.go and what they say about tasks. */
module HandlerMetrics {
  import opened Options
  import opened RetryStrategy
  import opened SchedulerCore
  import opened SchedulerProtocol
  import opened SchedulerSafety
  import opened SequenceNumbers
  import opened HandlerProtocol
  import opened HandlerSafety
  import opened HandlerStages
  import opened HandlerInvariants

  /** Threads between the report of a final status and the deletion from the pending map. */
  ghost function Finalizers(hpc: map<ThreadId, HPc>): set<ThreadId> {
    set th | th in hpc && hpc[th].Finalizing?
  }

  /** A call of handle holds the mutex. */
  ghost predicate InHandle(h: HState) {
    h.mu.Some? && h.mu.value in h.hpc && (h.hpc[h.mu.value].HandleAdding? || h.hpc[h.mu.value].HandleReport?)
  }

  /** The number of retries of the tasks below n. */
  ghost function RetriesBelow(retriesOf: map<TaskId, nat>, n: nat): nat {
    if n == 0 then 0 else RetriesBelow(retriesOf, n - 1) + if n - 1 in retriesOf then retriesOf[n - 1] else 0
  }

  ghost predicate TotalsOk(h: HState) {
    && |h.names.Keys| + |Finalizers(h.hpc)| == h.finishedTotal + |h.pending.Keys|
    && |h.names.Keys| <= h.fileChanges + One(InHandle(h))
    && h.failures <= h.finishedTotal
  }

  ghost predicate RetriesOk(h: HState) {
    h.retries == RetriesBelow(h.retriesOf, h.sched.counter + 1)
  }

  lemma OthersFinalize(hpc: map<ThreadId, HPc>, th: ThreadId, pc: Option<HPc>)
    ensures Finalizers(HMoved(hpc, Some(th), pc)) - {th} == Finalizers(hpc) - {th}
  {
  }

  lemma FinalizersMove(hpc: map<ThreadId, HPc>, th: ThreadId, pc: Option<HPc>)
    ensures |Finalizers(HMoved(hpc, Some(th), pc))|
         == |Finalizers(hpc)| - One(th in hpc && hpc[th].Finalizing?) + One(pc.Some? && pc.value.Finalizing?)
  {
    var before, after := Finalizers(hpc), Finalizers(HMoved(hpc, Some(th), pc));
    OthersFinalize(hpc, th, pc);
    CardinalityWithout(before, th);
    CardinalityWithout(after, th);
  }

  lemma FinalizersStep(cfg: Config, h: HState, a: HAction)
    requires HTyped(h) && HEnabled(h, a)
    ensures |Finalizers(HApply(cfg, h, a).hpc)|
         == |Finalizers(h.hpc)| - One(a.Delete?) + One(a.InvokeReturn? && !AsksRetry(cfg, h, a))
  {
    if HMover(h, a).Some? {
      FinalizersMove(h.hpc, HMover(h, a).value, NextHPc(cfg, h, a));
    }
  }

  lemma KeyAdded<K, V>(m: map<K, V>, k: K, v: V)
    requires k !in m
    ensures |m[k := v].Keys| == |m.Keys| + 1
  {
    assert m[k := v].Keys == m.Keys + {k};
  }

  lemma KeyRemoved<K, V>(m: map<K, V>, k: K)
    requires k in m
    ensures |(m - {k}).Keys| == |m.Keys| - 1
  {
    assert (m - {k}).Keys == m.Keys - {k};
  }

  lemma KeysStep(cfg: Config, h: HState, a: HAction)
    requires HTyped(h) && HEnabled(h, a) && NextTicket(h.sched.counter) !in h.names
    requires a.Delete? ==> h.names[TaskOf(h, a.th)] in h.pending
    ensures var h' := HApply(cfg, h, a);
      && |h'.names.Keys| == |h.names.Keys| + One(Creates(h, a))
      && |h'.pending.Keys| == |h.pending.Keys| + One(Creates(h, a)) - One(a.Delete?)
  {
    if Creates(h, a) {
      KeyAdded(h.names, NextTicket(h.sched.counter), h.hpc[a.th].name);
      KeyAdded(h.pending, h.hpc[a.th].name, NextTicket(h.sched.counter));
    } else if a.Delete? {
      KeyRemoved(h.pending, h.names[TaskOf(h, a.th)]);
    }
  }

  /** A task about to be deleted is in the map. */
  lemma DeletedIsPending(h: HState, a: HAction)
    requires BaseOk(h) && PendingOk(h) && HEnabled(h, a) && a.Delete?
    ensures Pending(h, TaskOf(h, a.th))
  {
    StageBefore(h, a, TaskOf(h, a.th));
  }

  lemma InHandleStep(cfg: Config, h: HState, a: HAction)
    requires HTyped(h) && LinkOk(h) && MuOk(h) && HEnabled(h, a)
    ensures InHandle(HApply(cfg, h, a)) <==> a.HandleEnter? || (InHandle(h) && !a.HandleExit?)
    ensures a.HandleEnter? ==> !InHandle(h)
  {
  }

  lemma CountersStep(cfg: Config, h: HState, a: HAction)
    requires HTyped(h) && HEnabled(h, a)
    ensures var h', final := HApply(cfg, h, a), a.InvokeReturn? && !AsksRetry(cfg, h, a);
      && h'.fileChanges == h.fileChanges + One(a.HandleExit?)
      && h'.finishedTotal == h.finishedTotal + One(final)
      && h'.failures == h.failures + One(final && !a.result.Success?)
  {
  }

  lemma TotalsStep(cfg: Config, h: HState, a: HAction)
    requires BaseOk(h) && PendingOk(h) && TotalsOk(h) && HEnabled(h, a)
    ensures TotalsOk(HApply(cfg, h, a))
  {
    hide HApply, InHandle, Finalizers;
    FinalizersStep(cfg, h, a);
    NewTaskIsNew(h);
    if a.Delete? {
      DeletedIsPending(h, a);
    }
    KeysStep(cfg, h, a);
    InHandleStep(cfg, h, a);
    CountersStep(cfg, h, a);
  }

  lemma {:induction false} RetriesBelowUpdate(retriesOf: map<TaskId, nat>, t: TaskId, k: nat, n: nat)
    ensures RetriesBelow(retriesOf[t := k], n)
         == RetriesBelow(retriesOf, n) + if t < n then k - (if t in retriesOf then retriesOf[t] else 0) else 0
  {
    if 0 < n {
      RetriesBelowUpdate(retriesOf, t, k, n - 1);
    }
  }

  lemma {:induction false} RetriesBelowExtend(retriesOf: map<TaskId, nat>, m: nat, n: nat)
    requires m <= n && forall t | t in retriesOf :: t < m
    ensures RetriesBelow(retriesOf, n) == RetriesBelow(retriesOf, m)
  {
    if m < n {
      RetriesBelowExtend(retriesOf, m, n - 1);
    }
  }

  lemma RetriesStep(cfg: Config, h: HState, a: HAction)
    requires BaseOk(h) && RetriesOk(h) && HEnabled(h, a)
    ensures RetriesOk(HApply(cfg, h, a))
  {
    forall t | t in h.retriesOf
      ensures t <= h.sched.counter
    {
      assert RecordOk(h.sched, t);
    }
    SumStep(cfg, h, a);
  }

  lemma SumStep(cfg: Config, h: HState, a: HAction)
    requires HTyped(h) && HEnabled(h, a) && RetriesOk(h) && forall t | t in h.retriesOf :: t <= h.sched.counter
    requires forall th | th in h.hpc :: InInvoke(h.hpc[th]) ==> TaskOf(h, th) in h.retriesOf
    ensures RetriesOk(HApply(cfg, h, a))
  {
    var n, n' := h.sched.counter + 1, HApply(cfg, h, a).sched.counter + 1;
    RetriesBelowExtend(h.retriesOf, n, n');
    if Creates(h, a) {
      RetriesBelowUpdate(h.retriesOf, NextTicket(h.sched.counter), 0, n');
    } else if AsksRetry(cfg, h, a) {
      var t := TaskOf(h, a.th);
      RetriesBelowUpdate(h.retriesOf, t, h.retriesOf[t] + 1, n');
    }
  }

  lemma {:induction false} RetriesBounded(retriesOf: map<TaskId, nat>, keys: set<TaskId>, limit: nat, n: nat)
    requires forall t | t in retriesOf && t < n :: t in keys && retriesOf[t] <= limit
    ensures RetriesBelow(retriesOf, n) <= limit * |keys|
    decreases n
  {
    if 0 < n {
      if n - 1 in retriesOf {
        RetriesBounded(retriesOf, keys - {n - 1}, limit, n - 1);
        CardinalityWithout(keys, n - 1);
        assert limit * |keys| == limit * |keys - {n - 1}| + limit;
      } else {
        RetriesBounded(retriesOf, keys, limit, n - 1);
      }
    }
  }
}
