/** Stop comes to an end: after the stop flag is set, steps run out, and they run out only once Stop has returned. */
module SchedulerTermination {
  import opened Options
  import opened SchedulerCore
  import opened SchedulerProtocol
  import opened SchedulerRuns
  import opened SchedulerSafety
  import opened SchedulerWaiters

  /** Steps of threads already under way, as opposed to new calls, cancelled contexts and the clock. */
  predicate Internal(a: Action) {
    !a.Tick? && !a.AddDraw? && !a.SetSlots? && !a.Start? && !a.QuiesceCall? && !a.StopCall? && !a.QuiesceCancelled?
      && !a.StopCancelled?
  }

  /** How many more steps a thread can take, counting two for each token it may set. */
  function Weight(pc: Pc): nat {
    match pc
    case AddLock(_) => 2
    case Notify => 1
    case LoopWait(_) => 6
    case LoopTop => 5
    case LoopDefer => 4
    case LoopSignal => 3
    case Running(_) => 5
    case Returned(_, _) => 4
    case RunSignal => 3
    case QuiesceNotify => 3
    case QuiesceTop => 2
    case QuiesceWait => 1
    case StopNotify => 3
    case StopTop => 2
    case StopWait => 1
    case StopDone => 0
  }

  function AtLeast(k: nat): Pc -> bool {
    (pc: Pc) => k <= Weight(pc)
  }

  /** The threads' weights up to n each, summed layer by layer. */
  ghost function Layers(threads: map<ThreadId, Pc>, n: nat): nat {
    if n == 0 then 0 else Layers(threads, n - 1) + |Where(threads, AtLeast(n))|
  }

  ghost function ThreadWeight(threads: map<ThreadId, Pc>): nat {
    Layers(threads, 6)
  }

  /** The steps left after Stop was called. */
  ghost function StepsLeft(s: State): nat {
    ThreadWeight(s.threads) + 2 * One(s.loopFinished) + 2 * One(s.taskFinished)
  }

  function WeightOf(pc: Option<Pc>): nat {
    if pc.Some? then Weight(pc.value) else 0
  }

  lemma AtLeastMoved(threads: map<ThreadId, Pc>, th: ThreadId, pc: Option<Pc>, k: nat)
    requires 1 <= k
    ensures |Where(Moved(threads, th, pc), AtLeast(k))|
         == |Where(threads, AtLeast(k))| - One(th in threads && k <= Weight(threads[th])) + One(k <= WeightOf(pc))
  {
    CountMoved(threads, th, pc, AtLeast(k));
  }

  function Capped(n: nat, w: nat): nat {
    if n < w then n else w
  }

  lemma {:induction false} LayersMoved(threads: map<ThreadId, Pc>, th: ThreadId, pc: Option<Pc>, n: nat)
    ensures Layers(Moved(threads, th, pc), n)
         == Layers(threads, n) - (if th in threads then Capped(n, Weight(threads[th])) else 0) + Capped(n, WeightOf(pc))
  {
    if 0 < n {
      LayersMoved(threads, th, pc, n - 1);
      AtLeastMoved(threads, th, pc, n);
    }
  }

  lemma WeightMoved(threads: map<ThreadId, Pc>, th: ThreadId, pc: Option<Pc>)
    ensures ThreadWeight(Moved(threads, th, pc))
         == ThreadWeight(threads) - (if th in threads then Weight(threads[th]) else 0) + WeightOf(pc)
  {
    LayersMoved(threads, th, pc, 6);
  }

  /** What a step adds to the weight of the tokens at most. */
  function TokenGain(a: Action): int {
    if a.SetLoopFinished? || a.SetTaskFinished? then 2 else if a.WaiterWoken? then -2 else 0
  }

  lemma WeightDrops(s: State, a: Action)
    requires Typed(s) && s.core.stopRequested && Enabled(s, a) && Internal(a)
    ensures Mover(a) == a.th && a.th in s.threads
    ensures WeightOf(NextPc(s, a)) + TokenGain(a) < Weight(s.threads[a.th])
  {
  }

  lemma TokensGain(s: State, a: Action)
    requires Typed(s) && Enabled(s, a) && Internal(a) && !Panics(s, a)
    ensures var s' := Apply(s, a);
      2 * One(s'.loopFinished) + 2 * One(s'.taskFinished)
        <= 2 * One(s.loopFinished) + 2 * One(s.taskFinished) + TokenGain(a)
  {
  }

  lemma InternalStepsRunOut(s: State, a: Action)
    requires Inv(s) && s.core.stopRequested && Enabled(s, a) && Internal(a)
    ensures StepsLeft(Apply(s, a)) < StepsLeft(s)
  {
    NoPanic(s, a);
    WeightDrops(s, a);
    TokensGain(s, a);
    WeightMoved(s.threads, Mover(a), NextPc(s, a));
  }

  lemma StepUsedUp(ss: seq<State>, acts: seq<Action>, i: nat)
    requires IsRun(ss, acts) && i < |acts| && ss[i].core.stopRequested && Internal(acts[i])
    ensures StepsLeft(ss[i + 1]) < StepsLeft(ss[i])
  {
    RunStep(ss, acts, i);
    InternalStepsRunOut(ss[i], acts[i]);
  }

  /** After Stop was called, the threads under way take a bounded number of steps. */
  lemma {:induction false} StepsAreBounded(ss: seq<State>, acts: seq<Action>, i: nat, j: nat)
    requires IsRun(ss, acts) && i <= j < |ss| && ss[i].core.stopRequested && forall k | i <= k < j :: Internal(acts[k])
    ensures j - i + StepsLeft(ss[j]) <= StepsLeft(ss[i])
    decreases j
  {
    if i < j {
      StepsAreBounded(ss, acts, i, j - 1);
      NoLaunchAfterStop(ss, acts, i, j - 1);
      StepUsedUp(ss, acts, j - 1);
    }
  }

  ghost predicate CanStep(s: State)
    requires Typed(s)
  {
    exists a :: Internal(a) && Enabled(s, a)
  }

  /** Every thread but a waiting one can take a step once the stop flag is set. */
  lemma ThreadCanStep(s: State, th: ThreadId)
    requires Inv(s) && s.core.stopRequested && th in s.threads && !IsWaiting(s.threads[th]) && !s.threads[th].StopDone?
    ensures CanStep(s)
  {
    var a := match s.threads[th]
      case AddLock(_) => AddEnqueue(th)
      case LoopWait(_) => LoopNotified(th)
      case LoopTop => LoopLeave(th)
      case LoopDefer => LoopEnd(th)
      case LoopSignal => SetLoopFinished(th)
      case Running(_) => TaskReturn(th, Finished)
      case Returned(_, _) => TaskFinish(th)
      case RunSignal => SetTaskFinished(th)
      case QuiesceTop => QuiesceCheck(th)
      case StopTop => StopCheck(th)
      case _ => SetNotification(th);
    if s.threads[th].LoopWait? && !s.loopNotification {
      var u :| u in s.threads && WillNotify(s.threads[u]);
      assert Internal(SetNotification(u)) && Enabled(s, SetNotification(u));
    } else {
      assert Internal(a) && Enabled(s, a);
    }
  }

  /** When no thread can step any more, no loop and no task is left and every call of Stop has returned. */
  lemma NothingLeftButReturned(s: State, th: ThreadId)
    requires Inv(s) && s.core.stopRequested && !CanStep(s) && !Stuck(s, th) && th in s.threads
    ensures Halted(s.core) && (s.threads[th].StopDone? || s.threads[th].QuiesceWait?)
  {
    forall u | u in s.threads
      ensures IsWaiting(s.threads[u]) || s.threads[u].StopDone?
    {
      if !IsWaiting(s.threads[u]) && !s.threads[u].StopDone? {
        ThreadCanStep(s, u);
      }
    }
    assert Runners(s) == {} && Loopers(s) == {};
    if s.threads[th].StopWait? {
      var e := if s.loopFinished then LoopEvent else TaskEvent;
      assert Internal(WaiterWoken(th, e)) && Enabled(s, WaiterWoken(th, e));
    }
  }

  /**
   * Stop terminates: let it be called in a run with a sole waiter at a time. If from some state on only
   * threads under way step until none can, which takes at most StepsLeft steps, then it has returned.
   */
  lemma StopTerminates(ss: seq<State>, acts: seq<Action>, i: nat, j: nat, th: ThreadId)
    requires IsRun(ss, acts) && i <= j < |ss| && forall k | 0 <= k < j :: SoleWaiter(ss[k])
    requires ss[i].core.stopRequested && forall k | i <= k < j :: Internal(acts[k])
    requires th in ss[j].threads && InStop(ss[j].threads[th]) && Typed(ss[j])
    ensures j - i <= StepsLeft(ss[i])
    ensures !CanStep(ss[j]) ==> ss[j].threads[th].StopDone?
  {
    StepsAreBounded(ss, acts, i, j);
    InvHolds(ss, acts, j);
    NoLaunchAfterStop(ss, acts, i, j);
    SoleWaiterNeverStuck(ss, acts, j, th);
    if !CanStep(ss[j]) {
      NothingLeftButReturned(ss[j], th);
    }
  }
}
