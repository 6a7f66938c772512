/** Waiting in Stop and Quiesce: when a waiter can be left behind, and that a sole waiter never is. */
module SchedulerWaiters {
  import opened Options
  import opened SchedulerCore
  import opened SchedulerProtocol
  import opened SchedulerRuns
  import opened SchedulerSafety

  predicate WillSignal(pc: Pc) {
    pc.LoopSignal? || pc.RunSignal?
  }

  ghost predicate SignalPending(s: State) {
    exists th :: th in s.threads && WillSignal(s.threads[th])
  }

  /** A waiter can be woken: a token is there or about to be set. */
  ghost predicate SignalPresent(s: State) {
    s.loopFinished || s.taskFinished || SignalPending(s)
  }

  /** The thread waits and what it waits for has come true. */
  predicate MayReturn(s: State, th: ThreadId) {
    th in s.threads && ((s.threads[th].StopWait? && Halted(s.core)) || (s.threads[th].QuiesceWait? && Idle(s.core)))
  }

  /** The thread could return but nothing is going to wake it. */
  ghost predicate Stuck(s: State, th: ThreadId) {
    MayReturn(s, th) && !SignalPresent(s)
  }

  /** Another waiter takes the only token there is. */
  ghost predicate TakesLastToken(s: State, a: Action, th: ThreadId) {
    a.WaiterWoken? && a.th != th && MayReturn(s, th) && !SignalPending(s)
    && (if a.event.LoopEvent? then !s.taskFinished else !s.loopFinished)
  }

  /** Another thread's Stop clears the queues that Quiesce waits to see empty. */
  ghost predicate ClearsQueues(s: State, a: Action, th: ThreadId) {
    a.StopCheck? && a.th != th && Halted(s.core) && th in s.threads && s.threads[th].QuiesceWait? && !SignalPresent(s)
  }

  /** Exactly what leaves a waiter behind: a second waiter that takes the last token or clears the queues. */
  lemma StuckIff(s: State, a: Action, th: ThreadId)
    requires Inv(s) && Enabled(s, a) && !Stuck(s, th)
    ensures Stuck(Apply(s, a), th) <==> TakesLastToken(s, a, th) || ClearsQueues(s, a, th)
  {
    NoPanic(s, a);
    StuckBy(s, a, th);
  }

  lemma StuckBy(s: State, a: Action, th: ThreadId)
    requires Typed(s) && CountsOk(s) && Enabled(s, a) && !Panics(s, a) && !Stuck(s, th)
    ensures Stuck(Apply(s, a), th) <==> TakesLastToken(s, a, th) || ClearsQueues(s, a, th)
  {
    if a.LoopEnd? || a.TaskFinish? {
      assert WillSignal(Apply(s, a).threads[a.th]);
    } else if !a.SetLoopFinished? && !a.SetTaskFinished? {
      SignalsKept(s, a);
      WishesKept(s, a, th);
    }
  }

  /** Threads about to signal do so by their own steps only. */
  lemma SignalsKept(s: State, a: Action)
    requires Typed(s) && Enabled(s, a) && !Panics(s, a)
    requires !a.LoopEnd? && !a.TaskFinish? && !a.SetLoopFinished? && !a.SetTaskFinished?
    ensures SignalPending(Apply(s, a)) <==> SignalPending(s)
  {
    var s' := Apply(s, a);
    assert !a.Tick? ==> !WasAt(s, a, WillSignal) && !WillBeAt(s, a, WillSignal);
    if SignalPending(s) {
      var u :| u in s.threads && WillSignal(s.threads[u]);
      assert u in s'.threads && WillSignal(s'.threads[u]);
    }
    if SignalPending(s') {
      var u :| u in s'.threads && WillSignal(s'.threads[u]);
      assert u in s.threads && WillSignal(s.threads[u]);
    }
  }

  /** Other than by the end of a loop or task, a wish comes true only by clearing the queues. */
  lemma WishesKept(s: State, a: Action, th: ThreadId)
    requires Typed(s) && CountsOk(s) && Enabled(s, a) && !Panics(s, a)
    requires !a.LoopEnd? && !a.TaskFinish? && !a.SetLoopFinished? && !a.SetTaskFinished?
    ensures MayReturn(Apply(s, a), th) ==>
      MayReturn(s, th) || (a.StopCheck? && a.th != th && Halted(s.core) && s.threads[th].QuiesceWait?)
    ensures MayReturn(s, th) && !a.LoopLaunch? && !a.AddEnqueue? && !a.Start? && MoverOf(a) != Some(th) ==>
      MayReturn(Apply(s, a), th)
  {
  }

  function MoverOf(a: Action): Option<ThreadId> {
    if a.Tick? then None else Some(Mover(a))
  }

  predicate IsWaiter(pc: Pc) {
    pc.QuiesceNotify? || pc.QuiesceTop? || pc.QuiesceWait? || pc.StopNotify? || pc.StopTop? || pc.StopWait?
  }

  /** At most one thread is in Stop or Quiesce. */
  ghost predicate SoleWaiter(s: State) {
    forall a, b | a in s.threads && b in s.threads && IsWaiter(s.threads[a]) && IsWaiter(s.threads[b]) :: a == b
  }

  /** A sole waiter is never left behind. */
  lemma {:induction false} SoleWaiterNeverStuck(ss: seq<State>, acts: seq<Action>, i: nat, th: ThreadId)
    requires IsRun(ss, acts) && i < |ss| && forall k | 0 <= k < i :: SoleWaiter(ss[k])
    ensures !Stuck(ss[i], th)
    decreases i
  {
    if 0 < i {
      SoleWaiterNeverStuck(ss, acts, i - 1, th);
      RunStep(ss, acts, i - 1);
      StuckIff(ss[i - 1], acts[i - 1], th);
    }
  }

  // ---------- Left behind ----------

  /** Thread th is left behind in Stop. */
  ghost predicate StuckInStop(s: State, th: ThreadId) {
    Stuck(s, th) && s.threads[th].StopWait?
  }

  /** Nothing signals any more once nothing runs. */
  lemma NoMoreSignals(s: State, a: Action)
    requires Inv(s) && Enabled(s, a) && Halted(s.core) && !SignalPresent(s)
    ensures !a.LoopEnd? && !a.TaskFinish? && !a.SetLoopFinished? && !a.SetTaskFinished? && !a.WaiterWoken?
  {
    if a.LoopEnd? {
      SomeLooper(s, a.th);
    } else if a.TaskFinish? {
      SomeRunner(s, a.th);
    }
  }

  /** Only a cancelled context gets a thread that is left behind in Stop to look again. */
  lemma StuckStays(s: State, a: Action, th: ThreadId)
    requires Inv(s) && Enabled(s, a) && StuckInStop(s, th) && a != StopCancelled(th)
    ensures StuckInStop(Apply(s, a), th)
  {
    NoPanic(s, a);
    NoMoreSignals(s, a);
    SignalsKept(s, a);
    if !a.Tick? {
      HaltedIsFinal(s, a);
    }
  }

  lemma StuckStaysInRun(ss: seq<State>, acts: seq<Action>, i: nat, th: ThreadId)
    requires IsRun(ss, acts) && i < |acts| && StuckInStop(ss[i], th) && acts[i] != StopCancelled(th)
    ensures StuckInStop(ss[i + 1], th)
  {
    RunStep(ss, acts, i);
    StuckStays(ss[i], acts[i], th);
  }

  /** A thread left behind in Stop waits for good, unless its context is cancelled. */
  lemma {:induction false} StuckForGood(ss: seq<State>, acts: seq<Action>, i: nat, j: nat, th: ThreadId)
    requires IsRun(ss, acts) && i <= j < |ss| && StuckInStop(ss[i], th)
    requires forall k | i <= k < j :: acts[k] != StopCancelled(th)
    ensures StuckInStop(ss[j], th)
    decreases j
  {
    if i < j {
      StuckForGood(ss, acts, i, j - 1, th);
      StuckStaysInRun(ss, acts, j - 1, th);
    }
  }

  // ---------- An example ----------

  /** A run leads to s. */
  ghost predicate Reachable(s: State) {
    exists ss, acts :: IsRun(ss, acts) && ss[|ss| - 1] == s
  }

  lemma ReachableInit(s: State)
    requires Init(s)
    ensures Reachable(s)
  {
    assert IsRun([s], []);
  }

  lemma ReachableStep(s: State, a: Action, s': State)
    requires Reachable(s) && Steps(s, a, s')
    ensures Reachable(s')
  {
    var ss, acts :| IsRun(ss, acts) && ss[|ss| - 1] == s;
    var ss', acts' := ss + [s'], acts + [a];
    forall i | 0 <= i < |acts'|
      ensures StepAt(ss', acts', i)
    {
      if i < |acts| {
        assert StepAt(ss, acts, i);
      }
    }
    assert IsRun(ss', acts');
  }

  /** A state of a scheduler without tasks. */
  function Taskless(loops: int, stop: bool, note: bool, done: bool, threads: map<ThreadId, Pc>): State {
    State(Core(1, map[], {}, {}, loops, stop, 0), 1, 0, note, done, false, threads, {}, {}, false)
  }

  function TwoCalls(): State {
    Taskless(1, true, false, false, map[0 := LoopTop, 1 := StopNotify, 2 := StopNotify])
  }

  function TwoTops(): State {
    Taskless(1, true, true, false, map[0 := LoopTop, 1 := StopTop, 2 := StopTop])
  }

  function LoopGone(): State {
    Taskless(0, true, true, false, map[0 := LoopSignal, 1 := StopWait, 2 := StopWait])
  }

  function TwoWaits(): State {
    Taskless(1, true, true, false, map[0 := LoopTop, 1 := StopWait, 2 := StopWait])
  }

  function LoopTold(): State {
    Taskless(0, true, true, true, map[1 := StopWait, 2 := StopWait])
  }

  function LeftBehind(): State {
    Taskless(0, true, true, false, map[1 := StopTop, 2 := StopWait])
  }

  lemma ReachTwoCalls()
    ensures Reachable(TwoCalls())
  {
    var s0, s1 := Taskless(0, false, false, false, map[]), Taskless(1, false, false, false, map[0 := LoopTop]);
    var s2 := Taskless(1, true, false, false, map[0 := LoopTop, 1 := StopNotify]);
    ReachableInit(s0);
    ReachableStep(s0, Start(0), s1);
    ReachableStep(s1, StopCall(1), s2);
    ReachableStep(s2, StopCall(2), TwoCalls());
  }

  lemma ReachTwoTops()
    ensures Reachable(TwoTops())
  {
    ReachTwoCalls();
    var s := Taskless(1, true, true, false, map[0 := LoopTop, 1 := StopTop, 2 := StopNotify]);
    ReachableStep(TwoCalls(), SetNotification(1), s);
    ReachableStep(s, SetNotification(2), TwoTops());
  }

  lemma ReachTwoWaits()
    ensures Reachable(TwoWaits())
  {
    ReachTwoTops();
    var s := Taskless(1, true, true, false, map[0 := LoopTop, 1 := StopWait, 2 := StopTop]);
    ReachableStep(TwoTops(), StopCheck(1), s);
    ReachableStep(s, StopCheck(2), TwoWaits());
  }

  lemma ReachLoopGone()
    ensures Reachable(LoopGone())
  {
    ReachTwoWaits();
    var s := Taskless(1, true, true, false, map[0 := LoopDefer, 1 := StopWait, 2 := StopWait]);
    ReachableStep(TwoWaits(), LoopLeave(0), s);
    ReachableStep(s, LoopEnd(0), LoopGone());
  }

  lemma ReachLoopTold()
    ensures Reachable(LoopTold())
  {
    hide Reachable;
    ReachLoopGone();
    ReachableStep(LoopGone(), SetLoopFinished(0), LoopTold());
  }

  lemma ReachLeftBehind()
    ensures Reachable(LeftBehind())
  {
    hide Reachable;
    ReachLoopTold();
    ReachableStep(LoopTold(), WaiterWoken(1, LoopEvent), LeftBehind());
  }

  /** Two concurrent calls of Stop: the first to wake takes the loop's only token and leaves the other behind. */
  lemma TwoStopsCanGetStuck()
    ensures Reachable(LeftBehind()) && StuckInStop(LeftBehind(), 2)
  {
    hide Reachable;
    ReachLeftBehind();
  }
}
