/**
 * The state that internal/scheduler guards with its mutex, and what each locked section does to it.
 * The Scheduler class and the protocol of threads are both stated in these terms.
 */
module SchedulerCore {
  import opened Options
  import opened SequenceNumbers

  /** A task is known by its ticket; its sequence number is the ticket wrapped to 64 bits. */
  type TaskId = nat

  /** Go's zero time.Time: the task has no due time. */
  const ZERO_TIME: int := 0

  /** The mutable fields of a Task. `seqItem` and `timeItem` tell whether the pointers are non-nil. */
  datatype Task = Task(nextAfter: int, attemptCount: nat, seqItem: bool, timeItem: bool)

  datatype Core = Core(
    slots: int,
    tasks: map<TaskId, Task>,
    byOrder: set<TaskId>,
    byTime: set<TaskId>,
    loopActiveCount: int,
    stopRequested: bool,
    taskActiveCount: int)
  {
    /** The queues list known tasks only. */
    ghost predicate Known() {
      byOrder <= tasks.Keys && byTime <= tasks.Keys
    }

    function Due(t: TaskId): int
      requires t in tasks
    {
      tasks[t].nextAfter
    }

    /** Some task in the time queue is due. */
    ghost predicate SomeDue(now: int)
      requires Known()
    {
      exists t :: t in byTime && Due(t) <= now
    }

    /** d is the earliest due time in the time queue. */
    ghost predicate Earliest(d: int)
      requires Known()
    {
      && (forall t | t in byTime :: d <= Due(t))
      && (exists t :: t in byTime && Due(t) == d)
    }
  }

  /** All tickets lie close enough for the wrapping comparison to order them. */
  ghost predicate WindowOk(ts: set<TaskId>) {
    forall a, b | a in ts && b in ts :: -TWO_63 < a - b < TWO_63
  }

  /** u's sequence number is not below t's. */
  ghost predicate NotBelow(u: TaskId, t: TaskId) {
    !SeqLess(Wrap64(u), Wrap64(t))
  }

  /** No task in ts has a sequence number below t's. */
  ghost predicate First(t: TaskId, ts: set<TaskId>) {
    forall u {:trigger NotBelow(u, t)} | u in ts :: NotBelow(u, t)
  }

  datatype Enqueued = Queued(core: Core) | Panicked

  /** enqueue: a task with a due time goes to the time queue, any other to the insertion-order queue. */
  function Enqueue(c: Core, t: TaskId): Enqueued
    requires t in c.tasks
  {
    if Wrap64(t) == 0 || c.tasks[t].seqItem || c.tasks[t].timeItem then
      Panicked
    else if c.Due(t) == ZERO_TIME then
      Queued(c.(byOrder := c.byOrder + {t}, tasks := c.tasks[t := c.tasks[t].(seqItem := true)]))
    else
      Queued(c.(byTime := c.byTime + {t}, tasks := c.tasks[t := c.tasks[t].(timeItem := true)]))
  }

  /**
   * The task to run next: the earliest due task if any is due, otherwise the one that comes first
   * in insertion order.
   */
  ghost predicate Next(c: Core, now: int, t: TaskId)
    requires c.Known()
  {
    if c.SomeDue(now) then
      t in c.byTime && forall u | u in c.byTime :: c.Due(t) <= c.Due(u)
    else
      t in c.byOrder && (WindowOk(c.byOrder) ==> First(t, c.byOrder))
  }

  /** No task can run now. */
  ghost predicate NoneReady(c: Core, now: int)
    requires c.Known()
  {
    c.byOrder == {} && !c.SomeDue(now)
  }

  /** The time to wait for the earliest due time; negative for an empty time queue. */
  ghost predicate Wait(c: Core, now: int, remaining: int)
    requires c.Known()
  {
    if c.byTime == {} then remaining == -1 else c.Earliest(now + remaining)
  }

  /** A task leaves the queue it is in. */
  function Dequeue(c: Core, t: TaskId): Core
    requires t in c.tasks
  {
    if t in c.byTime then
      c.(byTime := c.byTime - {t}, tasks := c.tasks[t := c.tasks[t].(timeItem := false)])
    else
      c.(byOrder := c.byOrder - {t}, tasks := c.tasks[t := c.tasks[t].(seqItem := false)])
  }

  datatype Decision = Leave | Sleep(timer: Option<int>) | Launch(task: TaskId)

  /** What the scheduler loop does with the lock held. A timer is given by the time at which it fires. */
  ghost predicate Decides(c: Core, now: int, d: Decision)
    requires c.Known()
  {
    match d
    case Leave =>
      c.stopRequested
    case Launch(t) =>
      !c.stopRequested && c.taskActiveCount < c.slots && Next(c, now, t)
    case Sleep(timer) =>
      && !c.stopRequested
      && (if c.taskActiveCount >= c.slots then timer == None
          else NoneReady(c, now) && if c.byTime == {} then timer == None else timer.Some? && c.Earliest(timer.value))
  }

  /** A task leaves its queue and becomes active. */
  function Launched(c: Core, t: TaskId): Core
    requires t in c.tasks
  {
    Dequeue(c, t).(taskActiveCount := c.taskActiveCount + 1)
  }

  /** The end of runTask: the task is no longer active and goes back to a queue unless it is finished. */
  function FinishedTask(c: Core, t: TaskId, finished: bool): Enqueued
    requires t in c.tasks
  {
    var c1 := c.(taskActiveCount := c.taskActiveCount - 1);
    if finished then Queued(c1) else Enqueue(c1, t)
  }

  /** What Quiesce waits for. */
  predicate Idle(c: Core) {
    c.taskActiveCount == 0 && c.byOrder == {} && c.byTime == {}
  }

  /** What Stop waits for. */
  predicate Halted(c: Core) {
    c.loopActiveCount == 0 && c.taskActiveCount == 0
  }

  /** Within the window the insertion-order queue yields the lowest ticket, that is the first task drawn. */
  lemma NextByOrderIsOldest(c: Core, now: int, t: TaskId)
    requires c.Known() && Next(c, now, t) && !c.SomeDue(now) && WindowOk(c.byOrder)
    ensures forall u | u in c.byOrder :: t <= u
  {
    forall u | u in c.byOrder
      ensures t <= u
    {
      assert NotBelow(u, t);
      SeqLessClose(u, t);
    }
  }
}
