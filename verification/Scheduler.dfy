/** The locked sections of internal/scheduler's Scheduler, over its two priority queues. */
module Schedulers {
  import opened HeapOrder
  import opened Options
  import opened PrioQueues
  import opened SchedulerCore
  import opened SchedulerProtocol
  import opened SchedulerSafety
  import opened SequenceNumbers

  /** A queued pointer to a task, with the due time the task had when it was queued. */
  datatype Entry = Entry(task: TaskId, nextAfter: int)

  predicate OrderLess(a: Entry, b: Entry) {
    SeqLess(Wrap64(a.task), Wrap64(b.task))
  }

  /** a and b compare under `less` as their tasks' sequence numbers do. */
  ghost predicate ComparesBySeq(less: (Entry, Entry) -> bool, a: Entry, b: Entry) {
    less(a, b) == OrderLess(a, b)
  }

  /** `less` is the comparison of sequence numbers. */
  ghost predicate SeqOrder(less: (Entry, Entry) -> bool) {
    forall a, b {:trigger ComparesBySeq(less, a, b)} :: ComparesBySeq(less, a, b)
  }

  predicate TimeLess(a: Entry, b: Entry) {
    a.nextAfter < b.nextAfter
  }

  ghost function TasksIn(bag: multiset<Entry>): set<TaskId> {
    set e | e in bag :: e.task
  }

  /** The entry e names its task once and carries its due time. */
  ghost predicate Fits(bag: multiset<Entry>, tasks: map<TaskId, Task>, e: Entry) {
    bag[e] == 1 && e.task in tasks && e.nextAfter == tasks[e.task].nextAfter
  }

  ghost predicate Accurate(bag: multiset<Entry>, tasks: map<TaskId, Task>) {
    forall e {:trigger Fits(bag, tasks, e)} | e in bag :: Fits(bag, tasks, e)
  }

  ghost predicate NotLess(less: (Entry, Entry) -> bool, a: Entry, b: Entry) {
    !less(a, b)
  }

  /** No entry of the queue is below e. */
  ghost predicate Minimal(less: (Entry, Entry) -> bool, e: Entry, bag: multiset<Entry>) {
    forall x {:trigger NotLess(less, x, e)} | x in bag :: NotLess(less, x, e)
  }

  lemma SeqOrderIsStrictWeak(less: (Entry, Entry) -> bool, dom: set<Entry>)
    requires SeqOrder(less)
    requires forall a, b | a in dom && b in dom :: -TWO_63 < a.task - b.task < TWO_63
    ensures StrictWeak(less, dom)
  {
    forall x, y | x in dom && y in dom
      ensures less(x, y) <==> x.task < y.task
    {
      assert ComparesBySeq(less, x, y);
      SeqLessClose(x.task, y.task);
    }
  }

  lemma TimeLessIsStrictWeak(dom: set<Entry>)
    ensures StrictWeak(TimeLess, dom)
  {
  }

  lemma EntriesOf(items: seq<Item<Entry>>)
    ensures forall e | e in Elements(ValuesOf(items)) :: e.task in TasksIn(multiset(ValuesOf(items)))
  {
    forall e | e in Elements(ValuesOf(items))
      ensures e.task in TasksIn(multiset(ValuesOf(items)))
    {
      assert e in multiset(ValuesOf(items));
    }
  }

  /** The queued entries fit the tasks they point to, and a queued task's item pointer is set. */
  ghost predicate Consistent(order: multiset<Entry>, time: multiset<Entry>, tasks: map<TaskId, Task>) {
    && Accurate(order, tasks) && Accurate(time, tasks)
    && (forall t | t in TasksIn(order) :: t in tasks && tasks[t].seqItem && t !in TasksIn(time))
    && (forall t | t in TasksIn(time) :: t in tasks && tasks[t].timeItem)
  }

  /** One entry joins an accurate queue. */
  lemma EntryAdded(bag: multiset<Entry>, tasks: map<TaskId, Task>, e: Entry)
    requires Accurate(bag, tasks) && e.task !in TasksIn(bag)
    requires e.task in tasks && e.nextAfter == tasks[e.task].nextAfter
    ensures Accurate(bag + multiset{e}, tasks) && TasksIn(bag + multiset{e}) == TasksIn(bag) + {e.task}
  {
    var bag' := bag + multiset{e};
    assert e in bag' && forall x | x in bag :: x in bag' && x.task in TasksIn(bag);
    forall x | x in bag'
      ensures Fits(bag', tasks, x)
    {
      assert x != e ==> Fits(bag, tasks, x);
    }
  }

  /** One entry leaves an accurate queue. */
  lemma EntryTaken(bag: multiset<Entry>, tasks: map<TaskId, Task>, e: Entry)
    requires Accurate(bag, tasks) && e in bag
    ensures e.task in TasksIn(bag)
    ensures Accurate(bag - multiset{e}, tasks) && TasksIn(bag - multiset{e}) == TasksIn(bag) - {e.task}
  {
    var bag' := bag - multiset{e};
    assert Fits(bag, tasks, e);
    forall x | x in bag && x != e
      ensures x in bag' && x.task != e.task && Fits(bag', tasks, x)
    {
      assert Fits(bag, tasks, x);
    }
  }

  lemma StaysAccurate(bag: multiset<Entry>, tasks: map<TaskId, Task>, t: TaskId, r: Task)
    requires Accurate(bag, tasks) && t in tasks && r.nextAfter == tasks[t].nextAfter
    ensures Accurate(bag, tasks[t := r])
  {
    forall e | e in bag
      ensures Fits(bag, tasks[t := r], e)
    {
      assert Fits(bag, tasks, e);
    }
  }

  lemma AccurateTasksKnown(bag: multiset<Entry>, tasks: map<TaskId, Task>)
    requires Accurate(bag, tasks)
    ensures TasksIn(bag) <= tasks.Keys
  {
    assert forall e | e in bag :: Fits(bag, tasks, e);
  }

  /** The core state c lists exactly the tasks in the two queues. */
  ghost predicate Shows(c: Core, order: multiset<Entry>, time: multiset<Entry>) {
    c.byOrder == TasksIn(order) && c.byTime == TasksIn(time) && Consistent(order, time, c.tasks)
  }

  lemma ShownTasksKnown(c: Core, order: multiset<Entry>, time: multiset<Entry>)
    requires Shows(c, order, time)
    ensures c.Known()
  {
    AccurateTasksKnown(order, c.tasks);
    AccurateTasksKnown(time, c.tasks);
  }

  /** An entry for an unqueued task joins the insertion-order queue. */
  lemma AddedByOrder(c: Core, order: multiset<Entry>, time: multiset<Entry>, t: TaskId)
    requires Shows(c, order, time) && t in c.tasks && Enqueue(c, t).Queued? && c.Due(t) == ZERO_TIME
    ensures Shows(Enqueue(c, t).core, order + multiset{Entry(t, c.Due(t))}, time)
  {
    EntryAdded(order, c.tasks, Entry(t, c.Due(t)));
    StaysAccurate(order + multiset{Entry(t, c.Due(t))}, c.tasks, t, c.tasks[t].(seqItem := true));
    StaysAccurate(time, c.tasks, t, c.tasks[t].(seqItem := true));
  }

  /** An entry for an unqueued task joins the time queue. */
  lemma AddedByTime(c: Core, order: multiset<Entry>, time: multiset<Entry>, t: TaskId)
    requires Shows(c, order, time) && t in c.tasks && Enqueue(c, t).Queued? && c.Due(t) != ZERO_TIME
    ensures Shows(Enqueue(c, t).core, order, time + multiset{Entry(t, c.Due(t))})
  {
    EntryAdded(time, c.tasks, Entry(t, c.Due(t)));
    StaysAccurate(time + multiset{Entry(t, c.Due(t))}, c.tasks, t, c.tasks[t].(timeItem := true));
    StaysAccurate(order, c.tasks, t, c.tasks[t].(timeItem := true));
  }

  /** The fields of a task that is in no queue may change. */
  lemma UnqueuedTaskChanged(order: multiset<Entry>, time: multiset<Entry>, tasks: map<TaskId, Task>, t: TaskId, r: Task)
    requires Consistent(order, time, tasks) && t !in TasksIn(order) && t !in TasksIn(time)
    ensures Consistent(order, time, tasks[t := r])
  {
    OtherEntriesFit(order, tasks, t, r);
    OtherEntriesFit(time, tasks, t, r);
  }

  lemma OtherEntriesFit(bag: multiset<Entry>, tasks: map<TaskId, Task>, t: TaskId, r: Task)
    requires Accurate(bag, tasks) && t !in TasksIn(bag)
    ensures Accurate(bag, tasks[t := r])
  {
    forall e | e in bag
      ensures Fits(bag, tasks[t := r], e)
    {
      assert e.task in TasksIn(bag) && Fits(bag, tasks, e);
    }
  }

  /** What a minimal entry of the time queue says. */
  lemma PeekedEarliest(c: Core, order: multiset<Entry>, time: multiset<Entry>, e: Entry, now: int)
    requires Shows(c, order, time) && e in time && Minimal(TimeLess, e, time)
    ensures c.Known() && e.task in c.byTime && c.Earliest(c.Due(e.task))
    ensures now < c.Due(e.task) ==> !c.SomeDue(now)
  {
    ShownTasksKnown(c, order, time);
    assert Fits(time, c.tasks, e);
    forall t | t in c.byTime
      ensures c.Due(e.task) <= c.Due(t)
    {
      var x :| x in time && x.task == t;
      assert Fits(time, c.tasks, x) && NotLess(TimeLess, x, e);
    }
  }

  /** Taking a minimal, due entry from the time queue. */
  lemma TookDue(c: Core, order: multiset<Entry>, time: multiset<Entry>, e: Entry, now: int)
    requires Shows(c, order, time) && e in time && Minimal(TimeLess, e, time)
    requires e.task in c.tasks && c.Due(e.task) <= now
    ensures c.Known() && e.task in c.byTime && Next(c, now, e.task)
    ensures Shows(Dequeue(c, e.task), order, time - multiset{e})
  {
    PeekedEarliest(c, order, time, e, now);
    EntryTaken(time, c.tasks, e);
    StaysAccurate(time - multiset{e}, c.tasks, e.task, c.tasks[e.task].(timeItem := false));
    StaysAccurate(order, c.tasks, e.task, c.tasks[e.task].(timeItem := false));
    assert c.SomeDue(now);
  }

  /** Taking a minimal entry from the insertion-order queue while nothing is due. */
  lemma TookOldest(c: Core, order: multiset<Entry>, time: multiset<Entry>, less: (Entry, Entry) -> bool, e: Entry,
                   now: int)
    requires SeqOrder(less) && Shows(c, order, time) && e in order && Minimal(less, e, order)
    requires c.Known() && !c.SomeDue(now)
    ensures e.task in c.byOrder && e.task !in c.byTime && Next(c, now, e.task)
    ensures Shows(Dequeue(c, e.task), order - multiset{e}, time)
  {
    EntryTaken(order, c.tasks, e);
    StaysAccurate(order - multiset{e}, c.tasks, e.task, c.tasks[e.task].(seqItem := false));
    StaysAccurate(time, c.tasks, e.task, c.tasks[e.task].(seqItem := false));
    forall u | u in c.byOrder
      ensures NotBelow(u, e.task)
    {
      var x :| x in order && x.task == u;
      assert ComparesBySeq(less, x, e) && NotLess(less, x, e);
    }
  }

  lemma EmptyQueue(bag: multiset<Entry>)
    ensures |bag| == 0 <==> TasksIn(bag) == {}
  {
    if bag != multiset{} {
      var e :| e in bag;
      assert e.task in TasksIn(bag);
    }
  }

  lemma SleepsUntil(c: Core, now: int, remaining: int)
    requires c.Known() && !c.stopRequested && c.taskActiveCount < c.slots
    requires NoneReady(c, now) && Wait(c, now, remaining)
    ensures Decides(c, now, Sleep(if remaining > 0 then Some(now + remaining) else None))
  {
  }

  class Scheduler {
    var slots: int
    var tasks: map<TaskId, Task>
    const tasksByOrder: PrioQueue<Entry>
    const tasksByTime: PrioQueue<Entry>
    var loopActiveCount: int
    var loopStopRequested: bool
    var taskActiveCount: int

    constructor (cpus: nat)
      requires 1 <= cpus
      ensures Valid() && fresh(Repr())
      ensures View() == Core(cpus, map[], {}, {}, 0, false, 0)
    {
      slots, tasks := cpus, map[];
      tasksByOrder := new PrioQueue(OrderLess);
      tasksByTime := new PrioQueue(TimeLess);
      loopActiveCount, loopStopRequested, taskActiveCount := 0, false, 0;
    }

    ghost function Repr(): set<object>
      reads tasksByOrder, tasksByTime
    {
      {this, tasksByOrder, tasksByTime} + tasksByOrder.Repr + tasksByTime.Repr
    }

    ghost predicate QueuesValid()
      reads tasksByOrder, tasksByOrder.Repr, tasksByTime, tasksByTime.Repr
    {
      && tasksByOrder != tasksByTime && tasksByOrder.Repr !! tasksByTime.Repr
      && tasksByOrder.Valid() && SeqOrder(tasksByOrder.less)
      && tasksByTime.Valid() && tasksByTime.less == TimeLess
    }

    ghost predicate Valid()
      reads Repr()
    {
      QueuesValid() && Consistent(tasksByOrder.Contents(), tasksByTime.Contents(), tasks)
    }

    ghost function View(): Core
      reads this, tasksByOrder, tasksByTime
    {
      Core(slots, tasks, TasksIn(tasksByOrder.Contents()), TasksIn(tasksByTime.Contents()),
           loopActiveCount, loopStopRequested, taskActiveCount)
    }

    /** The state this scheduler represents, if its fields are consistent with each other. */
    ghost function Model(): Option<Core>
      reads Repr()
    {
      if Valid() then Some(View()) else None
    }

    /** SetSlots, the part under the lock. */
    method SetSlots(count: int, ghost c: Core)
      requires Model() == Some(c)
      modifies this`slots
      ensures Model() == Some(c.(slots := if count < 1 then 1 else count))
    {
      slots := if count < 1 then 1 else count;
    }

    /** Updates the fields of one task after its entry joined or left a queue. */
    method SetTask(t: TaskId, r: Task, ghost c: Core)
      requires QueuesValid() && t in tasks && c.tasks == tasks[t := r]
      requires Shows(c, tasksByOrder.Contents(), tasksByTime.Contents())
      requires View() == c.(tasks := tasks)
      modifies this`tasks
      ensures Model() == Some(c)
    {
      tasks := tasks[t := r];
    }

    /** Sets the fields of a task that is in no queue: a new one, or one that a thread holds. */
    method SetUnqueued(t: TaskId, r: Task, ghost c: Core)
      requires Model() == Some(c) && t !in c.byOrder && t !in c.byTime
      modifies this`tasks
      ensures Model() == Some(c.(tasks := c.tasks[t := r]))
    {
      UnqueuedTaskChanged(tasksByOrder.Contents(), tasksByTime.Contents(), tasks, t, r);
      tasks := tasks[t := r];
    }

    function GetTask(t: TaskId, ghost c: Core): (r: Task)
      requires Model() == Some(c) && t in c.tasks
      reads Repr()
      ensures r == c.tasks[t]
    {
      tasks[t]
    }

    /** Start up to the point where its goroutine unlocks; a second call panics. */
    method Start(ghost c: Core) returns (panicked: bool)
      requires Model() == Some(c)
      modifies this`loopActiveCount
      ensures panicked <==> c.stopRequested || c.loopActiveCount != 0
      ensures Model() == Some(if panicked then c else c.(loopActiveCount := c.loopActiveCount + 1))
    {
      panicked := loopStopRequested || loopActiveCount != 0;
      if !panicked {
        loopActiveCount := loopActiveCount + 1;
      }
    }

    /** The deferred section of Start's goroutine. */
    method LoopEnd(ghost c: Core)
      requires Model() == Some(c)
      modifies this`loopActiveCount
      ensures Model() == Some(c.(loopActiveCount := c.loopActiveCount - 1))
    {
      loopActiveCount := loopActiveCount - 1;
    }

    /** The first section of Stop. */
    method RequestStop(ghost c: Core)
      requires Model() == Some(c)
      modifies this`loopStopRequested
      ensures Model() == Some(c.(stopRequested := true))
    {
      loopStopRequested := true;
    }

    /** enqueue */
    method Enqueue(t: TaskId, ghost c: Core) returns (panicked: bool)
      requires Model() == Some(c) && t in c.tasks && (c.Due(t) == ZERO_TIME ==> WindowOk(c.byOrder + {t}))
      modifies Repr()
      ensures fresh(tasksByOrder.Repr - old(tasksByOrder.Repr)) && fresh(tasksByTime.Repr - old(tasksByTime.Repr))
      ensures panicked <==> SchedulerCore.Enqueue(c, t) == Panicked
      ensures panicked <==> Wrap64(t) == 0 || c.tasks[t].seqItem || c.tasks[t].timeItem
      ensures Model() == Some(if panicked then c else SchedulerCore.Enqueue(c, t).core)
    {
      if Wrap64(t) == 0 || !(!tasks[t].seqItem && !tasks[t].timeItem) {
        return true;
      }
      if tasks[t].nextAfter == ZERO_TIME {
        AddedByOrder(c, tasksByOrder.Contents(), tasksByTime.Contents(), t);
        PushByOrder(Entry(t, tasks[t].nextAfter));
        SetTask(t, tasks[t].(seqItem := true), SchedulerCore.Enqueue(c, t).core);
      } else {
        AddedByTime(c, tasksByOrder.Contents(), tasksByTime.Contents(), t);
        PushByTime(Entry(t, tasks[t].nextAfter));
        SetTask(t, tasks[t].(timeItem := true), SchedulerCore.Enqueue(c, t).core);
      }
      panicked := false;
    }

    method PushByOrder(e: Entry)
      requires QueuesValid() && WindowOk(TasksIn(tasksByOrder.Contents()) + {e.task})
      modifies tasksByOrder`items, tasksByOrder`Repr, tasksByOrder.Repr`index
      ensures QueuesValid() && fresh(tasksByOrder.Repr - old(tasksByOrder.Repr))
      ensures tasksByOrder.Contents() == old(tasksByOrder.Contents()) + multiset{e}
      ensures tasksByTime.Contents() == old(tasksByTime.Contents())
    {
      EntriesOf(tasksByOrder.items);
      SeqOrderIsStrictWeak(tasksByOrder.less, Elements(ValuesOf(tasksByOrder.items)) + {e});
      var _ := tasksByOrder.Push(e);
    }

    method PushByTime(e: Entry)
      requires QueuesValid()
      modifies tasksByTime`items, tasksByTime`Repr, tasksByTime.Repr`index
      ensures QueuesValid() && fresh(tasksByTime.Repr - old(tasksByTime.Repr))
      ensures tasksByTime.Contents() == old(tasksByTime.Contents()) + multiset{e}
      ensures tasksByOrder.Contents() == old(tasksByOrder.Contents())
    {
      TimeLessIsStrictWeak(Elements(ValuesOf(tasksByTime.items)) + {e});
      var _ := tasksByTime.Push(e);
    }

    method PopByOrder() returns (e: Option<Entry>)
      requires QueuesValid()
      modifies tasksByOrder`items, tasksByOrder.Repr`index
      ensures QueuesValid() && tasksByTime.Contents() == old(tasksByTime.Contents())
      ensures e.None? ==> tasksByOrder.Contents() == old(tasksByOrder.Contents()) == multiset{}
      ensures e.Some? ==> e.value in old(tasksByOrder.Contents())
      ensures e.Some? ==> Minimal(tasksByOrder.less, e.value, old(tasksByOrder.Contents()))
      ensures e.Some? ==> tasksByOrder.Contents() == old(tasksByOrder.Contents()) - multiset{e.value}
    {
      e := tasksByOrder.Pop();
    }

    method PeekByTime() returns (e: Option<Entry>)
      requires QueuesValid()
      ensures e == tasksByTime.Peek()
      ensures e.None? ==> tasksByTime.Contents() == multiset{}
      ensures e.Some? ==> e.value in tasksByTime.Contents() && Minimal(TimeLess, e.value, tasksByTime.Contents())
    {
      e := tasksByTime.Peek();
    }

    method PopByTime() returns (e: Option<Entry>)
      requires QueuesValid()
      modifies tasksByTime`items, tasksByTime.Repr`index
      ensures QueuesValid() && tasksByOrder.Contents() == old(tasksByOrder.Contents())
      ensures e == old(tasksByTime.Peek())
      ensures e.Some? ==> tasksByTime.Contents() == old(tasksByTime.Contents()) - multiset{e.value}
    {
      e := tasksByTime.Pop();
    }

    /** The first half of popNextLocked: a due task, or how long to wait for the earliest due time. */
    method PopDue(now: int, ghost c: Core) returns (task: Option<TaskId>, remaining: int)
      requires Model() == Some(c) && c.Known()
      modifies Repr()
      ensures unchanged(tasksByOrder`Repr, tasksByTime`Repr)
      ensures task.None? ==> Model() == Some(c) && !c.SomeDue(now) && Wait(c, now, remaining)
      ensures task.Some? ==> task.value in c.byTime && Next(c, now, task.value)
      ensures task.Some? ==> Model() == Some(Dequeue(c, task.value)) && remaining == -1
    {
      ghost var order, time := tasksByOrder.Contents(), tasksByTime.Contents();
      task, remaining := None, -1;
      var nextByTime := PeekByTime();
      if nextByTime.Some? {
        PeekedEarliest(c, order, time, nextByTime.value, now);
        remaining := tasks[nextByTime.value.task].nextAfter - now;
        if remaining <= 0 {
          var t := TakeDue(now, c, nextByTime.value);
          task, remaining := Some(t), -1;
        }
      }
    }

    /** Takes the first task of the time queue, which is due. */
    method TakeDue(ghost now: int, ghost c: Core, ghost first: Entry) returns (t: TaskId)
      requires Model() == Some(c) && tasksByTime.Peek() == Some(first)
      requires first in tasksByTime.Contents() && Minimal(TimeLess, first, tasksByTime.Contents())
      requires first.task in c.tasks && c.Due(first.task) <= now
      modifies Repr()
      ensures unchanged(tasksByOrder`Repr, tasksByTime`Repr)
      ensures c.Known() && t in c.byTime && Next(c, now, t) && Model() == Some(Dequeue(c, t))
    {
      TookDue(c, tasksByOrder.Contents(), tasksByTime.Contents(), first, now);
      var e := PopByTime();
      t := e.value.task;
      SetTask(t, tasks[t].(timeItem := false), Dequeue(c, t));
    }

    /** The second half of popNextLocked: the task that comes first in insertion order. */
    method PopOldest(ghost now: int, ghost c: Core) returns (task: Option<TaskId>)
      requires Model() == Some(c) && c.Known() && !c.SomeDue(now)
      modifies Repr()
      ensures unchanged(tasksByOrder`Repr, tasksByTime`Repr)
      ensures task.None? ==> Model() == Some(c) && c.byOrder == {}
      ensures task.Some? ==> task.value in c.byOrder && Next(c, now, task.value)
      ensures task.Some? ==> Model() == Some(Dequeue(c, task.value))
    {
      ghost var order, time := tasksByOrder.Contents(), tasksByTime.Contents();
      task := None;
      var nextByOrder := PopByOrder();
      if nextByOrder.Some? {
        TookOldest(c, order, time, tasksByOrder.less, nextByOrder.value, now);
        task := Some(nextByOrder.value.task);
        SetTask(task.value, tasks[task.value].(seqItem := false), Dequeue(c, task.value));
      }
    }

    /** popNextLocked: the task to run next or, without one, how long to wait for the earliest due time. */
    method PopNextLocked(now: int, ghost c: Core) returns (task: Option<TaskId>, remaining: int)
      requires Model() == Some(c) && c.Known()
      modifies Repr()
      ensures unchanged(tasksByOrder`Repr, tasksByTime`Repr)
      ensures task.None? ==> Model() == Some(c) && NoneReady(c, now) && Wait(c, now, remaining)
      ensures task.Some? ==> task.value in c.tasks && Next(c, now, task.value)
      ensures task.Some? ==> Model() == Some(Dequeue(c, task.value))
    {
      task, remaining := PopDue(now, c);
      if task.None? {
        task := PopOldest(now, c);
      }
    }

    /** One round of loop under the lock, including the increment by a launched goroutine. */
    method LoopRound(now: int, ghost c: Core) returns (d: Decision)
      requires Model() == Some(c) && c.Known()
      modifies Repr()
      ensures unchanged(tasksByOrder`Repr, tasksByTime`Repr)
      ensures Decides(c, now, d)
      ensures d.Launch? ==> Model() == Some(Launched(c, d.task))
      ensures !d.Launch? ==> Model() == Some(c)
    {
      assert loopStopRequested == c.stopRequested && taskActiveCount == c.taskActiveCount && slots == c.slots;
      hide Model;
      if loopStopRequested {
        d := Leave;
      } else if taskActiveCount >= slots {
        d := Sleep(None);
      } else {
        var runtask, remaining := PopNextLocked(now, c);
        if runtask.None? {
          SleepsUntil(c, now, remaining);
          d := Sleep(if remaining > 0 then Some(now + remaining) else None);
        } else {
          AddActive(1, Dequeue(c, runtask.value), Launched(c, runtask.value));
          d := Launch(runtask.value);
        }
      }
    }

    method AddActive(n: int, ghost c: Core, ghost c': Core)
      requires Model() == Some(c) && c' == c.(taskActiveCount := c.taskActiveCount + n)
      modifies this`taskActiveCount
      ensures Model() == Some(c')
    {
      taskActiveCount := taskActiveCount + n;
    }

    /** The locked section at the end of runTask, up to its test of QueuesNonEmpty. */
    method FinishTask(t: TaskId, finished: bool, ghost c: Core, ghost r: Enqueued) returns (panicked: bool)
      requires Model() == Some(c) && t in c.tasks && r == FinishedTask(c, t, finished)
      requires !finished && c.Due(t) == ZERO_TIME ==> WindowOk(c.byOrder + {t})
      modifies Repr()
      ensures panicked <==> r.Panicked?
      ensures !panicked ==> Model() == Some(r.core)
    {
      ghost var c1 := c.(taskActiveCount := c.taskActiveCount - 1);
      assert r == if finished then Queued(c1) else SchedulerCore.Enqueue(c1, t);
      AddActive(-1, c, c1);
      if finished {
        panicked := false;
      } else {
        panicked := Enqueue(t, c1);
      }
    }

    /** Whether runTask signals the loop, and part of what Quiesce waits for. */
    method QueuesNonEmpty(ghost c: Core) returns (b: bool)
      requires Model() == Some(c)
      ensures b <==> c.byOrder != {} || c.byTime != {}
    {
      EmptyQueue(tasksByOrder.Contents());
      EmptyQueue(tasksByTime.Contents());
      b := tasksByOrder.Len() > 0 || tasksByTime.Len() > 0;
    }

    /** The check in Quiesce. */
    method Quiesced(ghost c: Core) returns (b: bool)
      requires Model() == Some(c)
      ensures b <==> Idle(c)
      ensures b <==> c.taskActiveCount == 0 && c.byOrder == {} && c.byTime == {}
    {
      var waiting := QueuesNonEmpty(c);
      b := taskActiveCount == 0 && !waiting;
    }

    /** The check in Stop, which abandons the queued tasks once nothing runs any more. */
    method StopCheck(ghost c: Core) returns (done: bool)
      requires Model() == Some(c)
      modifies Repr()
      ensures unchanged(tasksByOrder`Repr, tasksByTime`Repr)
      ensures done <==> Halted(c)
      ensures done <==> c.loopActiveCount == 0 && c.taskActiveCount == 0
      ensures Model() == Some(if done then c.(byOrder := {}, byTime := {}) else c)
    {
      done := loopActiveCount == 0 && taskActiveCount == 0;
      if done {
        EmptyQueue(multiset{});
        tasksByOrder.Clear();
        tasksByTime.Clear();
        assert tasksByOrder.Contents() == multiset{} && tasksByTime.Contents() == multiset{};
      }
    }

    /**
     * One round of the loop as a step of its thread th: the section leaves, sleeps or launches a task on
     * the new thread runner, whose first attempt is counted.
     */
    method TakeRound(now: int, ghost s: State, ghost th: ThreadId, ghost runner: ThreadId) returns (d: Decision)
      requires Model() == Some(s.core) && Typed(s) && !s.panicked && now == s.now
      requires th in s.threads && s.threads[th].LoopTop? && runner !in s.threads
      requires forall t | t in s.core.byOrder :: t !in s.core.byTime
      modifies Repr()
      ensures Enabled(s, LoopAction(d, th, runner))
      ensures Model() == Some(NextCore(s, LoopAction(d, th, runner)))
    {
      hide Model;
      d := LoopRound(now, s.core);
      if d.Launch? {
        var r := GetTask(d.task, Launched(s.core, d.task));
        SetUnqueued(d.task, r.(attemptCount := r.attemptCount + 1), Launched(s.core, d.task));
      }
    }

    /**
     * Every other section as the step a of a thread that holds `task`, if any, with its result in
     * `finished`, and with `drawn` as the next ticket.
     */
    method Take(a: Action, task: TaskId, finished: bool, drawn: TaskId, now: int, ghost s: State)
      returns (panicked: bool)
      requires Model() == Some(s.core) && SectionOk(s, a) && now == s.now && drawn == NextTicket(s.counter)
      requires MovesHeld(s, a) ==>
        task == s.threads[a.th].task && (a.TaskFinish? ==> finished == s.threads[a.th].finished)
      modifies Repr()
      ensures panicked <==> Panics(s, a)
      ensures !panicked ==> Model() == Some(NextCore(s, a))
    {
      hide Model;
      panicked := false;
      match a {
        case AddDraw(_, delay) => SetUnqueued(drawn, Task(DueFrom(now, delay), 0, false, false), s.core);
        case AddEnqueue(_) => panicked := Enqueue(task, s.core);
        case SetSlots(_, count) => SetSlots(count, s.core);
        case Start(_) => var _ := Start(s.core);
        case LoopEnd(_) => LoopEnd(s.core);
        case TaskReturn(_, outcome) =>
          if outcome.Retry? {
            var r := GetTask(task, s.core);
            SetUnqueued(task, r.(nextAfter := now + outcome.delay), s.core);
          }
        case TaskFinish(_) => panicked := FinishTask(task, finished, s.core, FinishedTask(s.core, task, finished));
        case StopCall(_) => RequestStop(s.core);
        case StopCheck(_) => var _ := StopCheck(s.core);
        case _ =>
      }
    }
  }

  /** The step that a decision of the loop comes to. */
  ghost function LoopAction(d: Decision, th: ThreadId, runner: ThreadId): Action {
    match d
    case Leave => LoopLeave(th)
    case Sleep(timer) => LoopSleep(th, timer)
    case Launch(t) => LoopLaunch(th, t, runner)
  }

  /** The moving thread holds a task. */
  predicate MovesHeld(s: State, a: Action) {
    (a.AddEnqueue? || a.TaskReturn? || a.TaskFinish?) && a.th in s.threads && HoldsTask(s.threads[a.th])
  }

  /** The step puts the task that its thread holds into a queue. */
  ghost predicate QueuesTask(s: State, a: Action)
    requires Typed(s) && Enabled(s, a)
  {
    a.AddEnqueue? || (a.TaskFinish? && !s.threads[a.th].finished)
  }

  /**
   * The step is possible and not a decision of the loop. New and held tasks are in no queue, and the
   * tickets in the insertion-order queue stay close enough to be compared.
   */
  ghost predicate SectionOk(s: State, a: Action) {
    && Typed(s) && Enabled(s, a) && !a.LoopLeave? && !a.LoopSleep? && !a.LoopLaunch?
    && NextTicket(s.counter) !in s.core.tasks
    && (MovesHeld(s, a) ==> s.threads[a.th].task !in s.core.byOrder && s.threads[a.th].task !in s.core.byTime)
    && (QueuesTask(s, a) ==>
          s.core.Due(s.threads[a.th].task) == ZERO_TIME ==> WindowOk(s.core.byOrder + {s.threads[a.th].task}))
  }

  /** In reachable states only the distance of tickets is in question. */
  lemma SectionsAreOk(s: State, a: Action)
    requires TasksOk(s) && Enabled(s, a) && !a.LoopLeave? && !a.LoopSleep? && !a.LoopLaunch?
    requires QueuesTask(s, a) ==>
      s.core.Due(s.threads[a.th].task) == ZERO_TIME ==> WindowOk(s.core.byOrder + {s.threads[a.th].task})
    ensures SectionOk(s, a)
  {
    assert NextTicket(s.counter) in s.core.tasks ==> RecordOk(s, NextTicket(s.counter));
    if MovesHeld(s, a) {
      assert Owns(s, a.th, s.threads[a.th].task) && InOnePlace(s, s.threads[a.th].task);
    }
  }
}
