// The task list of Scheduler.h and Scheduler.cpp: scheduling, selection by the worker, and the
// counters that decide when the scheduler may stop.
module Scheduling {
  import opened Common

  predicate Eligible(t: Task, me: int) {
    t.thread == ANY_THREAD || t.thread == me
  }

  // Index of the task run() takes on thread `me`; |tasks| when there is none.
  function Pick(tasks: seq<Task>, me: int): (i: nat)
    ensures i <= |tasks|
    ensures forall j :: 0 <= j < i ==> !Eligible(tasks[j], me)
    ensures i < |tasks| ==> Eligible(tasks[i], me)
  {
    if tasks == [] || Eligible(tasks[0], me) then 0 else 1 + Pick(tasks[1..], me)
  }

  function Without(tasks: seq<Task>, i: nat): seq<Task>
    requires i < |tasks|
  {
    tasks[..i] + tasks[i + 1..]
  }

  // The tasks a batch appends: null callbacks are dropped.
  function BatchTasks(cbs: seq<Option<Callback>>): seq<Task> {
    if cbs == [] then []
    else (if cbs[0].Some? then [Task(CbWork(cbs[0].value), ANY_THREAD)] else []) + BatchTasks(cbs[1..])
  }

  // The tasks of two batches are those of the one behind those of the other; a callback makes one task
  // that any thread may take, a null none.
  lemma {:induction false} BatchTasksConcat(a: seq<Option<Callback>>, b: seq<Option<Callback>>, cb: Callback)
    ensures BatchTasks(a + b) == BatchTasks(a) + BatchTasks(b)
    ensures BatchTasks([Some(cb)]) == [Task(CbWork(cb), -1)] && BatchTasks([None]) == []
  {
    var one, none: seq<Option<Callback>> := [Some(cb)], [None];
    assert one[1..] == [] && none[1..] == [];
    if a == [] {
      assert a + b == b;
    } else {
      BatchTasksConcat(a[1..], b, cb);
      assert (a + b)[1..] == a[1..] + b;
    }
  }

  lemma BatchTasksAppend(cbs: seq<Option<Callback>>, cb: Option<Callback>)
    ensures BatchTasks(cbs + [cb])
         == BatchTasks(cbs) + if cb.Some? then [Task(CbWork(cb.value), ANY_THREAD)] else []
  {
    BatchTasksConcat(cbs, [cb], if cb.Some? then cb.value else UserCb(0));
  }

  class Scheduler {
    var tasks: seq<Task>
    var activeCount: nat
    var idleCount: nat
    var stopping: bool
    const me: int

    constructor (me: int)
      ensures this.me == me && tasks == [] && activeCount == 0 && idleCount == 0 && !stopping
    {
      this.me, tasks, activeCount, idleCount, stopping := me, [], 0, 0, false;
    }

    // schedule(fc, thread); a null function object is not queued, but the answer to "was the
    // queue empty" is the same.
    method Schedule(work: Option<Work>, thread: int) returns (needTickle: bool)
      modifies this`tasks
      ensures tasks == old(tasks) + if work.Some? then [Task(work.value, thread)] else []
      ensures needTickle <==> old(tasks) == []
    {
      needTickle := |tasks| == 0;
      if work.Some? {
        tasks := tasks + [Task(work.value, thread)];
      }
    }

    // schedule(begin, end)
    method ScheduleBatch(cbs: seq<Option<Callback>>) returns (needTickle: bool)
      modifies this`tasks
      ensures tasks == old(tasks) + BatchTasks(cbs)
      ensures needTickle <==> old(tasks) == [] && cbs != []
    {
      needTickle := false;
      var i := 0;
      while i < |cbs|
        invariant i <= |cbs|
        invariant tasks == old(tasks) + BatchTasks(cbs[..i])
        invariant needTickle <==> old(tasks) == [] && i > 0
      {
        var cb := cbs[i];
        BatchTasksAppend(cbs[..i], cb);
        assert cbs[..i + 1] == cbs[..i] + [cb];
        var first := Schedule(if cb.Some? then Some(CbWork(cb.value)) else None, ANY_THREAD);
        needTickle := first || needTickle;
        i := i + 1;
      }
      assert cbs[..i] == cbs;
    }

    // The locked part of run(): take the first task this thread may run. `tickle` is tickle_me.
    method TakeTask() returns (task: Option<Task>, tickle: bool)
      modifies this`tasks, this`activeCount
      ensures var i := Pick(old(tasks), me);
              if i < |old(tasks)|
              then task == Some(old(tasks)[i]) && tasks == Without(old(tasks), i) && activeCount == old(activeCount) + 1
              else task == None && tasks == old(tasks) && activeCount == old(activeCount)
      ensures task.Some? ==> task.value.thread == -1 || task.value.thread == me
      ensures task.None? ==> forall t :: t in tasks ==> t.thread != -1 && t.thread != me
      ensures tickle <==> tasks != []
    {
      task, tickle := None, false;
      var it := 0;
      while it < |tasks|
        invariant it <= |tasks| && tasks == old(tasks) && task == None && activeCount == old(activeCount)
        invariant forall j :: 0 <= j < it ==> !Eligible(tasks[j], me)
        invariant tickle <==> it > 0
      {
        if tasks[it].thread != ANY_THREAD && tasks[it].thread != me {
          it := it + 1;
          tickle := true;
        } else {
          PickUnique(tasks, me, it);
          task := Some(tasks[it]);
          tasks := tasks[..it] + tasks[it + 1..];
          activeCount := activeCount + 1;
          break;
        }
      }
      if task == None {
        PickUnique(tasks, me, it);
      }
      tickle := tickle || it < |tasks|;
    }

    method Stopping() returns (r: bool)
      ensures r <==> stopping && tasks == [] && activeCount == 0
    {
      r := stopping && |tasks| == 0 && activeCount == 0;
    }
  }

  lemma PickUnique(tasks: seq<Task>, me: int, i: nat)
    requires i <= |tasks| && forall j :: 0 <= j < i ==> !Eligible(tasks[j], me)
    requires i < |tasks| ==> Eligible(tasks[i], me)
    ensures Pick(tasks, me) == i
  {
  }

  // The idle branch of run() is reached with an empty queue exactly when no queued task is
  // pinned to another thread; the comment there takes the queue to be empty always.
  lemma IdleQueue(tasks: seq<Task>, me: int)
    requires Pick(tasks, me) == |tasks|
    ensures tasks == [] <==> forall t :: t in tasks ==> t.thread == -1 || t.thread == me
  {
  }

  // ---------------------------------------------------------------- order over whole runs

  datatype Op = Put(task: Task) | PutBatch(cbs: seq<Option<Callback>>) | Take

  // scheduled and taken are the histories of tasks that entered and left the queue.
  datatype Queue = Queue(tasks: seq<Task>, scheduled: seq<Task>, taken: seq<Task>)

  function Apply(q: Queue, op: Op, me: int): Queue {
    match op
    case Put(t) => Queue(q.tasks + [t], q.scheduled + [t], q.taken)
    case PutBatch(cbs) => Queue(q.tasks + BatchTasks(cbs), q.scheduled + BatchTasks(cbs), q.taken)
    case Take =>
      var i := Pick(q.tasks, me);
      if i < |q.tasks| then Queue(Without(q.tasks, i), q.scheduled, q.taken + [q.tasks[i]]) else q
  }

  function ApplyAll(q: Queue, ops: seq<Op>, me: int): Queue
    decreases |ops|
  {
    if ops == [] then q else ApplyAll(Apply(q, ops[0], me), ops[1..], me)
  }

  // The tasks that are, or are not, this worker's to run, in queue order.
  function Keep(tasks: seq<Task>, me: int, mine: bool): seq<Task> {
    if tasks == [] then []
    else if Eligible(tasks[0], me) == mine then [tasks[0]] + Keep(tasks[1..], me, mine)
    else Keep(tasks[1..], me, mine)
  }

  function Mine(tasks: seq<Task>, me: int): seq<Task> {
    Keep(tasks, me, true)
  }

  function Others(tasks: seq<Task>, me: int): seq<Task> {
    Keep(tasks, me, false)
  }

  lemma {:induction false} KeepAppend(a: seq<Task>, b: seq<Task>, me: int, mine: bool)
    ensures Keep(a + b, me, mine) == Keep(a, me, mine) + Keep(b, me, mine)
  {
    if a == [] {
      assert [] + b == b;
    } else {
      KeepAppend(a[1..], b, me, mine);
      assert (a + b)[0] == a[0] && (a + b)[1..] == a[1..] + b;
      var rest := Keep(a[1..], me, mine) + Keep(b, me, mine);
      assert Keep(a + b, me, mine) == if Eligible(a[0], me) == mine then [a[0]] + rest else rest;
    }
  }

  lemma SplitAppend(a: seq<Task>, b: seq<Task>, me: int)
    ensures Mine(a + b, me) == Mine(a, me) + Mine(b, me)
    ensures Others(a + b, me) == Others(a, me) + Others(b, me)
  {
    KeepAppend(a, b, me, true);
    KeepAppend(a, b, me, false);
  }

  lemma {:induction false} KeepNone(tasks: seq<Task>, me: int)
    requires forall t :: t in tasks ==> !Eligible(t, me)
    ensures Mine(tasks, me) == []
  {
    if tasks != [] {
      KeepNone(tasks[1..], me);
    }
  }

  lemma SplitPick(tasks: seq<Task>, me: int)
    requires Pick(tasks, me) < |tasks|
    ensures var i := Pick(tasks, me);
            && Mine(tasks, me) == [tasks[i]] + Mine(Without(tasks, i), me)
            && Others(tasks, me) == Others(Without(tasks, i), me)
  {
    var i := Pick(tasks, me);
    var before, t, after := tasks[..i], [tasks[i]], tasks[i + 1..];
    assert tasks == before + (t + after);
    SplitAppend(before, t + after, me);
    SplitAppend(t, after, me);
    SplitAppend(before, after, me);
    assert Mine(t, me) == t && Others(t, me) == [];
    KeepNone(before, me);
  }

  lemma {:induction false} SplitAllEligible(tasks: seq<Task>, me: int)
    requires forall t :: t in tasks ==> Eligible(t, me)
    ensures Mine(tasks, me) == tasks
  {
    if tasks != [] {
      SplitAllEligible(tasks[1..], me);
      assert tasks == [tasks[0]] + tasks[1..];
    }
  }

  ghost predicate Fifo(q: Queue, me: int) {
    && Mine(q.scheduled, me) == q.taken + Mine(q.tasks, me)
    && Others(q.scheduled, me) == Others(q.tasks, me)
  }

  lemma ApplyKeepsFifo(q: Queue, op: Op, me: int)
    requires Fifo(q, me)
    ensures Fifo(Apply(q, op, me), me)
  {
    match op
    case Put(t) =>
      SplitAppend(q.scheduled, [t], me);
      SplitAppend(q.tasks, [t], me);
    case PutBatch(cbs) =>
      SplitAppend(q.scheduled, BatchTasks(cbs), me);
      SplitAppend(q.tasks, BatchTasks(cbs), me);
    case Take =>
      if Pick(q.tasks, me) < |q.tasks| {
        SplitPick(q.tasks, me);
      }
  }

  // Over any run: the tasks this worker may run leave in exactly the order they entered, and
  // tasks pinned elsewhere stay, in order. Nothing is lost or duplicated.
  lemma {:induction false} TasksTakenInOrder(q: Queue, ops: seq<Op>, me: int)
    requires Fifo(q, me)
    ensures Fifo(ApplyAll(q, ops, me), me)
    decreases |ops|
  {
    if ops != [] {
      ApplyKeepsFifo(q, ops[0], me);
      TasksTakenInOrder(Apply(q, ops[0], me), ops[1..], me);
    }
  }

  ghost predicate Conserved(q: Queue, me: int) {
    && multiset(q.scheduled) == multiset(q.taken) + multiset(q.tasks)
    && forall t :: t in q.taken ==> t.thread == -1 || t.thread == me
  }

  lemma ApplyKeepsConserved(q: Queue, op: Op, me: int)
    requires Conserved(q, me)
    ensures Conserved(Apply(q, op, me), me)
  {
    if op.Take? && Pick(q.tasks, me) < |q.tasks| {
      var i := Pick(q.tasks, me);
      assert q.tasks == q.tasks[..i] + [q.tasks[i]] + q.tasks[i + 1..];
    }
  }

  // Over any run every task is taken once or still there, and none is taken by a thread it is not for.
  lemma {:induction false} TasksConserved(q: Queue, ops: seq<Op>, me: int)
    requires Conserved(q, me)
    ensures var r := ApplyAll(q, ops, me);
            && multiset(r.scheduled) == multiset(r.taken) + multiset(r.tasks)
            && forall t :: t in r.taken ==> t.thread == -1 || t.thread == me
    decreases |ops|
  {
    if ops != [] {
      ApplyKeepsConserved(q, ops[0], me);
      TasksConserved(Apply(q, ops[0], me), ops[1..], me);
    }
  }

  // With no task pinned to another thread the queue is a plain FIFO: taken, then still queued, is what was
  // scheduled.
  lemma UnpinnedTasksAreFifo(ops: seq<Op>, me: int)
    requires var q := ApplyAll(Queue([], [], []), ops, me);
             forall t :: t in q.scheduled ==> t.thread == -1 || t.thread == me
    ensures var q := ApplyAll(Queue([], [], []), ops, me);
            q.scheduled == q.taken + q.tasks
  {
    var q := ApplyAll(Queue([], [], []), ops, me);
    TasksTakenInOrder(Queue([], [], []), ops, me);
    SplitAllEligible(q.scheduled, me);
    NoOthers(q.scheduled, q.tasks, me);
  }

  lemma {:induction false} OthersEmpty(tasks: seq<Task>, me: int)
    ensures Others(tasks, me) == [] ==> Mine(tasks, me) == tasks
    ensures (forall t :: t in tasks ==> Eligible(t, me)) ==> Others(tasks, me) == []
  {
    if tasks != [] {
      OthersEmpty(tasks[1..], me);
      assert tasks == [tasks[0]] + tasks[1..];
    }
  }

  lemma NoOthers(scheduled: seq<Task>, tasks: seq<Task>, me: int)
    requires (forall t :: t in scheduled ==> Eligible(t, me)) && Others(scheduled, me) == Others(tasks, me)
    ensures Mine(tasks, me) == tasks
  {
    OthersEmpty(scheduled, me);
    OthersEmpty(tasks, me);
  }
}
