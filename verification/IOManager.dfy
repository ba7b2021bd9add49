// FdContext and IOManager of IOManager.cpp as mutable objects. Every method is tied to the
// operation of module FdEvents on the abstract value State(), and to the tasks it queues.
module IOManagerObjects {
  import opened Common
  import opened Scheduling
  import F = FdEvents
  import R = Runtime
  import TO = TimerObjects
  import T = Timers

  class FdContext {
    const fd: nat
    var events: set<Event>
    var read: F.Slot
    var write: F.Slot

    constructor (fd: nat)
      ensures this.fd == fd && Value() == F.UNUSED
    {
      this.fd, events, read, write := fd, {}, F.EMPTY, F.EMPTY;
    }

    function Value(): F.FdContext
      reads this
    {
      F.FdContext(events, read, write)
    }

    method SetContext(ev: Event, slot: F.Slot)
      modifies this`read, this`write
      ensures Value() == old(Value()).Put(ev, slot)
    {
      match ev
      case Read => read := slot;
      case Write => write := slot;
    }

    // triggerEvent, on an event that is registered.
    method TriggerEvent(ev: Event, sched: Scheduler)
      requires ev in events && Value().Get(ev).scheduler
      modifies this, sched`tasks
      ensures Value() == F.Trigger(old(Value()), ev).0
      ensures sched.tasks == old(sched.tasks) + R.TasksOf(F.SlotWork(old(Value()).Get(ev)))
    {
      events := events - {ev};
      var ctx := Value().Get(ev);
      if ctx.cb.Some? {
        var _ := sched.Schedule(Some(CbWork(ctx.cb.value)), ANY_THREAD);
        ctx := ctx.(cb := None);
      } else {
        var _ := sched.Schedule(if ctx.fiber.Some? then Some(FiberWork(ctx.fiber.value)) else None, ANY_THREAD);
        ctx := ctx.(fiber := None);
      }
      SetContext(ev, ctx.(scheduler := false));
    }

    // The two triggers of cancelAll and of the ready-event loop, READ first.
    method TriggerAll(which: set<Event>, sched: Scheduler)
      requires which <= events && F.SlotsMatch(Value())
      modifies this, sched`tasks
      ensures Value() == F.TriggerBoth(old(Value()), which).0
      ensures sched.tasks == old(sched.tasks) + R.TasksOf(F.WorkOf(old(Value()), which))
    {
      ghost var first := if Read in which then F.SlotWork(read) else [];
      ghost var second := if Write in which then F.SlotWork(write) else [];
      assert F.Full(Value().Get(Read)) || Read !in which;
      assert F.Full(Value().Get(Write)) || Write !in which;
      if Read in which {
        TriggerEvent(Read, sched);
      }
      if Write in which {
        TriggerEvent(Write, sched);
      }
      assert R.TasksOf(first + second) == R.TasksOf(first) + R.TasksOf(second);
    }
  }

  class IOManager {
    const sched: Scheduler
    var contexts: seq<FdContext>
    var kernel: map<nat, set<Event>>
    var pending: int
    // The abstract value of `contexts`.
    ghost var fds: seq<F.FdContext>

    constructor (sched: Scheduler)
      ensures Valid() && this.sched == sched && State() == R.NO_FDS
      ensures forall c :: c in contexts ==> fresh(c)
    {
      this.sched, contexts, kernel, pending, fds := sched, [], map[], 0, [];
      new;
      ContextResize(F.INITIAL_FDS);
      F.InitialCoherent();
    }

    ghost function State(): F.IoState
      reads this
    {
      F.IoState(fds, kernel, pending)
    }

    // One context per fd, at its index, each as `fds` says.
    ghost predicate Represents()
      reads this, contexts
    {
      && |fds| == |contexts|
      && (forall i :: 0 <= i < |contexts| ==> contexts[i].fd == i && contexts[i].Value() == fds[i])
    }

    ghost predicate Valid()
      reads this, contexts
    {
      Represents() && F.Coherent(State())
    }

    // contextResize: m_fdContexts.resize(size), and a context for every place still empty.
    method ContextResize(size: nat)
      requires Represents()
      modifies this`contexts, this`fds
      ensures Represents() && fds == F.Resize(old(fds), size)
      ensures size >= old(|contexts|) ==> forall c :: c in old(contexts) ==> c in contexts
      ensures forall c :: c in contexts ==> c in old(contexts) || fresh(c)
    {
      if size < |contexts| {
        contexts, fds := contexts[..size], fds[..size];
        return;
      }
      while |contexts| < size
        invariant old(|contexts|) <= |contexts| <= size && Represents()
        invariant contexts[..old(|contexts|)] == old(contexts)
        invariant fds == old(fds) + seq(|contexts| - old(|contexts|), _ => F.UNUSED)
        invariant forall c :: c in contexts ==> c in old(contexts) || fresh(c)
      {
        var c := new FdContext(|contexts|);
        contexts := contexts + [c];
        fds := fds + [F.UNUSED];
      }
      assert forall c :: c in old(contexts) ==> c in contexts[..old(|contexts|)];
    }

    method EpollCtl(op: F.CtlOp, fd: nat, mask: set<Event>, granted: bool) returns (ok: bool)
      modifies this`kernel
      ensures (kernel, ok) == F.EpollCtl(old(kernel), op, fd, mask, granted)
    {
      if op.CtlAdd? != (fd !in kernel) {
        return false;
      }
      match op
      case CtlDel =>
        kernel := kernel - {fd};
        ok := true;
      case _ =>
        if granted {
          kernel := kernel[fd := mask];
        }
        ok := granted;
    }

    // The bookkeeping of one successful registration.
    method Store(fd: nat, ev: Event, work: Work)
      requires Represents() && fd < |contexts|
      modifies this`pending, this`fds, contexts[fd]
      ensures Represents() && pending == old(pending) + 1
      ensures fds == old(fds)[fd := F.Registered(old(fds)[fd], ev, work)]
    {
      var c := contexts[fd];
      pending := pending + 1;
      c.events := c.events + {ev};
      var slot :=
        match work
        case CbWork(cb) => F.Slot(true, None, Some(cb))
        case FiberWork(f) => F.Slot(true, Some(f), None);
      c.SetContext(ev, slot);
      fds := fds[fd := F.Registered(fds[fd], ev, work)];
    }

    method Drop(fd: nat, ev: Event)
      requires Represents() && fd < |contexts|
      modifies this`pending, this`fds, contexts[fd]
      ensures Represents() && pending == old(pending) - 1
      ensures fds == old(fds)[fd := old(fds)[fd].(events := old(fds)[fd].events - {ev}).Put(ev, F.EMPTY)]
    {
      var c := contexts[fd];
      pending := pending - 1;
      c.events := c.events - {ev};
      c.SetContext(ev, F.EMPTY);
      fds := fds[fd := fds[fd].(events := fds[fd].events - {ev}).Put(ev, F.EMPTY)];
    }

    method FireOne(fd: nat, ev: Event)
      requires Represents() && fd < |contexts| && ev in fds[fd].events && F.SlotsMatch(fds[fd])
      modifies this`pending, this`fds, contexts[fd], sched`tasks
      ensures Represents() && pending == old(pending) - 1
      ensures fds == old(fds)[fd := F.Trigger(old(fds)[fd], ev).0]
      ensures sched.tasks == old(sched.tasks) + R.TasksOf(F.SlotWork(old(fds)[fd].Get(ev)))
    {
      assert F.Full(fds[fd].Get(ev));
      contexts[fd].TriggerEvent(ev, sched);
      pending := pending - 1;
      fds := fds[fd := F.Trigger(fds[fd], ev).0];
    }

    method FireMany(fd: nat, which: set<Event>)
      requires Represents() && fd < |contexts| && which <= fds[fd].events && F.SlotsMatch(fds[fd])
      modifies this`pending, this`fds, contexts[fd], sched`tasks
      ensures Represents() && pending == old(pending) - |which|
      ensures fds == old(fds)[fd := F.TriggerBoth(old(fds)[fd], which).0]
      ensures sched.tasks == old(sched.tasks) + R.TasksOf(F.WorkOf(old(fds)[fd], which))
    {
      contexts[fd].TriggerAll(which, sched);
      pending := pending - |which|;
      fds := fds[fd := F.TriggerBoth(fds[fd], which).0];
    }

    // addEvent of an event that is not registered yet, which the source asserts. Returns 0 or -1.
    method AddEvent(fd: nat, ev: Event, work: Work, granted: bool) returns (rt: int)
      requires Valid() && (fd < |contexts| ==> ev !in contexts[fd].events)
      modifies this, contexts
      ensures Valid() && F.AddEvent(old(State()), fd, ev, work, granted) == F.Done(State(), [], rt == 0)
      ensures rt == 0 || rt == -1
      ensures forall c :: c in contexts ==> c in old(contexts) || fresh(c)
    {
      F.GrownCoherent(State(), fd);
      if |contexts| <= fd {
        ContextResize(fd * 3 / 2);
      }
      assert fds == F.Grown(old(fds), fd);
      assert contexts[fd] in contexts;
      rt := Register(fd, ev, work, granted);
    }

    // addEvent from the context lock on.
    method Register(fd: nat, ev: Event, work: Work, granted: bool) returns (rt: int)
      requires Valid() && fd < |contexts| && ev !in fds[fd].events
      modifies this`kernel, this`pending, this`fds, contexts[fd]
      ensures Valid() && F.Register(old(State()), fd, ev, work, granted) == F.Done(State(), [], rt == 0)
      ensures rt == 0 || rt == -1
    {
      F.RegisterCoherent(State(), fd, ev, work, granted);
      ghost var r := F.Register(State(), fd, ev, work, granted);
      var c := contexts[fd];
      var ok := EpollCtl(if c.events != {} then F.CtlMod else F.CtlAdd, fd, c.events + {ev}, granted);
      if !ok {
        return -1;
      }
      Store(fd, ev, work);
      assert State() == r.st;
      rt := 0;
    }

    method DelEvent(fd: nat, ev: Event, granted: bool) returns (ok: bool)
      requires Valid()
      modifies this`kernel, this`pending, this`fds, contexts
      ensures Valid() && F.DelEvent(old(State()), fd, ev, granted) == F.Done(State(), [], ok)
    {
      F.DelEventCoherent(State(), fd, ev, granted);
      ghost var r := F.DelEvent(State(), fd, ev, granted);
      if |contexts| <= fd || ev !in contexts[fd].events {
        return false;
      }
      var left := contexts[fd].events - {ev};
      ok := EpollCtl(if left != {} then F.CtlMod else F.CtlDel, fd, left, granted);
      if ok {
        Drop(fd, ev);
        assert State() == r.st;
      }
    }

    method CancelEvent(fd: nat, ev: Event, granted: bool) returns (ok: bool)
      requires Valid()
      modifies this`kernel, this`pending, this`fds, contexts, sched`tasks
      ensures Valid()
      ensures var r := F.CancelEvent(old(State()), fd, ev, granted);
              r == F.Done(State(), r.works, ok) && sched.tasks == old(sched.tasks) + R.TasksOf(r.works)
    {
      F.CancelEventCoherent(State(), fd, ev, granted);
      ghost var r := F.CancelEvent(State(), fd, ev, granted);
      if |contexts| <= fd || ev !in contexts[fd].events {
        return false;
      }
      var left := contexts[fd].events - {ev};
      ok := EpollCtl(if left != {} then F.CtlMod else F.CtlDel, fd, left, granted);
      if ok {
        FireOne(fd, ev);
        assert State() == r.st;
      }
    }

    method CancelAll(fd: nat) returns (ok: bool)
      requires Valid()
      modifies this`kernel, this`pending, this`fds, contexts, sched`tasks
      ensures Valid()
      ensures var r := F.CancelAll(old(State()), fd);
              r.Done? && r.st == State() && r.ok == ok && sched.tasks == old(sched.tasks) + R.TasksOf(r.works)
    {
      F.CancelAllCoherent(State(), fd);
      ghost var r := F.CancelAll(State(), fd);
      if |contexts| <= fd || contexts[fd].events == {} {
        return false;
      }
      var which := contexts[fd].events;
      ok := EpollCtl(F.CtlDel, fd, {}, true);
      if ok {
        FireMany(fd, which);
        assert State() == r.st;
      }
    }

    // close(fd), as the hook does it; epoll forgets the fd with the file.
    method Close(fd: nat, known: bool)
      requires Valid()
      modifies this`kernel, this`pending, this`fds, contexts, sched`tasks
      ensures Represents()
      ensures var r := F.Close(old(State()), fd, known);
              r.Done? && r.st == State() && sched.tasks == old(sched.tasks) + R.TasksOf(r.works)
      ensures Valid() <==> known || fd >= |contexts| || old(fds)[fd].events == {}
    {
      F.CloseCoherentExactly(State(), fd, known);
      if known {
        var _ := CancelAll(fd);
      }
      kernel := kernel - {fd};
    }

    method HandleHits(fd: nat, hit: set<Event>, granted: bool)
      requires Represents() && fd < |contexts| && hit <= fds[fd].events && F.SlotsMatch(fds[fd])
      modifies this`kernel, this`pending, this`fds, contexts[fd], sched`tasks
      ensures Represents()
      ensures var r := F.Handled(old(State()), fd, hit, granted);
              State() == r.st && sched.tasks == old(sched.tasks) + R.TasksOf(r.works)
    {
      if contexts[fd].events * hit == {} {
        assert contexts[fd].events * hit == hit;
        return;
      }
      var left := contexts[fd].events - hit;
      var ok := EpollCtl(if left != {} then F.CtlMod else F.CtlDel, fd, left, granted);
      if ok {
        FireMany(fd, hit);
      }
    }

    // One ready event in idle()'s loop.
    method HandleReport(fd: nat, report: set<F.KernelEvent>, granted: bool)
      requires Valid() && F.Reportable(State(), fd, report)
      modifies this`kernel, this`pending, this`fds, contexts, sched`tasks
      ensures Valid()
      ensures var r := F.HandleReport(old(State()), fd, report, granted);
              r.Done? && r.st == State() && sched.tasks == old(sched.tasks) + R.TasksOf(r.works)
    {
      F.HandleReportCoherent(State(), fd, report, granted);
      F.ReportIsHandled(State(), fd, report, granted);
      var hit := F.RealEvents(contexts[fd].events, report);
      HandleHits(fd, hit, granted);
    }
  }

  // The whole loop over one batch of ready events.
  function HandleBatch(io: F.IoState, batch: seq<R.Report>, grants: seq<bool>): (F.IoState, seq<Work>)
    requires |batch| == |grants|
    decreases |batch|
  {
    if batch == [] then (io, [])
    else match F.HandleReport(io, batch[0].fd, batch[0].events, grants[0])
      case Fails(_) => (io, [])
      case Done(st, works, _) =>
        var rest := HandleBatch(st, batch[1..], grants[1..]);
        (rest.0, works + rest.1)
  }

  lemma BatchStaysPossible(io: F.IoState, batch: seq<R.Report>, granted: bool)
    requires F.Coherent(io) && R.PossibleBatch(io, batch) && batch != []
    ensures var r := F.HandleReport(io, batch[0].fd, batch[0].events, granted);
            r.Done? && F.Coherent(r.st) && R.PossibleBatch(r.st, batch[1..])
  {
    F.HandleReportCoherent(io, batch[0].fd, batch[0].events, granted);
    var r := F.HandleReport(io, batch[0].fd, batch[0].events, granted);
    forall i | 0 <= i < |batch[1..]| ensures F.Reportable(r.st, batch[1..][i].fd, batch[1..][i].events) {
      assert batch[1..][i] == batch[i + 1] && batch[i + 1].fd != batch[0].fd;
      assert F.Reportable(io, batch[i + 1].fd, batch[i + 1].events);
    }
  }

  lemma TasksOfConcat(a: seq<Work>, b: seq<Work>)
    ensures R.TasksOf(a + b) == R.TasksOf(a) + R.TasksOf(b)
  {
  }

  lemma BatchStep(io: F.IoState, batch: seq<R.Report>, grants: seq<bool>, i: nat)
    requires |batch| == |grants| && i < |batch|
    requires F.Coherent(io) && R.PossibleBatch(io, batch[i..])
    ensures var r := F.HandleReport(io, batch[i].fd, batch[i].events, grants[i]);
            && F.Reportable(io, batch[i].fd, batch[i].events)
            && r.Done? && F.Coherent(r.st) && R.PossibleBatch(r.st, batch[i + 1..])
            && var rest := HandleBatch(r.st, batch[i + 1..], grants[i + 1..]);
               HandleBatch(io, batch[i..], grants[i..]).0 == rest.0
               && R.TasksOf(HandleBatch(io, batch[i..], grants[i..]).1) == R.TasksOf(r.works) + R.TasksOf(rest.1)
  {
    assert batch[i..][0] == batch[i];
    assert F.Reportable(io, batch[i..][0].fd, batch[i..][0].events);
    BatchStaysPossible(io, batch[i..], grants[i]);
    assert batch[i..][1..] == batch[i + 1..] && grants[i..][1..] == grants[i + 1..];
    var r := F.HandleReport(io, batch[i].fd, batch[i].events, grants[i]);
    TasksOfConcat(r.works, HandleBatch(r.st, batch[i + 1..], grants[i + 1..]).1);
  }

  lemma Regroup<X>(a: seq<X>, b: seq<X>, c: seq<X>)
    ensures a + b + c == a + (b + c)
  {
  }

  // idle()'s loop over the ready events of one epoll_wait.
  method ProcessBatch(iom: IOManager, batch: seq<R.Report>, grants: seq<bool>)
    requires iom.Valid() && |grants| == |batch| && R.PossibleBatch(iom.State(), batch)
    modifies iom`kernel, iom`pending, iom`fds, iom.contexts, iom.sched`tasks
    ensures iom.Valid()
    ensures iom.State() == HandleBatch(old(iom.State()), batch, grants).0
    ensures iom.sched.tasks == old(iom.sched.tasks) + R.TasksOf(HandleBatch(old(iom.State()), batch, grants).1)
  {
    var i := 0;
    ghost var goal := HandleBatch(iom.State(), batch, grants);
    assert batch[0..] == batch && grants[0..] == grants;
    while i < |batch|
      invariant i <= |batch| && iom.Valid() && R.PossibleBatch(iom.State(), batch[i..])
      invariant HandleBatch(iom.State(), batch[i..], grants[i..]).0 == goal.0
      invariant iom.sched.tasks + R.TasksOf(HandleBatch(iom.State(), batch[i..], grants[i..]).1)
             == old(iom.sched.tasks) + R.TasksOf(goal.1)
    {
      BatchStep(iom.State(), batch, grants, i);
      ghost var r := F.HandleReport(iom.State(), batch[i].fd, batch[i].events, grants[i]);
      Regroup(iom.sched.tasks, R.TasksOf(r.works), R.TasksOf(HandleBatch(r.st, batch[i + 1..], grants[i + 1..]).1));
      iom.HandleReport(batch[i].fd, batch[i].events, grants[i]);
      i := i + 1;
    }
    assert R.TasksOf([]) == [] && iom.sched.tasks + [] == iom.sched.tasks;
  }

  // Collect the expired timers and queue their callbacks.
  method ScheduleExpired(sched: Scheduler, timers: TO.TimerManager, now: Word, address: nat)
    requires timers.Valid()
    modifies sched`tasks, timers`timers, timers`entries, timers`previous, timers.timers
    ensures timers.Valid()
    ensures timers.View() == T.ListExpired(old(timers.View()), now, address).0
    ensures sched.tasks == old(sched.tasks) + BatchTasks(T.ListExpired(old(timers.View()), now, address).1)
  {
    var cbs := timers.ListExpiredCb(now, address);
    if |cbs| > 0 {
      var _ := sched.ScheduleBatch(cbs);
    }
  }

  // idle() from the return of epoll_wait to its yield: expired timers first, then ready events.
  method IdleRound(iom: IOManager, timers: TO.TimerManager, now: Word, address: nat,
                   batch: seq<R.Report>, grants: seq<bool>)
    requires iom.Valid() && timers.Valid() && |grants| == |batch| && R.PossibleBatch(iom.State(), batch)
    modifies iom`kernel, iom`pending, iom`fds, iom.contexts, iom.sched`tasks
    modifies timers`timers, timers`entries, timers`previous, timers.timers
    ensures iom.Valid() && timers.Valid()
    ensures timers.View() == T.ListExpired(old(timers.View()), now, address).0
    ensures iom.State() == HandleBatch(old(iom.State()), batch, grants).0
    ensures iom.sched.tasks == old(iom.sched.tasks)
                               + BatchTasks(T.ListExpired(old(timers.View()), now, address).1)
                               + R.TasksOf(HandleBatch(old(iom.State()), batch, grants).1)
  {
    ScheduleExpired(iom.sched, timers, now, address);
    ProcessBatch(iom, batch, grants);
  }

  // IOManager::stopping(timeout), its three reads one after the other: the scheduler may stop
  // exactly when no timer is armed, no event registered, no task queued and none active, after
  // stop(). The one case in which an armed timer passes for none is a deadline at the largest word
  // seen at clock reading zero.
  method StopCheck(iom: IOManager, timers: TO.TimerManager, now: Word) returns (stop: bool, wait: Word)
    requires iom.Valid() && timers.Valid()
    modifies timers`tickled
    ensures timers.Valid() && timers.View() == old(timers.View()).(tickled := false)
    ensures wait == T.NextTimer(old(timers.View()), now).1
    ensures stop <==>
              && iom.sched.stopping && iom.sched.tasks == [] && iom.sched.activeCount == 0
              && (forall i :: 0 <= i < |iom.contexts| ==> iom.contexts[i].events == {})
              && (timers.timers == [] || (now == 0 && timers.timers[0].next == FOREVER))
  {
    wait := timers.GetNextTimer(now);
    F.NoBitsNoEvents(iom.fds);
    assert forall i :: 0 <= i < |iom.contexts| ==> iom.contexts[i].events == iom.fds[i].events;
    stop := wait == FOREVER && iom.pending == 0;
    if stop {
      stop := iom.sched.Stopping();
    }
  }
}
