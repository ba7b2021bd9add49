// What the history of a careful run says about the timers that do_io and sleep have armed: each is
// recorded with the clock reading of its arming, and each expiry and callback goes back to one.
module RuntimeHistory {
  import opened Common
  import opened Runtime
  import opened RuntimeInvariant
  import opened RuntimeSteps
  import opened FiberSteps
  import opened RuntimeSafety
  import opened RuntimeCalls
  import opened WakeTokens
  import T = Timers
  import F = FdEvents
  import FT = FdTable
  import S = Scheduling

  // ---------------------------------------------------------------- the invariant

  // The timers of do_io and sleep are those recorded.
  ghost predicate TimersRecorded(timers: T.TimerState, armings: map<nat, Arming>) {
    && (forall id :: id in armings ==> id < timers.nextId)
    && forall e :: e in timers.entries && !IsUser(e.cb) ==>
         e.id in armings && armings[e.id] == Arming(e.cb.value, e.ms, e.armedAt)
  }

  predicate OfCall(a: Arming, calls: seq<Call>)
    requires a.cb.IoTimeout?
  {
    && a.cb.info < |calls|
    && calls[a.cb.info].fd == a.cb.fd && calls[a.cb.info].ev == a.cb.event && calls[a.cb.info].to == Some(a.ms)
  }

  // A do_io timeout is for the fd, the event and the time of its call.
  ghost predicate ArmingsOk(armings: map<nat, Arming>, calls: seq<Call>) {
    forall id :: id in armings && armings[id].cb.IoTimeout? ==> OfCall(armings[id], calls)
  }

  // The expiry came when the whole time had passed, unless the clock was taken to have rolled over or the
  // deadline is past 2^64.
  predicate Honest(x: Expiry, a: Arming) {
    x.rollover || a.at + a.ms >= 0x1_0000_0000_0000_0000 || x.at >= a.at + a.ms
  }

  ghost predicate ExpiriesRecorded(expiries: seq<Expiry>, armings: map<nat, Arming>) {
    forall x :: x in expiries && !x.cb.UserCb? ==>
      x.timer in armings && armings[x.timer].cb == x.cb && Honest(x, armings[x.timer])
  }

  ghost predicate Rang(expiries: seq<Expiry>, cb: Callback) {
    exists x :: x in expiries && x.cb == cb
  }

  // A fiber about to run a callback of do_io or sleep.
  predicate RunsOwn(pc: Pc) {
    pc.Fresh? && pc.body.CallbackBody? && !pc.body.cb.UserCb?
  }

  // A callback of do_io or sleep is queued, or begins to run, only after the expiry of a timer with it.
  ghost predicate CallbacksRecorded(tasks: seq<Task>, fibers: map<nat, Fiber>, expiries: seq<Expiry>) {
    && (forall t :: t in tasks && t.work.CbWork? && !t.work.cb.UserCb? ==> Rang(expiries, t.work.cb))
    && forall f :: f in fibers && RunsOwn(fibers[f].pc) ==> Rang(expiries, fibers[f].pc.body.cb)
  }

  ghost predicate RangFor(expiries: seq<Expiry>, timer: nat, f: nat) {
    exists x :: x in expiries && x.timer == timer && x.cb == WakeFiber(f)
  }

  ghost predicate Set(timers: T.TimerState, timer: nat, f: nat) {
    exists e :: e in timers.entries && e.id == timer && e.cb == Some(WakeFiber(f))
  }

  // The alarm of a sleeping fiber is set or has rung, and has rung if the fiber runs again.
  ghost predicate SleeperOk(s: Sys, f: nat)
    requires f in s.fibers && s.fibers[f].pc.Sleeping?
  {
    var t := s.fibers[f].pc.alarm;
    && t in s.armings && s.armings[t].cb == WakeFiber(f)
    && (RangFor(s.expiries, t, f) || (s.fibers[f].state != RUNNING && Set(s.timers, t, f)))
  }

  ghost predicate SleepersOk(s: Sys) {
    forall f :: f in s.fibers && s.fibers[f].pc.Sleeping? ==> SleeperOk(s, f)
  }

  // A fiber waiting in do_io is registered nowhere but for the event of its call.
  ghost predicate SlotsOk(fds: seq<F.FdContext>, fibers: map<nat, Fiber>) {
    forall i, ev: Event, g :: 0 <= i < |fds| && fds[i].Get(ev).fiber == Some(g)
                              && g in fibers && fibers[g].pc.Waiting? ==>
      fibers[g].pc.call.fd == i && fibers[g].pc.call.ev == ev
  }

  ghost predicate Recorded(s: Sys) {
    && TimersRecorded(s.timers, s.armings)
    && ArmingsOk(s.armings, s.calls)
    && ExpiriesRecorded(s.expiries, s.armings)
    && CallbacksRecorded(s.tasks, s.fibers, s.expiries)
    && SleepersOk(s)
    && SlotsOk(s.io.fds, s.fibers)
  }

  // ---------------------------------------------------------------- steps that record nothing

  // A fiber with this pc is of no concern here.
  predicate Neutral(pc: Pc) {
    !pc.Waiting? && !pc.Sleeping? && !RunsOwn(pc)
  }

  predicate NeutralTask(t: Task) {
    t.work.CbWork? ==> t.work.cb.UserCb?
  }

  ghost predicate FibersQuiet(fibers: map<nat, Fiber>, fibers': map<nat, Fiber>) {
    forall f :: f in fibers' ==> (f in fibers && fibers'[f] == fibers[f]) || Neutral(fibers'[f].pc)
  }

  ghost predicate SlotsFrom(fds: seq<F.FdContext>, fds': seq<F.FdContext>, fibers': map<nat, Fiber>) {
    forall i, ev: Event, g :: 0 <= i < |fds'| && fds'[i].Get(ev).fiber == Some(g) ==>
      || (i < |fds| && fds[i].Get(ev).fiber == Some(g))
      || (g in fibers' ==> !fibers'[g].pc.Waiting?)
  }

  // No timer of do_io or sleep comes, and no alarm goes.
  ghost predicate TimersQuiet(ts: T.TimerState, ts': T.TimerState) {
    && ts.nextId <= ts'.nextId
    && (forall e :: e in ts'.entries && !IsUser(e.cb) ==> e in ts.entries)
    && forall e :: e in ts.entries && WakeTimer(e) ==> e in ts'.entries
  }

  ghost predicate TasksQuiet(tasks: seq<Task>, tasks': seq<Task>) {
    forall t :: t in tasks' ==> t in tasks || NeutralTask(t)
  }

  predicate MoreCalls(calls: seq<Call>, calls': seq<Call>) {
    calls <= calls'
  }

  ghost predicate Quiet(s: Sys, s': Sys) {
    && s'.armings == s.armings && s'.expiries == s.expiries && MoreCalls(s.calls, s'.calls)
    && FibersQuiet(s.fibers, s'.fibers) && SlotsFrom(s.io.fds, s'.io.fds, s'.fibers)
    && TimersQuiet(s.timers, s'.timers) && TasksQuiet(s.tasks, s'.tasks)
  }

  lemma QuietSleepers(s: Sys, s': Sys)
    requires SleepersOk(s) && Quiet(s, s')
    ensures SleepersOk(s')
  {
    forall f | f in s'.fibers && s'.fibers[f].pc.Sleeping? ensures SleeperOk(s', f) {
      assert f in s.fibers && s'.fibers[f] == s.fibers[f];
      assert SleeperOk(s, f);
      var t := s.fibers[f].pc.alarm;
      if !RangFor(s.expiries, t, f) {
        var e :| e in s.timers.entries && e.id == t && e.cb == Some(WakeFiber(f));
        assert WakeTimer(e);
      }
    }
  }

  lemma QuietSlots(s: Sys, s': Sys)
    requires SlotsOk(s.io.fds, s.fibers) && Quiet(s, s')
    ensures SlotsOk(s'.io.fds, s'.fibers)
  {
    forall i, ev: Event, g | 0 <= i < |s'.io.fds| && s'.io.fds[i].Get(ev).fiber == Some(g)
                             && g in s'.fibers && s'.fibers[g].pc.Waiting?
      ensures s'.fibers[g].pc.call.fd == i && s'.fibers[g].pc.call.ev == ev
    {
      assert g in s.fibers && s'.fibers[g] == s.fibers[g];
    }
  }

  lemma QuietKeepsRecorded(s: Sys, s': Sys)
    requires Recorded(s) && Quiet(s, s')
    ensures Recorded(s')
  {
    QuietSleepers(s, s');
    QuietSlots(s, s');
  }

  // ---------------------------------------------------------------- the fd table and the queue

  // The fiber g has just been registered by one of the operations.
  ghost predicate RegisteredBy(ops: seq<FT.Op>, fd: nat, ev: Event, g: nat) {
    exists op :: op in ops && op.OpAdd? && op.fd == fd && op.ev == ev && op.work == FiberWork(g)
  }

  predicate SafeOp(op: FT.Op) {
    op.OpAdd? && op.work.CbWork? ==> op.work.cb.UserCb?
  }

  ghost predicate KeepsSlots(io: F.IoState, io': F.IoState, ops: seq<FT.Op>) {
    forall i, ev: Event, g :: 0 <= i < |io'.fds| && io'.fds[i].Get(ev).fiber == Some(g) ==>
      (i < |io.fds| && io.fds[i].Get(ev).fiber == Some(g)) || RegisteredBy(ops, i, ev, g)
  }

  lemma AddSlots(io: F.IoState, op: FT.Op)
    requires IoOk(io) && op.OpAdd? && SafeOp(op) && FT.Apply(io, op).Done?
    ensures var r := FT.Apply(io, op); IoOk(r.st) && r.works == [] && KeepsSlots(io, r.st, [op])
  {
    AddEventIoOk(io, op.fd, op.ev, op.work, op.granted);
    F.AddEventCoherent(io, op.fd, op.ev, op.work, op.granted);
    F.GrownCoherent(io, op.fd);
    var r := FT.Apply(io, op);
    var fds := F.Grown(io.fds, op.fd);
    forall i, ev: Event, g | 0 <= i < |r.st.fds| && r.st.fds[i].Get(ev).fiber == Some(g)
      ensures (i < |io.fds| && io.fds[i].Get(ev).fiber == Some(g)) || RegisteredBy([op], i, ev, g)
    {
      if op.granted && i == op.fd && ev == op.ev {
        assert op in [op];
      } else {
        assert r.st.fds[i].Get(ev) == fds[i].Get(ev);
      }
    }
  }

  lemma RemovedSlots(io: F.IoState, io': F.IoState, fd: nat, gone: set<Event>, ops: seq<FT.Op>)
    requires F.Removed(io, io', fd, gone)
    ensures KeepsSlots(io, io', ops)
  {
    forall i, ev: Event, g | 0 <= i < |io'.fds| && io'.fds[i].Get(ev).fiber == Some(g)
      ensures i < |io.fds| && io.fds[i].Get(ev).fiber == Some(g)
    {
      if i == fd {
        assert io'.fds[fd].Get(ev) == if ev in gone then F.EMPTY else io.fds[fd].Get(ev);
      }
    }
  }

  lemma OpSlots(io: F.IoState, op: FT.Op)
    requires IoOk(io) && SafeOp(op) && FT.Apply(io, op).Done?
    requires op.OpReport? ==> F.Reportable(io, op.fd, op.report)
    ensures var r := FT.Apply(io, op); IoOk(r.st) && NoTimeoutWork(r.works) && KeepsSlots(io, r.st, [op])
  {
    var r := FT.Apply(io, op);
    match op
    case OpAdd(_, _, _, _) => AddSlots(io, op);
    case OpDel(fd, ev, granted) =>
      DelEventIoOk(io, fd, ev, granted);
      F.DelEventCoherent(io, fd, ev, granted);
      if r.ok { RemovedSlots(io, r.st, fd, {ev}, [op]); }
    case OpCancel(fd, ev, granted) =>
      CancelEventIoOk(io, fd, ev, granted);
      F.CancelEventCoherent(io, fd, ev, granted);
      if r.ok { RemovedSlots(io, r.st, fd, {ev}, [op]); }
    case OpCancelAll(fd) =>
      CancelAllIoOk(io, fd);
      F.CancelAllCoherent(io, fd);
      if r.ok { RemovedSlots(io, r.st, fd, io.fds[fd].events, [op]); }
    case OpReport(fd, report, granted) =>
      HandleReportIoOk(io, fd, report, granted);
      F.HandleReportCoherent(io, fd, report, granted);
      if r.ok { RemovedSlots(io, r.st, fd, F.RealEvents(io.fds[fd].events, report), [op]); }
  }

  lemma SlotsCompose(io: F.IoState, io1: F.IoState, io2: F.IoState, op: FT.Op, ops: seq<FT.Op>)
    requires KeepsSlots(io, io1, [op]) && KeepsSlots(io1, io2, ops)
    ensures KeepsSlots(io, io2, [op] + ops)
  {
    forall i, ev: Event, g | 0 <= i < |io2.fds| && io2.fds[i].Get(ev).fiber == Some(g)
      ensures (i < |io.fds| && io.fds[i].Get(ev).fiber == Some(g)) || RegisteredBy([op] + ops, i, ev, g)
    {
      if RegisteredBy(ops, i, ev, g) {
        var o :| o in ops && o.OpAdd? && o.fd == i && o.ev == ev && o.work == FiberWork(g);
        assert o in [op] + ops;
      } else if RegisteredBy([op], i, ev, g) {
        assert op in [op] + ops;
      }
    }
  }

  lemma {:induction false} OpsSlots(io: F.IoState, ops: seq<FT.Op>)
    requires IoOk(io) && FT.ApplyAll(io, ops).Some? && (forall op :: op in ops ==> SafeOp(op) && !op.OpReport?)
    ensures var (io', works) := FT.ApplyAll(io, ops).value;
            IoOk(io') && NoTimeoutWork(works) && KeepsSlots(io, io', ops)
    decreases |ops|
  {
    if ops != [] {
      assert ops[0] in ops && ops == [ops[0]] + ops[1..];
      OpSlots(io, ops[0]);
      var io1 := FT.Apply(io, ops[0]).st;
      OpsSlots(io1, ops[1..]);
      SlotsCompose(io, io1, FT.ApplyAll(io1, ops[1..]).value.0, ops[0], ops[1..]);
    }
  }

  lemma OpsSafe(s: Sys, a: Action)
    ensures forall op :: op in FdOps(s, a) ==> SafeOp(op)
  {
    if a.Park? && s.worker.Executing? {
      SelfOpsSafe(s.worker.fiber, a.regs);
    }
  }

  lemma {:induction false} SelfOpsSafe(f: nat, regs: seq<F.Registration>)
    ensures forall op :: op in SelfOps(f, regs) ==> SafeOp(op) && op.OpAdd? && op.work == FiberWork(f)
  {
    if regs != [] {
      SelfOpsSafe(f, regs[1..]);
    }
  }

  lemma ReportSlots(s: Sys, granted: bool)
    requires Inv(s) && s.worker.Handling? && s.worker.batch != []
    ensures var r := FT.ApplyAll(s.io, FdOps(s, HandleNext(granted)));
            r.Some? && NoTimeoutWork(r.value.1) && KeepsSlots(s.io, r.value.0, FdOps(s, HandleNext(granted)))
  {
    var first := s.worker.batch[0];
    var op := FT.OpReport(first.fd, first.events, granted);
    HandleDone(s, granted);
    OneOp(s.io, op);
    OpSlots(s.io, op);
  }

  // What a step does to slots and queue.
  lemma StepSlots(s: Sys, a: Action)
    requires Inv(s) && Careful(s, a) && !a.Pick? && Apply(s, a).Next?
    ensures KeepsSlots(s.io, Apply(s, a).s.io, FdOps(s, a))
    ensures forall t :: t in Apply(s, a).s.tasks ==> t in s.tasks || t in OwnTasks(s, a) || NeutralTask(t)
  {
    StepFds(s, a);
    if a.HandleNext? {
      ReportSlots(s, a.granted);
    } else {
      NoReports(s, a);
      OpsSafe(s, a);
      OpsSlots(s.io, FdOps(s, a));
    }
    var works := FT.ApplyAll(s.io, FdOps(s, a)).value.1;
    forall t | t in Unpinned(works) ensures NeutralTask(t) {
      var i :| 0 <= i < |Unpinned(works)| && Unpinned(works)[i] == t;
      assert works[i] in works;
    }
  }

  lemma OwnNeutral(s: Sys, a: Action)
    requires !a.Expire?
    ensures forall t :: t in OwnTasks(s, a) ==> NeutralTask(t)
  {
  }

  lemma StepTasksQuiet(s: Sys, a: Action)
    requires Inv(s) && Careful(s, a) && !a.Pick? && !a.Expire? && Apply(s, a).Next?
    ensures TasksQuiet(s.tasks, Apply(s, a).s.tasks)
  {
    StepSlots(s, a);
    OwnNeutral(s, a);
  }

  // Only do_io and a fiber that parks register fibers.
  lemma NoneRegistered(s: Sys, a: Action)
    requires !a.IoWait? && !a.Park?
    ensures forall op :: op in FdOps(s, a) && op.OpAdd? ==> op.work.CbWork?
  {
  }

  lemma NoFiberSlots(io: F.IoState, io': F.IoState, ops: seq<FT.Op>, fibers': map<nat, Fiber>)
    requires KeepsSlots(io, io', ops) && forall op :: op in ops && op.OpAdd? ==> op.work.CbWork?
    ensures SlotsFrom(io.fds, io'.fds, fibers')
  {
    assert forall fd, ev, g :: !RegisteredBy(ops, fd, ev, g);
  }

  lemma StepSlotsQuiet(s: Sys, a: Action)
    requires Inv(s) && Careful(s, a) && !a.Pick? && !a.IoWait? && !a.Park? && Apply(s, a).Next?
    ensures SlotsFrom(s.io.fds, Apply(s, a).s.io.fds, Apply(s, a).s.fibers)
  {
    StepSlots(s, a);
    NoneRegistered(s, a);
    NoFiberSlots(s.io, Apply(s, a).s.io, FdOps(s, a), Apply(s, a).s.fibers);
  }

  // ---------------------------------------------------------------- other threads

  lemma AddQuiet(ts: T.TimerState, ms: Word, cb: Option<Callback>, recurring: bool, now: Word)
    requires T.Valid(ts) && IsUser(cb)
    ensures TimersQuiet(ts, T.AddTimer(ts, ms, cb, recurring, now).0)
  {
    T.AddTimerKeepsValid(ts, ms, cb, recurring, now);
  }

  lemma CancelQuiet(ts: T.TimerState, id: nat)
    requires T.Valid(ts) && forall e :: e in ts.entries && e.id == id ==> !WakeTimer(e)
    ensures TimersQuiet(ts, T.Cancel(ts, id).0)
  {
    T.CancelRemoves(ts, id);
  }

  lemma UserTimerIsNoAlarm(ts: T.TimerState, id: nat)
    requires T.Valid(ts) && UserTimer(ts, id)
    ensures forall e :: e in ts.entries && e.id == id ==> IsUser(e.cb)
  {
    T.OnlyOneById(ts.entries, id);
  }

  lemma RefreshQuiet(ts: T.TimerState, id: nat, now: Word)
    requires T.Valid(ts) && UserTimer(ts, id)
    ensures TimersQuiet(ts, T.Refresh(ts, id, now).0)
  {
    UserTimerIsNoAlarm(ts, id);
    T.RefreshKeepsValid(ts, id, now);
    if T.Active(ts, id) {
      assert ts.entries[T.IndexOf(ts.entries, id)] in ts.entries;
    }
  }

  lemma ResetQuiet(ts: T.TimerState, id: nat, oldMs: Word, ms: Word, fromNow: bool, now: Word)
    requires T.Valid(ts) && UserTimer(ts, id)
    ensures TimersQuiet(ts, T.Reset(ts, id, oldMs, ms, fromNow, now).0)
  {
    UserTimerIsNoAlarm(ts, id);
    T.ResetOutcome(ts, id, oldMs, ms, fromNow, now);
    if T.Active(ts, id) && !(ms == oldMs && !fromNow) {
      assert ts.entries[T.IndexOf(ts.entries, id)] in ts.entries;
      T.ResetKeepsValid(ts, id, oldMs, ms, fromNow, now);
      T.ResetShape(ts, id, oldMs, ms, fromNow, now);
    }
  }

  lemma OthersTimersQuiet(s: Sys, a: Action)
    requires Inv(s) && AnyThread(a) && ApplyAny(s, a).Next?
    ensures TimersQuiet(s.timers, ApplyAny(s, a).s.timers)
  {
    match a
    case Arm(ms, tag, recurring) =>
      AddQuiet(s.timers, ms, if tag.None? then None else Some(UserCb(tag.value)), recurring, s.now);
    case CancelTimer(id) =>
      UserTimerIsNoAlarm(s.timers, id);
      CancelQuiet(s.timers, id);
    case RefreshTimer(id) => RefreshQuiet(s.timers, id, s.now);
    case ResetTimer(id, oldMs, ms, fromNow) => ResetQuiet(s.timers, id, oldMs, ms, fromNow, s.now);
    case _ =>
  }

  lemma OthersHistory(s: Sys, a: Action)
    requires AnyThread(a) && ApplyAny(s, a).Next?
    ensures var s' := ApplyAny(s, a).s;
            s'.armings == s.armings && s'.expiries == s.expiries && s'.calls == s.calls
            && FibersQuiet(s.fibers, s'.fibers)
  {
  }

  lemma OthersQuiet(s: Sys, a: Action)
    requires Inv(s) && AnyThread(a) && Careful(s, a) && Apply(s, a).Next?
    ensures Quiet(s, Apply(s, a).s)
  {
    OthersTimersQuiet(s, a);
    OthersHistory(s, a);
    StepTasksQuiet(s, a);
    StepSlotsQuiet(s, a);
  }

  // ---------------------------------------------------------------- the worker

  lemma WorkerHistory(s: Sys, a: Action)
    requires OfWorker(a) && !a.Pick? && !a.Expire? && ApplyWorker(s, a).Next?
    ensures var s' := ApplyWorker(s, a).s;
            s'.armings == s.armings && s'.expiries == s.expiries && s'.calls == s.calls && s'.fibers == s.fibers
            && s'.timers.entries == s.timers.entries && s'.timers.nextId == s.timers.nextId
  {
  }

  lemma WorkerQuiet(s: Sys, a: Action)
    requires Inv(s) && OfWorker(a) && !a.Pick? && !a.Expire? && Apply(s, a).Next?
    ensures Quiet(s, Apply(s, a).s)
  {
    WorkerStep(s, a);
    WorkerHistory(s, a);
    StepTasksQuiet(s, a);
    StepSlotsQuiet(s, a);
  }

  lemma AlarmOfQueuedRang(s: Sys, i: nat, f: nat)
    requires Inv(s) && SleepersOk(s) && i < |s.tasks| && s.tasks[i].work == FiberWork(f)
    requires f in s.fibers && s.fibers[f].pc.Sleeping?
    ensures RangFor(s.expiries, s.fibers[f].pc.alarm, f)
  {
    assert SleeperOk(s, f);
    assert WakeSources(s, f) == if IsReady(s.fibers, f) then 1 else 0;
    TaskHolds(s.tasks, s.tasks[i], f);
    if !RangFor(s.expiries, s.fibers[f].pc.alarm, f) {
      var e :| e in s.timers.entries && e.id == s.fibers[f].pc.alarm && e.cb == Some(WakeFiber(f));
      TimerHolds(s.timers.entries, e, f);
    }
  }

  lemma PickFiberRecorded(s: Sys, i: nat, f: nat, s': Sys)
    requires Inv(s) && Recorded(s) && i < |s.tasks| && s.tasks[i].work == FiberWork(f) && f in s.fibers
    requires s' == s.(tasks := S.Without(s.tasks, i), fibers := s.fibers[f := s.fibers[f].(state := RUNNING)],
                      active := s'.active, worker := s'.worker)
    ensures Recorded(s')
  {
    WithoutMembers(s.tasks, i);
    forall g | g in s'.fibers && s'.fibers[g].pc.Sleeping? ensures SleeperOk(s', g) {
      assert SleeperOk(s, g);
      if g == f {
        AlarmOfQueuedRang(s, i, f);
      }
    }
  }

  lemma PickCallbackRecorded(s: Sys, i: nat, cb: Callback, s': Sys)
    requires Inv(s) && Recorded(s) && i < |s.tasks| && s.tasks[i].work == CbWork(cb)
    requires s' == s.(tasks := S.Without(s.tasks, i),
                      fibers := s.fibers[s.nextFiber := Fiber(RUNNING, Fresh(CallbackBody(cb)))],
                      nextFiber := s'.nextFiber, active := s'.active, worker := s'.worker)
    ensures Recorded(s')
  {
    WithoutMembers(s.tasks, i);
    assert s.tasks[i] in s.tasks;
    forall g | g in s'.fibers && s'.fibers[g].pc.Sleeping? ensures SleeperOk(s', g) {
      assert SleeperOk(s, g);
    }
  }

  lemma PickKeepsRecorded(s: Sys)
    requires Inv(s) && Recorded(s) && s.worker.Picking?
    ensures DoPick(s).Next? ==> Recorded(DoPick(s).s)
  {
    var i := S.Pick(s.tasks, ME);
    if DoPick(s).Next? {
      var s' := DoPick(s).s;
      if i < |s.tasks| {
        match s.tasks[i].work
        case FiberWork(f) => PickFiberRecorded(s, i, f, s');
        case CbWork(cb) => PickCallbackRecorded(s, i, cb, s');
      } else {
        QuietKeepsRecorded(s, s');
      }
    }
  }

  // An expiry as the step that takes the timers records it.
  lemma NewExpiryHonest(s: Sys, x: Expiry)
    requires Inv(s) && TimersRecorded(s.timers, s.armings) && !x.cb.UserCb?
    requires x in ExpiriesOf(T.Taken(s.timers, s.now), s.now, T.Rollover(s.timers.previous, s.now))
    ensures x.timer in s.armings && s.armings[x.timer].cb == x.cb && Honest(x, s.armings[x.timer])
  {
    var rollover := T.Rollover(s.timers.previous, s.now);
    ExpiriesOfMembers(T.Taken(s.timers, s.now), s.now, rollover);
    var e :| e in T.Taken(s.timers, s.now) && Records(x, e, s.now, rollover);
    T.TakenMembers(s.timers, s.now);
    assert e in s.timers.entries && e.next == Add(e.armedAt, e.ms);
  }

  lemma NewExpiryRecorded(taken: seq<T.Entry>, e: T.Entry, now: Word, rollover: bool)
    requires e in taken && e.cb.Some?
    ensures Expiry(e.id, e.cb.value, now, rollover) in ExpiriesOf(taken, now, rollover)
  {
    ExpiriesOfMembers(taken, now, rollover);
    assert Records(Expiry(e.id, e.cb.value, now, rollover), e, now, rollover);
  }

  lemma ExpireTimersRecorded(s: Sys, address: nat)
    requires Inv(s) && TimersRecorded(s.timers, s.armings)
    ensures TimersRecorded(T.ListExpired(s.timers, s.now, address).0, s.armings)
  {
    T.ListExpiredExactly(s.timers, s.now, address);
    T.ListExpiredMembers(s.timers, s.now, address);
    T.TakenMembers(s.timers, s.now);
    var ts := T.ListExpired(s.timers, s.now, address).0;
    assert forall e :: e in ts.entries && !IsUser(e.cb) ==> e in s.timers.entries;
  }

  lemma ExpireCallbacksRecorded(s: Sys, address: nat)
    requires Inv(s) && s.worker.Reported? && CallbacksRecorded(s.tasks, s.fibers, s.expiries)
    ensures var s' := DoExpire(s, address); CallbacksRecorded(s'.tasks, s'.fibers, s'.expiries)
  {
    var taken, rollover := T.Taken(s.timers, s.now), T.Rollover(s.timers.previous, s.now);
    var s' := DoExpire(s, address);
    ExpireShape(s, address);
    BatchFromTaken(taken);
    forall t | t in S.BatchTasks(T.Callbacks(taken)) ensures Rang(s'.expiries, t.work.cb) {
      var e :| e in taken && e.cb == Some(t.work.cb);
      NewExpiryRecorded(taken, e, s.now, rollover);
      assert Expiry(e.id, e.cb.value, s.now, rollover) in s'.expiries;
    }
  }

  lemma ExpireSleeper(s: Sys, address: nat, f: nat)
    requires Inv(s) && s.worker.Reported? && f in s.fibers && s.fibers[f].pc.Sleeping? && SleeperOk(s, f)
    ensures f in DoExpire(s, address).fibers && SleeperOk(DoExpire(s, address), f)
  {
    var s', t := DoExpire(s, address), s.fibers[f].pc.alarm;
    var taken, rollover := T.Taken(s.timers, s.now), T.Rollover(s.timers.previous, s.now);
    ExpireShape(s, address);
    if x :| x in s.expiries && x.timer == t && x.cb == WakeFiber(f) {
      assert x in s'.expiries;
    } else {
      var e :| e in s.timers.entries && e.id == t && e.cb == Some(WakeFiber(f));
      T.ListExpiredMembers(s.timers, s.now, address);
      T.TakenMembers(s.timers, s.now);
      if e in taken {
        NewExpiryRecorded(taken, e, s.now, rollover);
        assert Expiry(e.id, e.cb.value, s.now, rollover) in s'.expiries;
      }
    }
  }

  lemma ExpireKeepsRecorded(s: Sys, address: nat)
    requires Inv(s) && Recorded(s) && s.worker.Reported?
    ensures Recorded(DoExpire(s, address))
  {
    var s' := DoExpire(s, address);
    ExpireTimersRecorded(s, address);
    ExpireCallbacksRecorded(s, address);
    ExpireShape(s, address);
    forall x | x in s'.expiries && !x.cb.UserCb?
      ensures x.timer in s'.armings && s'.armings[x.timer].cb == x.cb && Honest(x, s'.armings[x.timer])
    {
      if x !in s.expiries {
        NewExpiryHonest(s, x);
      }
    }
    forall f | f in s'.fibers && s'.fibers[f].pc.Sleeping? ensures SleeperOk(s', f) {
      ExpireSleeper(s, address, f);
    }
  }

  // ---------------------------------------------------------------- the running fiber

  lemma StoredNothing(s: Sys, f: nat)
    requires Runs(s, f)
    ensures forall i, ev: Event :: 0 <= i < |s.io.fds| ==> s.io.fds[i].Get(ev).fiber != Some(f)
  {
    assert WakeSources(s, f) == if IsReady(s.fibers, f) then 1 else 0;
    forall i, ev: Event | 0 <= i < |s.io.fds| ensures s.io.fds[i].Get(ev).fiber != Some(f) {
      SlotHolds(s.io.fds, i, f);
      if s.io.fds[i].Get(ev).fiber == Some(f) {
        HeldSlot(s.io, i, ev, f);
      }
    }
  }

  // The steps after which the fiber waits for something.
  predicate OfWaiting(a: Action) {
    a.Sleep? || a.Park? || a.IoWait?
  }

  // What a step of the fiber f leaves of the history, and of f.
  ghost predicate HistoryKept(s: Sys, s': Sys, f: nat)
    requires f in s.fibers
  {
    && s'.armings == s.armings && s'.expiries == s.expiries && MoreCalls(s.calls, s'.calls)
    && f in s'.fibers && (s'.fibers[f] == s.fibers[f] || Neutral(s'.fibers[f].pc))
  }

  lemma BeginHistory(s: Sys, f: nat, granted: bool)
    requires f in s.fibers && s.fibers[f].pc.Fresh? && DoBegin(s, f, granted).Next?
    ensures HistoryKept(s, DoBegin(s, f, granted).s, f)
  {
  }

  lemma DoIoHistory(s: Sys, f: nat, a: Action)
    requires f in s.fibers && OfDoIo(a) && !a.IoWait? && ApplyFiber(s, f, a).Next?
    ensures HistoryKept(s, ApplyFiber(s, f, a).s, f)
  {
    DoIoShape(s, f, a);
  }

  lemma OtherHistory(s: Sys, f: nat, a: Action)
    requires f in s.fibers && (a.YieldNow? || a.WakeUp? || a.Finish?) && ApplyFiber(s, f, a).Next?
    ensures HistoryKept(s, ApplyFiber(s, f, a).s, f)
  {
  }

  lemma PlainFiberHistory(s: Sys, f: nat, a: Action)
    requires f in s.fibers && !OfWaiting(a) && !AnyThread(a) && !OfWorker(a) && ApplyFiber(s, f, a).Next?
    ensures HistoryKept(s, ApplyFiber(s, f, a).s, f)
  {
    if OnFds(a) {
      FdStepShape(s, f, a);
    } else if a.Begin? {
      BeginHistory(s, f, a.granted);
    } else if OfDoIo(a) {
      DoIoHistory(s, f, a);
    } else {
      OtherHistory(s, f, a);
    }
  }

  lemma PlainFiberTimers(s: Sys, f: nat, a: Action)
    requires Runs(s, f) && !OfWaiting(a) && !AnyThread(a) && !OfWorker(a) && ApplyFiber(s, f, a).Next?
    ensures TimersQuiet(s.timers, ApplyFiber(s, f, a).s.timers)
  {
    FiberTimers(s, f, a);
    if a.IoResume? && FiberTimerCalls(s, f, a) != [] {
      OneCall(s, FiberTimerCalls(s, f, a)[0].op);
      CancelQuiet(s.timers, s.fibers[f].pc.timer.value);
    }
  }

  lemma PlainFiberQuiet(s: Sys, f: nat, a: Action)
    requires Runs(s, f) && !OfWaiting(a) && !AnyThread(a) && !OfWorker(a) && Careful(s, a)
    requires Apply(s, a).Next?
    ensures Quiet(s, Apply(s, a).s)
  {
    FiberStep(s, f, a);
    FiberStepFrame(s, f, a);
    PlainFiberHistory(s, f, a);
    PlainFiberTimers(s, f, a);
    StepTasksQuiet(s, a);
    StepSlotsQuiet(s, a);
  }

  // ---------------------------------------------------------------- arming and waiting

  // The timer armed is recorded with the clock reading of the step, and nothing else has changed.
  lemma ArmRecorded(s: Sys, ms: Word, cb: Callback)
    requires T.Valid(s.timers) && TimersRecorded(s.timers, s.armings) && !cb.UserCb?
    ensures var s1, id := ArmOwn(s, ms, cb), s.timers.nextId;
            && TimersRecorded(s1.timers, s1.armings) && id !in s.armings
            && s1.armings == s.armings[id := Arming(cb, ms, s.now)]
            && (forall e :: e in s.timers.entries ==> e in s1.timers.entries)
            && exists e :: e in s1.timers.entries && e.id == id && e.cb == Some(cb)
  {
    T.AddTimerExactly(s.timers, ms, Some(cb), false, s.now);
    var ts := T.AddTimer(s.timers, ms, Some(cb), false, s.now).0;
    var x :| T.Added(s.timers.entries, ts.entries, x) && T.Describes(x, s.timers.nextId, false, Some(cb))
             && T.ArmedFrom(x, s.now, ms);
    assert x in ts.entries;
  }

  // More armings under new ids, and timers no fewer.
  ghost predicate Grows(s: Sys, s1: Sys) {
    && (forall id :: id in s.armings ==> id in s1.armings && s1.armings[id] == s.armings[id])
    && (forall e :: e in s.timers.entries ==> e in s1.timers.entries)
  }

  lemma GrowsKeepsSleeper(s: Sys, s': Sys, g: nat)
    requires g in s.fibers && g in s'.fibers && s'.fibers[g] == s.fibers[g]
    requires s.fibers[g].pc.Sleeping? && SleeperOk(s, g) && Grows(s, s') && s'.expiries == s.expiries
    ensures SleeperOk(s', g)
  {
    var t := s.fibers[g].pc.alarm;
    if !RangFor(s.expiries, t, g) {
      var e :| e in s.timers.entries && e.id == t && e.cb == Some(WakeFiber(g));
      assert e in s'.timers.entries;
    }
  }

  // What the fiber f leaves when it stops to wait.
  ghost predicate Suspended(s: Sys, s': Sys, f: nat) {
    && f in s.fibers && f in s'.fibers && s'.fibers == s.fibers[f := s'.fibers[f]] && s'.fibers[f].state == READY
    && s'.expiries == s.expiries && s'.calls == s.calls && s'.tasks == s.tasks
    && !s'.fibers[f].pc.Fresh?
    && TimersRecorded(s'.timers, s'.armings) && ArmingsOk(s'.armings, s'.calls) && Grows(s, s')
  }

  lemma SuspendedSlots(s: Sys, s': Sys, f: nat, ops: seq<FT.Op>)
    requires Runs(s, f) && SlotsOk(s.io.fds, s.fibers) && Suspended(s, s', f) && KeepsSlots(s.io, s'.io, ops)
    requires forall i, ev, g :: RegisteredBy(ops, i, ev, g) ==> g == f
    requires s'.fibers[f].pc.Waiting? ==>
               forall i, ev :: RegisteredBy(ops, i, ev, f) ==>
                 s'.fibers[f].pc.call.fd == i && s'.fibers[f].pc.call.ev == ev
    ensures SlotsOk(s'.io.fds, s'.fibers)
  {
    StoredNothing(s, f);
    forall i, ev: Event, g | 0 <= i < |s'.io.fds| && s'.io.fds[i].Get(ev).fiber == Some(g)
                             && g in s'.fibers && s'.fibers[g].pc.Waiting?
      ensures s'.fibers[g].pc.call.fd == i && s'.fibers[g].pc.call.ev == ev
    {
      if g != f {
        assert s.fibers[g] == s'.fibers[g] && !RegisteredBy(ops, i, ev, g);
      }
    }
  }

  lemma SuspendedKeepsRecorded(s: Sys, s': Sys, f: nat, ops: seq<FT.Op>)
    requires Runs(s, f) && Recorded(s) && Suspended(s, s', f) && KeepsSlots(s.io, s'.io, ops)
    requires forall i, ev, g :: RegisteredBy(ops, i, ev, g) ==> g == f
    requires s'.fibers[f].pc.Waiting? ==>
               forall i, ev :: RegisteredBy(ops, i, ev, f) ==>
                 s'.fibers[f].pc.call.fd == i && s'.fibers[f].pc.call.ev == ev
    requires s'.fibers[f].pc.Sleeping? ==> SleeperOk(s', f)
    ensures Recorded(s')
  {
    SuspendedSlots(s, s', f, ops);
    forall g | g in s'.fibers && s'.fibers[g].pc.Sleeping? ensures SleeperOk(s', g) {
      if g != f {
        assert SleeperOk(s, g);
        GrowsKeepsSleeper(s, s', g);
      }
    }
    assert ExpiriesRecorded(s'.expiries, s'.armings);
    assert CallbacksRecorded(s'.tasks, s'.fibers, s'.expiries);
  }

  lemma ArmSleepRecorded(s: Sys, f: nat, sleep: Option<Word>)
    requires T.Valid(s.timers) && TimersRecorded(s.timers, s.armings) && ArmingsOk(s.armings, s.calls)
    ensures var s1 := ArmSleep(s, f, sleep);
            && TimersRecorded(s1.timers, s1.armings) && ArmingsOk(s1.armings, s1.calls) && Grows(s, s1)
            && (sleep.Some? ==>
                  && s.timers.nextId in s1.armings && s1.armings[s.timers.nextId].cb == WakeFiber(f)
                  && Set(s1.timers, s.timers.nextId, f))
  {
    if sleep.Some? {
      ArmRecorded(s, sleep.value, WakeFiber(f));
    }
  }

  lemma ParkedState(s: Sys, f: nat, regs: seq<F.Registration>, sleep: Option<Word>)
    requires Runs(s, f) && Recorded(s) && DoPark(s, f, regs, sleep).Next?
    ensures var s' := DoPark(s, f, regs, sleep).s;
            && Suspended(s, s', f) && !s'.fibers[f].pc.Waiting?
            && (s'.fibers[f].pc.Sleeping? ==> SleeperOk(s', f))
  {
    ParkShape(s, f, regs, sleep);
    ArmSleepRecorded(s, f, sleep);
  }

  lemma ParkKeepsRecorded(s: Sys, f: nat, regs: seq<F.Registration>, sleep: Option<Word>)
    requires Runs(s, f) && Recorded(s) && DoPark(s, f, regs, sleep).Next?
    ensures Recorded(DoPark(s, f, regs, sleep).s)
  {
    var s', ops := DoPark(s, f, regs, sleep).s, SelfOps(f, regs);
    ParkedState(s, f, regs, sleep);
    ParkShape(s, f, regs, sleep);
    SelfFds(s.io, f, regs);
    SelfOpsSafe(f, regs);
    OpsSlots(s.io, ops);
    SuspendedKeepsRecorded(s, s', f, ops);
  }

  lemma SleepIsPark(s: Sys, f: nat, ms: Word)
    requires f in s.fibers && s.fibers[f].state == RUNNING
    ensures DoSleep(s, f, ms) == DoPark(s, f, [], Some(ms))
  {
  }

  lemma ArmTimeoutRecorded(s: Sys, c: IoCall)
    requires T.Valid(s.timers) && TimersRecorded(s.timers, s.armings) && ArmingsOk(s.armings, s.calls)
    requires c.info < |s.calls| && s.calls[c.info] == Call(s.calls[c.info].owner, c.fd, c.ev, c.to)
    ensures var s1 := ArmTimeout(s, c);
            TimersRecorded(s1.timers, s1.armings) && ArmingsOk(s1.armings, s1.calls) && Grows(s, s1)
  {
    if c.to.Some? {
      ArmRecorded(s, c.to.value, IoTimeout(c.info, c.fd, c.ev));
    }
  }

  lemma WaitingState(s: Sys, f: nat, c: IoCall)
    requires Runs(s, f) && Recorded(s) && s.fibers[f].pc == Trying(c)
    requires F.AddEvent(s.io, c.fd, c.ev, FiberWork(f), true).Done?
    requires F.AddEvent(s.io, c.fd, c.ev, FiberWork(f), true).ok
    ensures var r := DoIoWait(s, f, c, true);
            && r.Next? && Suspended(s, r.s, f) && r.s.fibers[f].pc == WaitingPc(s, c)
            && r.s.io == F.AddEvent(s.io, c.fd, c.ev, FiberWork(f), true).st
  {
    assert CallOf(s.fibers[f].pc) == Some(c);
    WaitShape(s, f, c);
    ArmTimeoutRecorded(s, c);
  }

  lemma WaitKeepsRecorded(s: Sys, f: nat, c: IoCall)
    requires Runs(s, f) && Recorded(s) && s.fibers[f].pc == Trying(c) && DoIoWait(s, f, c, true).Next?
    ensures Recorded(DoIoWait(s, f, c, true).s)
  {
    var op := FT.OpAdd(c.fd, c.ev, FiberWork(f), true);
    WaitEffects(s, f, c, true);
    AddEventIoOk(s.io, c.fd, c.ev, FiberWork(f), true);
    WaitingState(s, f, c);
    AddSlots(s.io, op);
    SuspendedKeepsRecorded(s, DoIoWait(s, f, c, true).s, f, [op]);
  }

  // Refused: the timer just armed is cancelled, and the set is as before.
  lemma RefusedTimersQuiet(s: Sys, c: IoCall)
    requires T.Valid(s.timers)
    ensures TimersQuiet(s.timers, TimersAfterWait(s, c, false))
  {
    if c.to.Some? {
      var cb := Some(IoTimeout(c.info, c.fd, c.ev));
      var armed := T.AddTimer(s.timers, c.to.value, cb, false, s.now).0;
      T.AddTimerKeepsValid(s.timers, c.to.value, cb, false, s.now);
      T.CancelRemoves(armed, s.timers.nextId);
      T.NewIdIsFresh(s.timers);
      assert T.NewEntry(s.timers.nextId, c.to.value, cb, false, s.now) in armed.entries;
    }
  }

  lemma RefusedState(s: Sys, f: nat, c: IoCall)
    requires f in s.fibers && s.fibers[f].state == RUNNING && DoIoWait(s, f, c, false).Next?
    requires !F.AddEvent(s.io, c.fd, c.ev, FiberWork(f), false).ok
    ensures var s' := DoIoWait(s, f, c, false).s;
            && s'.fibers == s.fibers[f := Fiber(RUNNING, User)]
            && s'.armings == s.armings && s'.expiries == s.expiries && s'.calls == s.calls && s'.tasks == s.tasks
  {
  }

  lemma RefusedQuiet(s: Sys, s': Sys, f: nat, op: FT.Op)
    requires s'.fibers == s.fibers[f := Fiber(RUNNING, User)]
    requires s'.armings == s.armings && s'.expiries == s.expiries && s'.calls == s.calls && s'.tasks == s.tasks
    requires TimersQuiet(s.timers, s'.timers) && KeepsSlots(s.io, s'.io, [op]) && op.OpAdd? && op.work == FiberWork(f)
    ensures Quiet(s, s')
  {
    forall i, ev: Event, g | 0 <= i < |s'.io.fds| && s'.io.fds[i].Get(ev).fiber == Some(g)
      ensures (i < |s.io.fds| && s.io.fds[i].Get(ev).fiber == Some(g)) || (g in s'.fibers ==> !s'.fibers[g].pc.Waiting?)
    {
      assert RegisteredBy([op], i, ev, g) ==> g == f;
    }
  }

  lemma RefusedKeepsRecorded(s: Sys, f: nat, c: IoCall)
    requires Runs(s, f) && Recorded(s) && s.fibers[f].pc == Trying(c) && DoIoWait(s, f, c, false).Next?
    ensures Recorded(DoIoWait(s, f, c, false).s)
  {
    WaitEffects(s, f, c, false);
    AddEventIoOk(s.io, c.fd, c.ev, FiberWork(f), false);
    RefusedState(s, f, c);
    RefusedTimersQuiet(s, c);
    AddSlots(s.io, FT.OpAdd(c.fd, c.ev, FiberWork(f), false));
    RefusedQuiet(s, DoIoWait(s, f, c, false).s, f, FT.OpAdd(c.fd, c.ev, FiberWork(f), false));
    QuietKeepsRecorded(s, DoIoWait(s, f, c, false).s);
  }

  lemma WaitingStepKeepsRecorded(s: Sys, f: nat, a: Action)
    requires Runs(s, f) && Recorded(s) && OfWaiting(a) && ApplyFiber(s, f, a).Next?
    ensures Recorded(ApplyFiber(s, f, a).s)
  {
    if a.IoWait? {
      DoIoShape(s, f, a);
      if a.granted {
        WaitKeepsRecorded(s, f, s.fibers[f].pc.call);
      } else {
        RefusedKeepsRecorded(s, f, s.fibers[f].pc.call);
      }
    } else {
      ParkingShape(s, f, a);
      if a.Sleep? {
        SleepIsPark(s, f, a.ms);
        ParkKeepsRecorded(s, f, [], Some(a.ms));
      } else {
        ParkKeepsRecorded(s, f, a.regs, a.sleep);
      }
    }
  }

  // ---------------------------------------------------------------- every step, every run

  lemma WorkerKeepsRecorded(s: Sys, a: Action)
    requires Inv(s) && Recorded(s) && OfWorker(a) && Apply(s, a).Next?
    ensures Recorded(Apply(s, a).s)
  {
    WorkerStep(s, a);
    if a.Pick? {
      PickKeepsRecorded(s);
    } else if a.Expire? {
      ExpireKeepsRecorded(s, a.address);
    } else {
      WorkerQuiet(s, a);
      QuietKeepsRecorded(s, Apply(s, a).s);
    }
  }

  lemma BootQuiet(s: Sys, a: Action)
    requires Inv(s) && s.worker.Boot? && OnFds(a) && Careful(s, a) && Apply(s, a).Next?
    ensures Quiet(s, Apply(s, a).s)
  {
    StepTasksQuiet(s, a);
    StepSlotsQuiet(s, a);
  }

  lemma StepKeepsRecorded(s: Sys, a: Action)
    requires Inv(s) && Recorded(s) && Careful(s, a) && Apply(s, a).Next?
    ensures Recorded(Apply(s, a).s)
  {
    if AnyThread(a) {
      OthersQuiet(s, a);
      QuietKeepsRecorded(s, Apply(s, a).s);
    } else if OfWorker(a) {
      WorkerKeepsRecorded(s, a);
    } else if s.worker.Boot? && OnFds(a) {
      BootQuiet(s, a);
      QuietKeepsRecorded(s, Apply(s, a).s);
    } else if OfWaiting(a) {
      FiberStep(s, s.worker.fiber, a);
      WaitingStepKeepsRecorded(s, s.worker.fiber, a);
    } else {
      PlainFiberQuiet(s, s.worker.fiber, a);
      QuietKeepsRecorded(s, Apply(s, a).s);
    }
  }

  lemma {:induction false} RunKeepsRecorded(s: Sys, actions: seq<Action>)
    requires Inv(s) && Recorded(s) && CarefulRun(s, actions) && RunAll(s, actions).Next?
    ensures Recorded(RunAll(s, actions).s)
    decreases |actions|
  {
    if actions != [] {
      ApplyKeepsInv(s, actions[0]);
      StepKeepsRecorded(s, actions[0]);
      RunKeepsRecorded(Apply(s, actions[0]).s, actions[1..]);
    }
  }

  lemma ReachableRecorded(s: Sys)
    requires Reachable(s)
    ensures Inv(s) && Recorded(s)
  {
    var now: Word, actions :|
      now > 0 && CarefulRun(Initial(now), actions) && RunAll(Initial(now), actions) == Next(s);
    InitialInv(now);
    RunIsSafe(Initial(now), actions);
    RunKeepsRecorded(Initial(now), actions);
  }
}
