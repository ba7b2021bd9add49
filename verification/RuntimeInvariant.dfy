// What holds in every reachable state of the runtime.
module RuntimeInvariant {
  import opened Common
  import opened Runtime
  import opened WakeTokens
  import T = Timers
  import F = FdEvents

  // ---------------------------------------------------------------- wake-up conservation

  // sleep's callback while it is being run.
  ghost function InFlight(worker: Worker, fibers: map<nat, Fiber>, f: nat): nat {
    if worker.Executing? && worker.fiber in fibers
       && fibers[worker.fiber].pc.Fresh? && fibers[worker.fiber].pc.body.CallbackBody?
    then CbTok(Some(fibers[worker.fiber].pc.body.cb), f)
    else 0
  }

  // The number of things that will resume f.
  ghost function WakeSources(s: Sys, f: nat): nat {
    TasksTok(s.tasks, f) + FdsTok(s.io.fds, f) + TimersTok(s.timers.entries, f) + InFlight(s.worker, s.fibers, f)
  }

  ghost predicate IsReady(fibers: map<nat, Fiber>, f: nat) {
    f in fibers && fibers[f].state == READY
  }

  // Every fiber that is not running and has not ended has exactly one wake source; no other
  // fiber has any.
  ghost predicate WakeOk(s: Sys) {
    forall f: nat :: WakeSources(s, f) == if IsReady(s.fibers, f) then 1 else 0
  }

  // ---------------------------------------------------------------- fibers and the worker

  ghost predicate PcOk(fb: Fiber) {
    match fb.state
    case READY => (fb.pc.Fresh? && fb.pc.body.UserBody?) || fb.pc.Waiting? || fb.pc.Sleeping? || fb.pc.Yielded?
    case RUNNING => !fb.pc.Ended?
    case TERM => fb.pc.Ended?
  }

  predicate IdlePhase(w: Worker) {
    w.IdleCheck? || w.TimersRead? || w.Polling? || w.Reported? || w.Handling?
  }

  // At most one fiber runs at a time, the idle fiber included, and the counters say which.
  ghost predicate FibersOk(fibers: map<nat, Fiber>, nextFiber: nat, worker: Worker) {
    && (forall f :: f in fibers ==> f < nextFiber && PcOk(fibers[f]))
    && (forall f :: f in fibers ==> (fibers[f].state == RUNNING <==> worker == Executing(f)))
    && (worker.Executing? ==> worker.fiber in fibers)
  }

  ghost predicate WorkerOk(worker: Worker, idle: FiberState, active: nat, idleCount: nat, root: FiberState) {
    && (idle == RUNNING <==> IdlePhase(worker))
    && active == (if worker.Executing? then 1 else 0)
    && idleCount == (if IdlePhase(worker) then 1 else 0)
    && (worker.Exited? ==> idle == TERM)
    && (worker.Boot? ==> idle == READY)
    && root == (if worker.Boot? then READY else if worker.Exited? then TERM else RUNNING)
  }

  // ---------------------------------------------------------------- do_io calls

  function CallOf(pc: Pc): Option<IoCall> {
    if pc.Trying? || pc.Waiting? then Some(pc.call) else None
  }

  ghost predicate InCall(fibers: map<nat, Fiber>, f: nat, info: nat) {
    f in fibers && CallOf(fibers[f].pc).Some? && CallOf(fibers[f].pc).value.info == info
  }

  // A timer_info is alive exactly while the fiber that created it is inside that do_io call.
  ghost predicate CallsOk(fibers: map<nat, Fiber>, calls: seq<Call>, live: map<nat, bool>) {
    && (forall i :: i in live ==> i < |calls| && InCall(fibers, calls[i].owner, i))
    && (forall f :: f in fibers && CallOf(fibers[f].pc).Some? ==>
          var c := CallOf(fibers[f].pc).value;
          c.info in live && c.info < |calls| && calls[c.info] == Call(f, c.fd, c.ev, c.to))
  }

  predicate IsUser(cb: Option<Callback>) {
    cb.None? || cb.value.UserCb?
  }

  predicate IsTimeout(cb: Option<Callback>) {
    cb.Some? && cb.value.IoTimeout?
  }

  ghost predicate TimeoutTimer(e: T.Entry, fibers: map<nat, Fiber>, calls: seq<Call>)
    requires IsTimeout(e.cb)
  {
    var i := e.cb.value.info;
    && i < |calls| && calls[i].to == Some(e.ms) && calls[i].owner in fibers
    && fibers[calls[i].owner].pc.Waiting?
    && fibers[calls[i].owner].pc.timer == Some(e.id)
    && fibers[calls[i].owner].pc.call.info == i
  }

  // A do_io timeout timer in the set belongs to the very call that is waiting on it.
  ghost predicate TimeoutsOk(timers: T.TimerState, fibers: map<nat, Fiber>, calls: seq<Call>) {
    && T.Valid(timers)
    && (forall e :: e in timers.entries && e.recurring ==> e.cb.None? || e.cb.value.UserCb?)
    && (forall e :: e in timers.entries && IsTimeout(e.cb) ==> TimeoutTimer(e, fibers, calls))
    && (forall f :: f in fibers && fibers[f].pc.Waiting? && fibers[f].pc.timer.Some? ==>
          && fibers[f].pc.timer.value < timers.nextId
          && forall e :: e in timers.entries && e.id == fibers[f].pc.timer.value ==> IsTimeout(e.cb))
  }

  // A timeout timer of the call has expired.
  ghost predicate Expired(expiries: seq<Expiry>, info: nat) {
    exists x :: x in expiries && x.cb.IoTimeout? && x.cb.info == info
  }

  ghost predicate CbOrigin(cb: Callback, expiries: seq<Expiry>) {
    cb.IoTimeout? ==> Expired(expiries, cb.info)
  }

  // A timeout callback is queued, run or recorded only after an expiry of a timer of its call.
  ghost predicate OriginsOk(tasks: seq<Task>, fibers: map<nat, Fiber>, live: map<nat, bool>, expiries: seq<Expiry>) {
    && (forall t :: t in tasks && t.work.CbWork? ==> CbOrigin(t.work.cb, expiries))
    && (forall f :: f in fibers && fibers[f].pc.Fresh? && fibers[f].pc.body.CallbackBody? ==>
          CbOrigin(fibers[f].pc.body.cb, expiries))
    && (forall i :: i in live && live[i] ==> Expired(expiries, i))
  }

  // ---------------------------------------------------------------- the rest

  // The callbacks in the slots are the program's.
  ghost predicate UserSlots(fds: seq<F.FdContext>) {
    forall i, ev: Event :: 0 <= i < |fds| && fds[i].Get(ev).cb.Some? ==> fds[i].Get(ev).cb.value.UserCb?
  }

  // Slots hold fibers waiting in do_io, or callbacks of the program.
  ghost predicate IoOk(io: F.IoState) {
    && F.Coherent(io)
    && UserSlots(io.fds)
  }

  ghost predicate BatchOk(worker: Worker, io: F.IoState) {
    worker.Reported? || worker.Handling? ==> PossibleBatch(io, worker.batch)
  }

  // Once the idle fiber has ended, and nothing has arrived that its stop check did not see, there
  // is nothing left to do.
  ghost predicate StopOk(s: Sys) {
    && (s.idle == TERM ==> s.stopping)
    && (s.idle == TERM && !s.late ==>
          s.tasks == [] && s.timers.entries == [] && s.io.pending == 0 && s.active == 0)
  }

  // If getNextTimer found no timer, those in the set have been armed by the program since.
  ghost predicate ReadOk(worker: Worker, entries: seq<T.Entry>) {
    worker.TimersRead? && worker.wait == FOREVER ==>
      (forall e :: e in entries ==> IsUser(e.cb)) && (!worker.armed ==> entries == [])
  }

  // Every task ever queued is still queued, being run, or done.
  ghost predicate CountsOk(s: Sys) {
    s.scheduled == |s.tasks| + s.active + s.completed
  }

  ghost predicate Inv(s: Sys) {
    && WakeOk(s)
    && FibersOk(s.fibers, s.nextFiber, s.worker)
    && WorkerOk(s.worker, s.idle, s.active, s.idleCount, s.root)
    && CallsOk(s.fibers, s.calls, s.live)
    && TimeoutsOk(s.timers, s.fibers, s.calls)
    && OriginsOk(s.tasks, s.fibers, s.live, s.expiries)
    && IoOk(s.io)
    && BatchOk(s.worker, s.io)
    && StopOk(s)
    && ReadOk(s.worker, s.timers.entries)
    && CountsOk(s)
    && s.now > 0
  }

  lemma {:induction false} NoTokensUnused(n: nat, f: nat)
    ensures FdsTok(seq(n, _ => F.UNUSED), f) == 0
  {
    FdsTokUnused([], n, f);
    assert [] + seq(n, _ => F.UNUSED) == seq(n, _ => F.UNUSED);
  }

  lemma InitialInv(now: Word)
    requires now > 0
    ensures Inv(Initial(now))
  {
    F.InitialCoherent();
    var s := Initial(now);
    assert s.io.fds == seq(F.INITIAL_FDS, _ => F.UNUSED);
    forall f: nat ensures WakeSources(s, f) == 0 {
      NoTokensUnused(F.INITIAL_FDS, f);
    }
  }

  // ---------------------------------------------------------------- steps that only move tokens

  ghost predicate NoTimeoutWork(works: seq<Work>) {
    forall w :: w in works && w.CbWork? ==> w.cb.UserCb?
  }

  // An operation on the fd table that moves tokens from slots to queued work.
  lemma IoMoveKeepsInv(s: Sys, io: F.IoState, works: seq<Work>)
    requires Inv(s) && IoOk(io) && BatchOk(s.worker, io) && NoTimeoutWork(works)
    requires s.idle != TERM || s.active > 0
    requires forall f: nat :: FdsTok(io.fds, f) + WorksTok(works, f) == FdsTok(s.io.fds, f)
    ensures Inv(Push(s.(io := io), works))
  {
    var s' := Push(s.(io := io), works);
    forall f: nat ensures WakeSources(s', f) == WakeSources(s, f) {
      TasksTokAppend(s.tasks, TasksOf(works), f);
      TasksOfTok(works, f);
    }
    assert OriginsOk(s'.tasks, s'.fibers, s'.live, s'.expiries) by {
      forall t | t in s'.tasks && t.work.CbWork? ensures CbOrigin(t.work.cb, s'.expiries) {
        if t !in s.tasks {
          assert t in TasksOf(works) && t.work in works;
        }
      }
    }
  }

  lemma SlotWorkIsUser(io: F.IoState, fd: nat, gone: set<Event>)
    requires IoOk(io) && fd < |io.fds|
    ensures NoTimeoutWork(F.WorkOf(io.fds[fd], gone))
  {
    assert io.fds[fd].Get(Read).cb.Some? ==> io.fds[fd].Get(Read).cb.value.UserCb?;
    assert io.fds[fd].Get(Write).cb.Some? ==> io.fds[fd].Get(Write).cb.value.UserCb?;
  }

  lemma RemovedIoOk(io: F.IoState, io': F.IoState, fd: nat, gone: set<Event>)
    requires IoOk(io) && F.Coherent(io') && F.Removed(io, io', fd, gone)
    ensures IoOk(io')
  {
  }

  lemma CancelEventIoOk(io: F.IoState, fd: nat, ev: Event, granted: bool)
    requires IoOk(io)
    ensures var r := F.CancelEvent(io, fd, ev, granted); r.Done? && IoOk(r.st) && NoTimeoutWork(r.works)
  {
    F.CancelEventCoherent(io, fd, ev, granted);
    var r := F.CancelEvent(io, fd, ev, granted);
    if r.ok {
      RemovedIoOk(io, r.st, fd, {ev});
      F.SingleWork(io.fds[fd], ev);
      SlotWorkIsUser(io, fd, {ev});
    }
  }

  lemma CancelAllIoOk(io: F.IoState, fd: nat)
    requires IoOk(io)
    ensures var r := F.CancelAll(io, fd); r.Done? && IoOk(r.st) && NoTimeoutWork(r.works)
  {
    F.CancelAllCoherent(io, fd);
    var r := F.CancelAll(io, fd);
    if r.ok {
      RemovedIoOk(io, r.st, fd, io.fds[fd].events);
      SlotWorkIsUser(io, fd, io.fds[fd].events);
    }
  }

  lemma DelEventIoOk(io: F.IoState, fd: nat, ev: Event, granted: bool)
    requires IoOk(io)
    ensures var r := F.DelEvent(io, fd, ev, granted); r.Done? && IoOk(r.st) && r.works == []
  {
    F.DelEventCoherent(io, fd, ev, granted);
    var r := F.DelEvent(io, fd, ev, granted);
    if r.ok {
      RemovedIoOk(io, r.st, fd, {ev});
    }
  }

  lemma HandleReportIoOk(io: F.IoState, fd: nat, report: set<F.KernelEvent>, granted: bool)
    requires IoOk(io) && F.Reportable(io, fd, report)
    ensures var r := F.HandleReport(io, fd, report, granted);
            r.Done? && IoOk(r.st) && NoTimeoutWork(r.works)
            && F.SameElsewhere(io.kernel, r.st.kernel, fd)
  {
    F.HandleReportCoherent(io, fd, report, granted);
    var r := F.HandleReport(io, fd, report, granted);
    var hit := F.RealEvents(io.fds[fd].events, report);
    if r.ok {
      RemovedIoOk(io, r.st, fd, hit);
      SlotWorkIsUser(io, fd, hit);
    }
  }

  lemma GrownUserSlots(io: F.IoState, fd: nat)
    requires IoOk(io)
    ensures UserSlots(F.Grown(io.fds, fd))
  {
  }

  lemma RegisteredUserSlots(fds: seq<F.FdContext>, fd: nat, ev: Event, work: Work)
    requires UserSlots(fds) && fd < |fds| && (work.CbWork? ==> work.cb.UserCb?)
    ensures UserSlots(fds[fd := F.Registered(fds[fd], ev, work)])
  {
    var c := F.Registered(fds[fd], ev, work);
    forall e: Event | c.Get(e).cb.Some? ensures c.Get(e).cb.value.UserCb? {
      assert c.Get(e) == if e == ev then F.SlotFor(work) else fds[fd].Get(e);
    }
  }

  lemma AddEventIoOk(io: F.IoState, fd: nat, ev: Event, work: Work, granted: bool)
    requires IoOk(io) && (work.CbWork? ==> work.cb.UserCb?)
    ensures var r := F.AddEvent(io, fd, ev, work, granted);
            && (r.Fails? ==> r.assertion == F.DoubleRegistration && fd < |io.fds| && ev in io.fds[fd].events)
            && (r.Done? ==> IoOk(r.st) && r.works == [] && r.ok == granted)
  {
    F.AddEventCoherent(io, fd, ev, work, granted);
    var r := F.AddEvent(io, fd, ev, work, granted);
    if r.Done? {
      GrownUserSlots(io, fd);
      RegisteredUserSlots(F.Grown(io.fds, fd), fd, ev, work);
    }
  }

  // ---------------------------------------------------------------- timers of the program

  // Entries are kept, or are timers of the program that are new or were there under the same id.
  ghost predicate UserChange(ts: T.TimerState, ts': T.TimerState) {
    && T.Valid(ts') && ts'.nextId >= ts.nextId
    && (forall e :: e in ts'.entries && e !in ts.entries ==>
          IsUser(e.cb) && (e.id >= ts.nextId || exists d :: d in ts.entries && d.id == e.id && IsUser(d.cb)))
  }

  lemma UserChangeKeepsTimeouts(ts: T.TimerState, ts': T.TimerState, fibers: map<nat, Fiber>, calls: seq<Call>)
    requires TimeoutsOk(ts, fibers, calls) && UserChange(ts, ts')
    ensures TimeoutsOk(ts', fibers, calls)
  {
  }

  lemma TimerMoveKeepsInv(s: Sys, ts: T.TimerState)
    requires Inv(s) && UserChange(s.timers, ts)
    requires forall f: nat :: TimersTok(ts.entries, f) == TimersTok(s.timers.entries, f)
    requires s.idle == TERM && !s.late ==> ts.entries == []
    requires ReadOk(s.worker, ts.entries)
    ensures Inv(s.(timers := ts))
  {
    UserChangeKeepsTimeouts(s.timers, ts, s.fibers, s.calls);
    forall f: nat ensures WakeSources(s.(timers := ts), f) == WakeSources(s, f) {
    }
  }
}
