// The coroutine runtime as one labelled transition system: Scheduler::run on its single worker
// (the default IOManager(1, true)), the idle fiber, do_io and sleep, the timers and the fd
// events. The clock, system-call results, the kernel's ready batches and what each fiber does
// next are free. Threads other than the worker may schedule work and use the timer API at any
// moment. Every assertion of the source is a possible outcome of a step.
module Runtime {
  import opened Common
  import T = Timers
  import F = FdEvents
  import S = Scheduling

  const ME: int := 0

  datatype FiberState = READY | RUNNING | TERM

  // What a fiber does when first resumed: its own function, or a queued callback.
  datatype Body = UserBody | CallbackBody(cb: Callback)

  // One call of do_io: its timer_info (an index into Sys.calls), the event it waits for and its
  // timeout, None for (uint64_t)-1.
  datatype IoCall = IoCall(info: nat, fd: nat, ev: Event, to: Option<Word>)

  datatype Pc =
    | Fresh(body: Body)
    | User                                          // in program code
    | Trying(call: IoCall)                          // in do_io, at the label retry
    | Waiting(call: IoCall, timer: Option<nat>)     // in do_io, at yield
    | Sleeping(alarm: nat)                          // in sleep, at yield
    | Yielded                                       // after schedule(self); yield
    | Ended

  datatype Fiber = Fiber(state: FiberState, pc: Pc)

  predicate Asleep(fb: Fiber) {
    fb.state == READY && fb.pc.Sleeping?
  }

  datatype Report = Report(fd: nat, events: set<F.KernelEvent>)

  // Where the worker is. From IdleCheck to Handling the idle fiber runs.
  datatype Worker =
    | Boot                              // before stop() hands the thread to run()
    | Picking                           // at the top of run()'s loop
    | Executing(fiber: nat)
    | IdleCheck                         // at stopping(next_timeout)
    | TimersRead(wait: Word, armed: bool)   // inside it, after getNextTimer: has a timer been armed since?
    | Polling                           // in epoll_wait
    | Reported(batch: seq<Report>)      // before listExpiredCb
    | Handling(batch: seq<Report>)      // in the loop over the ready events
    | Exited

  datatype Call = Call(owner: nat, fd: nat, ev: Event, to: Option<Word>)

  // A timer that do_io or sleep armed before it yielded, and the clock reading of that step.
  datatype Arming = Arming(cb: Callback, ms: Word, at: Word)

  // The expiry of a timer: its callback, the clock reading, and whether that was taken for a rollover.
  datatype Expiry = Expiry(timer: nat, cb: Callback, at: Word, rollover: bool)

  datatype Sys = Sys(
    tasks: seq<Task>,
    fibers: map<nat, Fiber>,
    nextFiber: nat,
    worker: Worker,
    idle: FiberState,
    active: nat,                  // m_activeThreadCount
    idleCount: nat,               // m_idleThreadCount
    stopping: bool,
    root: FiberState,             // the fiber that executes run()
    timers: T.TimerState,
    io: F.IoState,
    now: Word,
    live: map<nat, bool>,         // timer_infos still referenced by their do_io call: cancelled?
    calls: seq<Call>,             // every do_io call ever made
    armings: map<nat, Arming>,    // every timer a fiber has ever waited for
    expiries: seq<Expiry>,        // every expiry of a timer
    scheduled: nat,               // tasks ever queued
    completed: nat,               // tasks whose resume has returned
    late: bool)                   // something arrived that the stop check no longer saw

  datatype Assertion =
    | TaskNotReady       // Scheduler.cpp:128
    | ResumeNotReady     // Fiber.cpp:112
    | YieldNotRunning    // Fiber.cpp:138
    | AddNotRunning      // IOManager.cpp:326
    | Io(assertion: F.Assertion)

  datatype Result = Next(s: Sys) | Abort(assertion: Assertion) | Disabled

  datatype Action =
    // any thread
    | Spawn(thread: int)
    | Post(tag: nat, thread: int)
    | Arm(ms: Word, cb: Option<nat>, recurring: bool)
    | CancelTimer(timer: nat)
    | RefreshTimer(timer: nat)
    | ResetTimer(timer: nat, oldMs: Word, ms: Word, fromNow: bool)
    | Tick(now: Word)
    | CloseElsewhere(fd: nat)
    // the worker
    | Stop
    | Pick
    | ReadTimers
    | DecideStop
    | PollReturn(batch: seq<Report>)
    | Expire(address: nat)
    | HandleNext(granted: bool)
    | IdleYield
    // the running fiber
    | Begin(granted: bool)
    | IoStart(fd: nat, ev: Event, to: Option<Word>)
    | IoReturn
    | IoWait(granted: bool)
    | IoResume
    | Sleep(ms: Word)
    | YieldNow
    | WakeUp
    | Watch(fd: nat, ev: Event, tag: nat, granted: bool)
    | CancelAll(fd: nat)
    | CancelEvent(fd: nat, ev: Event, granted: bool)
    | DelEvent(fd: nat, ev: Event, granted: bool)
    | Close(fd: nat, known: bool)
    | Park(regs: seq<F.Registration>, sleep: Option<Word>)
    | Finish

  // ---------------------------------------------------------------- building blocks

  function TasksOf(works: seq<Work>): (ts: seq<Task>)
    ensures |ts| == |works|
  {
    seq(|works|, i requires 0 <= i < |works| => Task(works[i], ANY_THREAD))
  }

  function Queue(s: Sys, ts: seq<Task>): Sys {
    s.(tasks := s.tasks + ts, scheduled := s.scheduled + |ts|)
  }

  function Push(s: Sys, works: seq<Work>): Sys {
    Queue(s, TasksOf(works))
  }

  function SetPc(s: Sys, f: nat, pc: Pc): Sys
    requires f in s.fibers
  {
    s.(fibers := s.fibers[f := s.fibers[f].(pc := pc)])
  }

  // Fiber::yield of the running fiber, and run()'s bookkeeping when resume returns.
  function Suspend(s: Sys, f: nat, pc: Pc): Result
    requires f in s.fibers
  {
    if s.fibers[f].state != RUNNING || s.active == 0 then Abort(YieldNotRunning)
    else Next(s.(fibers := s.fibers[f := Fiber(READY, pc)], worker := Picking,
                 active := s.active - 1, completed := s.completed + 1))
  }

  // MainFunc after the fiber's function has returned.
  function Terminate(s: Sys, f: nat): Result
    requires f in s.fibers
  {
    if s.fibers[f].state != RUNNING || s.active == 0 then Abort(YieldNotRunning)
    else Next(s.(fibers := s.fibers[f := Fiber(TERM, Ended)], worker := Picking,
                 active := s.active - 1, completed := s.completed + 1))
  }

  // Timers whose handle the program can hold; do_io keeps its own and sleep drops it.
  predicate UserTimer(ts: T.TimerState, id: nat) {
    var i := T.IndexOf(ts.entries, id);
    i < |ts.entries| ==> ts.entries[i].cb.None? || ts.entries[i].cb.value.UserCb?
  }

  // reset compares with the interval the timer has now; one that has left the set keeps its last.
  predicate HasInterval(ts: T.TimerState, id: nat, ms: Word) {
    var i := T.IndexOf(ts.entries, id);
    i < |ts.entries| ==> ts.entries[i].ms == ms
  }

  // A task that arrives after idle() has decided to end.
  function Late(s: Sys): Sys {
    s.(late := s.late || s.idle == TERM)
  }

  // A timer that is armed after idle()'s last look at the timers.
  function LateTimer(s: Sys): Sys {
    Late(if s.worker.TimersRead? then s.(worker := TimersRead(s.worker.wait, true)) else s)
  }

  function WithIo(s: Sys, r: F.Outcome): Result {
    match r
    case Fails(a) => Abort(Io(a))
    case Done(st, works, ok) => Next(Push(s.(io := st), works))
  }

  // ---------------------------------------------------------------- the steps

  function DoPick(s: Sys): Result {
    var i := S.Pick(s.tasks, ME);
    if i < |s.tasks| then
      var s1 := s.(tasks := S.Without(s.tasks, i), active := s.active + 1);
      match s.tasks[i].work
      case FiberWork(f) =>
        if f !in s.fibers || s.fibers[f].state != READY then Abort(TaskNotReady)
        else Next(s1.(fibers := s.fibers[f := s.fibers[f].(state := RUNNING)], worker := Executing(f)))
      case CbWork(cb) =>
        var f := s.nextFiber;
        Next(s1.(fibers := s.fibers[f := Fiber(RUNNING, Fresh(CallbackBody(cb)))],
                 nextFiber := f + 1, worker := Executing(f)))
    else if s.idle == TERM then Next(s.(worker := Exited, root := TERM))
    else if s.idle == RUNNING then Abort(ResumeNotReady)
    else Next(s.(idle := RUNNING, idleCount := s.idleCount + 1, worker := IdleCheck))
  }

  // IOManager::stopping(next_timeout) at the top of idle()'s loop, first half: getNextTimer under the
  // timer lock.
  function DoReadTimers(s: Sys): Sys {
    var (timers, wait) := T.NextTimer(s.timers, s.now);
    s.(timers := timers, worker := TimersRead(wait, false))
  }

  // Second half: the pending counter, and Scheduler::stopping under the task lock. Then idle() ends,
  // or goes on to wait for events.
  function DoDecideStop(s: Sys): Result
    requires s.worker.TimersRead?
  {
    if s.idleCount == 0 then Abort(YieldNotRunning)
    else if s.worker.wait == FOREVER && s.io.pending == 0 && s.stopping && s.tasks == [] && s.active == 0
    then Next(s.(idle := TERM, idleCount := s.idleCount - 1, worker := Picking, late := s.late || s.worker.armed))
    else Next(s.(worker := Polling))
  }

  // stopping() as stop() evaluates it.
  predicate Stopped(s: Sys) {
    T.NextTimer(s.timers, s.now).1 == FOREVER && s.io.pending == 0 && s.stopping && s.tasks == [] && s.active == 0
  }

  // stop(): nothing if all is done already, else hand the thread to the root fiber.
  function DoStop(s: Sys): Result {
    var timers := T.NextTimer(s.timers, s.now).0;
    if Stopped(s) then Next(s.(timers := timers))
    else if s.root != READY then Abort(ResumeNotReady)
    else Next(s.(timers := timers, stopping := true, root := RUNNING, worker := Picking))
  }

  // Who can call stop(): the main thread before and after run(), and the running fiber.
  predicate StopEnabled(s: Sys) {
    || s.worker.Boot? || s.worker.Exited?
    || (s.worker.Executing? && s.worker.fiber in s.fibers && s.fibers[s.worker.fiber].pc.User?)
  }

  ghost predicate PossibleBatch(io: F.IoState, batch: seq<Report>) {
    && (forall i, j :: 0 <= i < j < |batch| ==> batch[i].fd != batch[j].fd)
    && (forall i :: 0 <= i < |batch| ==> F.Reportable(io, batch[i].fd, batch[i].events))
  }

  // The expiries of the timers taken.
  function ExpiriesOf(taken: seq<T.Entry>, now: Word, rollover: bool): seq<Expiry> {
    if taken == [] then []
    else (if taken[0].cb.Some? then [Expiry(taken[0].id, taken[0].cb.value, now, rollover)] else [])
         + ExpiriesOf(taken[1..], now, rollover)
  }

  ghost function DoExpire(s: Sys, address: nat): Sys
    requires s.worker.Reported?
  {
    var r := T.ListExpired(s.timers, s.now, address);
    var expiries := ExpiriesOf(T.Taken(s.timers, s.now), s.now, T.Rollover(s.timers.previous, s.now));
    Queue(s.(timers := r.0, expiries := s.expiries + expiries, worker := Handling(s.worker.batch)),
          S.BatchTasks(r.1))
  }

  function DoHandleNext(s: Sys, granted: bool): Result
    requires s.worker.Handling? && s.worker.batch != []
  {
    var batch := s.worker.batch;
    WithIo(s.(worker := Handling(batch[1..])), F.HandleReport(s.io, batch[0].fd, batch[0].events, granted))
  }

  // First resume of a fiber. Program functions run on; the runtime's own callbacks run to their end.
  function DoBegin(s: Sys, f: nat, granted: bool): Result
    requires f in s.fibers && s.fibers[f].pc.Fresh?
  {
    match s.fibers[f].pc.body
    case UserBody => Next(SetPc(s, f, User))
    case CallbackBody(UserCb(_)) => Next(SetPc(s, f, User))
    case CallbackBody(WakeFiber(g)) => Terminate(Push(s, [FiberWork(g)]), f)
    case CallbackBody(IoTimeout(info, fd, ev)) =>
      // OnTimer's weak pointer, then the lambda's check
      if info !in s.live || s.live[info] then Terminate(s, f)
      else match WithIo(s.(live := s.live[info := true]), F.CancelEvent(s.io, fd, ev, granted))
           case Next(s1) => if f in s1.fibers then Terminate(s1, f) else Disabled
           case r => r
  }

  function DoIoStart(s: Sys, f: nat, fd: nat, ev: Event, to: Option<Word>): Sys
    requires f in s.fibers
  {
    var info := |s.calls|;
    SetPc(s.(calls := s.calls + [Call(f, fd, ev, to)], live := s.live[info := false]), f,
          Trying(IoCall(info, fd, ev, to)))
  }

  // do_io leaves: its timer_info is released.
  function Leave(s: Sys, f: nat, info: nat): Sys
    requires f in s.fibers
  {
    SetPc(s.(live := s.live - {info}), f, User)
  }

  // addTimer by do_io or sleep.
  function ArmOwn(s: Sys, ms: Word, cb: Callback): Sys {
    s.(timers := T.AddTimer(s.timers, ms, Some(cb), false, s.now).0,
       armings := s.armings[s.timers.nextId := Arming(cb, ms, s.now)])
  }

  // The timeout of a call armed, if it has one.
  function ArmTimeout(s: Sys, c: IoCall): Sys {
    if c.to.None? then s else ArmOwn(s, c.to.value, IoTimeout(c.info, c.fd, c.ev))
  }

  // EAGAIN: arm the timeout, register the event, yield. A refused registration cancels the timer.
  function DoIoWait(s: Sys, f: nat, c: IoCall, granted: bool): Result
    requires f in s.fibers
  {
    var tid := s.timers.nextId;
    var s1 := ArmTimeout(s, c);
    match F.AddEvent(s.io, c.fd, c.ev, FiberWork(f), granted)
    case Fails(a) => Abort(Io(a))
    case Done(io, _, false) =>
      Next(Leave(s.(io := io, timers := if c.to.None? then s.timers else T.Cancel(s1.timers, tid).0), f, c.info))
    case Done(io, _, true) =>
      if s.fibers[f].state != RUNNING then Abort(AddNotRunning)
      else Suspend(s1.(io := io), f, Waiting(c, if c.to.None? then None else Some(tid)))
  }

  predicate TimedOut(s: Sys, info: nat) {
    info in s.live && s.live[info]
  }

  // Back from yield: cancel the timer, then give up with ETIMEDOUT or retry.
  function DoIoResume(s: Sys, f: nat, c: IoCall, timer: Option<nat>): Sys
    requires f in s.fibers
  {
    var s1 := s.(timers := if timer.None? then s.timers else T.Cancel(s.timers, timer.value).0);
    if TimedOut(s, c.info) then Leave(s1, f, c.info) else SetPc(s1, f, Trying(c))
  }

  function DoSleep(s: Sys, f: nat, ms: Word): Result
    requires f in s.fibers
  {
    Suspend(ArmOwn(s, ms, WakeFiber(f)), f, Sleeping(s.timers.nextId))
  }

  // A fiber that registers itself for events and then yields, or sleeps.
  function DoPark(s: Sys, f: nat, regs: seq<F.Registration>, sleep: Option<Word>): Result
    requires f in s.fibers
  {
    match F.AddSelf(s.io, f, regs)
    case Fails(a) => Abort(Io(a))
    case Done(io, _, _) =>
      if s.fibers[f].state != RUNNING then Abort(AddNotRunning)
      else if sleep.None? then Suspend(s.(io := io), f, Yielded)
      else DoSleep(s.(io := io), f, sleep.value)
  }

  // delEvent drops whatever waits in the slot.
  predicate DropsFiber(io: F.IoState, fd: nat, ev: Event) {
    fd < |io.fds| && ev in io.fds[fd].events && io.fds[fd].Get(ev).fiber.Some?
  }

  // addTimer by the program.
  function ProgramTimer(s: Sys, ms: Word, tag: Option<nat>, recurring: bool): T.TimerState {
    T.AddTimer(s.timers, ms, if tag.None? then None else Some(UserCb(tag.value)), recurring, s.now).0
  }

  // Steps any thread may take.
  function ApplyAny(s: Sys, a: Action): Result {
    match a
    case Spawn(thread) =>
      var f := s.nextFiber;
      Next(Late(Queue(s.(fibers := s.fibers[f := Fiber(READY, Fresh(UserBody))], nextFiber := f + 1),
                      [Task(FiberWork(f), thread)])))
    case Post(tag, thread) => Next(Late(Queue(s, [Task(CbWork(UserCb(tag)), thread)])))
    case Arm(ms, cb, recurring) => Next(LateTimer(s.(timers := ProgramTimer(s, ms, cb, recurring))))
    case CancelTimer(id) =>
      if UserTimer(s.timers, id) then Next(s.(timers := T.Cancel(s.timers, id).0)) else Disabled
    case RefreshTimer(id) =>
      if UserTimer(s.timers, id) then Next(s.(timers := T.Refresh(s.timers, id, s.now).0)) else Disabled
    case ResetTimer(id, oldMs, ms, fromNow) =>
      if !(UserTimer(s.timers, id) && HasInterval(s.timers, id, oldMs)) then Disabled
      else Next(s.(timers := T.Reset(s.timers, id, oldMs, ms, fromNow, s.now).0))
    case Tick(now) => if now > 0 then Next(s.(now := now)) else Disabled
    case CloseElsewhere(fd) => Next(s.(io := F.Close(s.io, fd, false).st))
    case _ => Disabled
  }

  // Calls of the fd API by the program, on the worker's thread.
  predicate OnFds(a: Action) {
    a.Watch? || a.CancelAll? || a.CancelEvent? || a.DelEvent? || a.Close?
  }

  function FdOutcome(io: F.IoState, a: Action): F.Outcome
    requires OnFds(a)
  {
    match a
    case Watch(fd, ev, tag, granted) => F.AddEvent(io, fd, ev, CbWork(UserCb(tag)), granted)
    case CancelAll(fd) => F.CancelAll(io, fd)
    case CancelEvent(fd, ev, granted) => F.CancelEvent(io, fd, ev, granted)
    case DelEvent(fd, ev, granted) => F.DelEvent(io, fd, ev, granted)
    case Close(fd, known) => F.Close(io, fd, known)
  }

  function ApplyOnFds(s: Sys, a: Action): Result
    requires OnFds(a)
  {
    if a.DelEvent? && DropsFiber(s.io, a.fd, a.ev) then Disabled else WithIo(s, FdOutcome(s.io, a))
  }

  // Steps of stop(), run() and idle().
  ghost function ApplyWorker(s: Sys, a: Action): Result {
    match a
    case Stop => if StopEnabled(s) then DoStop(s) else Disabled
    case Pick => if s.worker.Picking? then DoPick(s) else Disabled
    case ReadTimers => if s.worker.IdleCheck? then Next(DoReadTimers(s)) else Disabled
    case DecideStop => if s.worker.TimersRead? then DoDecideStop(s) else Disabled
    case PollReturn(batch) =>
      if s.worker.Polling? && PossibleBatch(s.io, batch) then Next(s.(worker := Reported(batch))) else Disabled
    case Expire(address) => if s.worker.Reported? then Next(DoExpire(s, address)) else Disabled
    case HandleNext(granted) =>
      if s.worker.Handling? && s.worker.batch != [] then DoHandleNext(s, granted) else Disabled
    case IdleYield =>
      if !(s.worker.Handling? && s.worker.batch == []) then Disabled
      else if s.idle != RUNNING || s.idleCount == 0 then Abort(YieldNotRunning)
      else Next(s.(idle := READY, idleCount := s.idleCount - 1, worker := Picking))
    case _ => Disabled
  }

  // Steps of the fiber the worker is executing.
  function ApplyFiber(s: Sys, f: nat, a: Action): Result
    requires f in s.fibers
  {
    var pc := s.fibers[f].pc;
    match a
    case Begin(granted) => if pc.Fresh? then DoBegin(s, f, granted) else Disabled
    case IoStart(fd, ev, to) => if pc.User? then Next(DoIoStart(s, f, fd, ev, to)) else Disabled
    case IoReturn => if pc.Trying? then Next(Leave(s, f, pc.call.info)) else Disabled
    case IoWait(granted) => if pc.Trying? then DoIoWait(s, f, pc.call, granted) else Disabled
    case IoResume => if pc.Waiting? then Next(DoIoResume(s, f, pc.call, pc.timer)) else Disabled
    case Sleep(ms) => if pc.User? then DoSleep(s, f, ms) else Disabled
    case YieldNow => if pc.User? then Suspend(Push(s, [FiberWork(f)]), f, Yielded) else Disabled
    case WakeUp => if pc.Sleeping? || pc.Yielded? then Next(SetPc(s, f, User)) else Disabled
    case Park(regs, sleep) => if pc.User? then DoPark(s, f, regs, sleep) else Disabled
    case Finish => if pc.User? then Terminate(s, f) else Disabled
    case _ => if OnFds(a) && pc.User? then ApplyOnFds(s, a) else Disabled
  }

  predicate AnyThread(a: Action) {
    a.Spawn? || a.Post? || a.Arm? || a.CancelTimer? || a.RefreshTimer? || a.ResetTimer? || a.Tick?
    || a.CloseElsewhere?
  }

  predicate OfWorker(a: Action) {
    a.Stop? || a.Pick? || a.ReadTimers? || a.DecideStop? || a.PollReturn? || a.Expire? || a.HandleNext? || a.IdleYield?
  }

  // Before stop() the main thread may also use the fd API.
  ghost function Apply(s: Sys, a: Action): Result {
    if AnyThread(a) then ApplyAny(s, a)
    else if OfWorker(a) then ApplyWorker(s, a)
    else if s.worker.Boot? && OnFds(a) then ApplyOnFds(s, a)
    else if s.worker.Executing? && s.worker.fiber in s.fibers then ApplyFiber(s, s.worker.fiber, a)
    else Disabled
  }

  // What programs must see to, step by step. An fd is closed where it is known, or with no event
  // registered; and a fiber that parks itself does so with exactly one thing to wake it.
  predicate CloseHarmless(io: F.IoState, fd: nat, known: bool) {
    known || fd >= |io.fds| || io.fds[fd].events == {}
  }

  predicate Careful(s: Sys, a: Action) {
    && (a.Close? ==> CloseHarmless(s.io, a.fd, a.known))
    && (a.CloseElsewhere? ==> CloseHarmless(s.io, a.fd, false))
    && (a.Park? ==> F.GrantedOf(a.regs) + (if a.sleep.Some? then 1 else 0) == 1)
  }

  const NO_FDS: F.IoState := F.IoState(F.Resize([], F.INITIAL_FDS), map[], 0)

  // A new IOManager at clock reading `now`.
  function Initial(now: Word): Sys {
    Sys([], map[], 0, Boot, READY, 0, 0, false, READY, T.TimerState([], false, now, 0), NO_FDS, now,
        map[], [], map[], [], 0, 0, false)
  }

  // A run: the outcome of a sequence of steps, stopping at the first that aborts or is impossible.
  ghost function RunAll(s: Sys, actions: seq<Action>): Result
    decreases |actions|
  {
    if actions == [] then Next(s)
    else match Apply(s, actions[0])
      case Next(s1) => RunAll(s1, actions[1..])
      case r => r
  }

  ghost predicate CarefulRun(s: Sys, actions: seq<Action>)
    decreases |actions|
  {
    actions == []
    || (Careful(s, actions[0]) && (Apply(s, actions[0]).Next? ==> CarefulRun(Apply(s, actions[0]).s, actions[1..])))
  }
}
