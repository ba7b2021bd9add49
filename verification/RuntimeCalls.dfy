// The steps of the runtime as the calls they make: of the timer API, of the fd API and of schedule.
// What is proved about runs of a timer manager, and about the fd table as a map, so holds of every run
// of the runtime.
module RuntimeCalls {
  import opened Common
  import opened Runtime
  import opened RuntimeInvariant
  import opened RuntimeSteps
  import opened FiberSteps
  import opened RuntimeSafety
  import T = Timers
  import F = FdEvents
  import S = Scheduling
  import TR = TimerRuns
  import FT = FdTable

  // ---------------------------------------------------------------- the timer API

  function TimerCall(s: Sys, op: TR.Op): seq<TR.Call> {
    [TR.Call(s.now, op)]
  }

  // EAGAIN: the timeout is armed, and cancelled again if epoll refuses the registration.
  function WaitCalls(s: Sys, c: IoCall, granted: bool): seq<TR.Call> {
    if c.to.None? then []
    else
      TimerCall(s, TR.OpAdd(c.to.value, Some(IoTimeout(c.info, c.fd, c.ev)), false))
      + if granted then [] else TimerCall(s, TR.OpCancel(s.timers.nextId))
  }

  function FiberTimerCalls(s: Sys, f: nat, a: Action): seq<TR.Call>
    requires f in s.fibers
  {
    match a
    case Sleep(ms) => TimerCall(s, TR.OpAdd(ms, Some(WakeFiber(f)), false))
    case Park(_, Some(ms)) => TimerCall(s, TR.OpAdd(ms, Some(WakeFiber(f)), false))
    case IoWait(granted) => if s.fibers[f].pc.Trying? then WaitCalls(s, s.fibers[f].pc.call, granted) else []
    case IoResume =>
      if s.fibers[f].pc.Waiting? && s.fibers[f].pc.timer.Some?
      then TimerCall(s, TR.OpCancel(s.fibers[f].pc.timer.value))
      else []
    case _ => []
  }

  function TimerCalls(s: Sys, a: Action): seq<TR.Call> {
    match a
    case Arm(ms, tag, recurring) =>
      TimerCall(s, TR.OpAdd(ms, if tag.None? then None else Some(UserCb(tag.value)), recurring))
    case CancelTimer(id) => TimerCall(s, TR.OpCancel(id))
    case RefreshTimer(id) => TimerCall(s, TR.OpRefresh(id))
    case ResetTimer(id, _, ms, fromNow) => TimerCall(s, TR.OpReset(id, ms, fromNow))
    case Stop => TimerCall(s, TR.OpNext)
    case ReadTimers => TimerCall(s, TR.OpNext)
    case Expire(address) => TimerCall(s, TR.OpExpire(address))
    case _ => if s.worker.Executing? && s.worker.fiber in s.fibers then FiberTimerCalls(s, s.worker.fiber, a) else []
  }

  lemma OneCall(s: Sys, op: TR.Op)
    ensures TR.Run(s.timers, TimerCall(s, op)) == TR.Step(s.timers, TR.Call(s.now, op))
  {
    assert TimerCall(s, op)[1..] == [];
  }

  lemma ResetIsCall(s: Sys, id: nat, oldMs: Word, ms: Word, fromNow: bool)
    requires HasInterval(s.timers, id, oldMs)
    ensures T.Reset(s.timers, id, oldMs, ms, fromNow, s.now).0
         == TR.Step(s.timers, TR.Call(s.now, TR.OpReset(id, ms, fromNow)))
  {
  }

  lemma OthersTimers(s: Sys, a: Action)
    requires AnyThread(a) && ApplyAny(s, a).Next?
    ensures ApplyAny(s, a).s.timers == TR.Run(s.timers, TimerCalls(s, a))
  {
    if TimerCalls(s, a) != [] {
      OneCall(s, TimerCalls(s, a)[0].op);
    }
    if a.ResetTimer? {
      ResetIsCall(s, a.timer, a.oldMs, a.ms, a.fromNow);
    }
  }

  lemma WorkerTimers(s: Sys, a: Action)
    requires OfWorker(a) && ApplyWorker(s, a).Next?
    ensures ApplyWorker(s, a).s.timers == TR.Run(s.timers, TimerCalls(s, a))
  {
    if TimerCalls(s, a) != [] {
      OneCall(s, TimerCalls(s, a)[0].op);
    }
  }

  lemma TwoCalls(ts: T.TimerState, a: TR.Call, b: TR.Call)
    ensures TR.Run(ts, [a]) == TR.Step(ts, a) && TR.Run(ts, [a, b]) == TR.Step(TR.Step(ts, a), b)
  {
    assert [a][1..] == [] && [a, b][1..] == [b] && [b][1..] == [];
    assert TR.Run(ts, [a, b]) == TR.Run(TR.Step(ts, a), [b]);
  }

  function TimersAfterWait(s: Sys, c: IoCall, waiting: bool): T.TimerState {
    if waiting || c.to.None? then ArmTimeout(s, c).timers else T.Cancel(ArmTimeout(s, c).timers, s.timers.nextId).0
  }

  lemma WaitEffects(s: Sys, f: nat, c: IoCall, granted: bool)
    requires f in s.fibers && DoIoWait(s, f, c, granted).Next?
    ensures var o, s' := F.AddEvent(s.io, c.fd, c.ev, FiberWork(f), granted), DoIoWait(s, f, c, granted).s;
            o.Done? && s'.io == o.st && s'.tasks == s.tasks && s'.timers == TimersAfterWait(s, c, o.ok)
  {
  }

  lemma WaitTimers(s: Sys, f: nat, granted: bool)
    requires Runs(s, f) && s.fibers[f].pc.Trying? && DoIoWait(s, f, s.fibers[f].pc.call, granted).Next?
    ensures DoIoWait(s, f, s.fibers[f].pc.call, granted).s.timers
         == TR.Run(s.timers, WaitCalls(s, s.fibers[f].pc.call, granted))
  {
    var c := s.fibers[f].pc.call;
    WaitEffects(s, f, c, granted);
    AddEventIoOk(s.io, c.fd, c.ev, FiberWork(f), granted);
    if c.to.Some? {
      TwoCalls(s.timers, TR.Call(s.now, TR.OpAdd(c.to.value, Some(IoTimeout(c.info, c.fd, c.ev)), false)),
               TR.Call(s.now, TR.OpCancel(s.timers.nextId)));
    }
  }

  lemma ResumeTimers(s: Sys, f: nat)
    requires f in s.fibers && s.fibers[f].pc.Waiting?
    ensures DoIoResume(s, f, s.fibers[f].pc.call, s.fibers[f].pc.timer).timers
         == TR.Run(s.timers, FiberTimerCalls(s, f, IoResume))
  {
    if s.fibers[f].pc.timer.Some? {
      OneCall(s, TR.OpCancel(s.fibers[f].pc.timer.value));
    }
  }

  lemma SleepTimers(s: Sys, f: nat, a: Action)
    requires f in s.fibers && OfParking(a) && ApplyFiber(s, f, a).Next?
    ensures ApplyFiber(s, f, a).s.timers == TR.Run(s.timers, FiberTimerCalls(s, f, a))
  {
    ParkingShape(s, f, a);
    if FiberTimerCalls(s, f, a) != [] {
      OneCall(s, FiberTimerCalls(s, f, a)[0].op);
    }
  }

  lemma PlainTimers(s: Sys, f: nat, a: Action)
    requires f in s.fibers && ApplyFiber(s, f, a).Next? && !OfDoIo(a) && !OfParking(a)
    ensures ApplyFiber(s, f, a).s.timers == s.timers
  {
    if OnFds(a) {
      FdStepShape(s, f, a);
    }
  }

  lemma FiberTimers(s: Sys, f: nat, a: Action)
    requires Runs(s, f) && ApplyFiber(s, f, a).Next?
    ensures ApplyFiber(s, f, a).s.timers == TR.Run(s.timers, FiberTimerCalls(s, f, a))
  {
    if OfParking(a) {
      SleepTimers(s, f, a);
    } else if OfDoIo(a) {
      DoIoShape(s, f, a);
      if a.IoWait? {
        WaitTimers(s, f, a.granted);
      } else if a.IoResume? {
        ResumeTimers(s, f);
      }
    } else {
      PlainTimers(s, f, a);
    }
  }

  // Every step does to the timers exactly what its calls of the timer API do.
  lemma StepTimers(s: Sys, a: Action)
    requires Inv(s) && Apply(s, a).Next?
    ensures Apply(s, a).s.timers == TR.Run(s.timers, TimerCalls(s, a))
  {
    if AnyThread(a) {
      OthersTimers(s, a);
    } else if OfWorker(a) {
      WorkerTimers(s, a);
    } else if s.worker.Boot? && OnFds(a) {
    } else {
      FiberTimers(s, s.worker.fiber, a);
    }
  }

  // The calls of a whole run.
  ghost function AllTimerCalls(s: Sys, actions: seq<Action>): seq<TR.Call>
    decreases |actions|
  {
    if actions == [] || !Apply(s, actions[0]).Next? then []
    else TimerCalls(s, actions[0]) + AllTimerCalls(Apply(s, actions[0]).s, actions[1..])
  }

  lemma {:induction false} TimerRunConcat(ts: T.TimerState, a: seq<TR.Call>, b: seq<TR.Call>)
    ensures TR.Run(ts, a + b) == TR.Run(TR.Run(ts, a), b)
    decreases |a|
  {
    if a == [] {
      assert a + b == b;
    } else {
      assert (a + b)[1..] == a[1..] + b;
      TimerRunConcat(TR.Step(ts, a[0]), a[1..], b);
    }
  }

  // The timers of the runtime over any careful run are those of a timer manager over the calls made.
  lemma {:induction false} RunTimers(s: Sys, actions: seq<Action>)
    requires Inv(s) && CarefulRun(s, actions) && RunAll(s, actions).Next?
    ensures RunAll(s, actions).s.timers == TR.Run(s.timers, AllTimerCalls(s, actions))
    decreases |actions|
  {
    if actions != [] {
      var s1 := Apply(s, actions[0]).s;
      ApplyKeepsInv(s, actions[0]);
      StepTimers(s, actions[0]);
      RunTimers(s1, actions[1..]);
      TimerRunConcat(s.timers, TimerCalls(s, actions[0]), AllTimerCalls(s1, actions[1..]));
    }
  }

  // ---------------------------------------------------------------- the fd API and schedule

  function SelfOps(f: nat, regs: seq<F.Registration>): seq<FT.Op> {
    if regs == [] then []
    else [FT.OpAdd(regs[0].fd, regs[0].ev, FiberWork(f), regs[0].granted)] + SelfOps(f, regs[1..])
  }

  function FiberFdOps(s: Sys, f: nat, a: Action): seq<FT.Op>
    requires f in s.fibers
  {
    match a
    case Begin(granted) =>
      (match s.fibers[f].pc
       case Fresh(CallbackBody(IoTimeout(info, fd, ev))) =>
         if info in s.live && !s.live[info] then [FT.OpCancel(fd, ev, granted)] else []
       case _ => [])
    case IoWait(granted) =>
      if s.fibers[f].pc.Trying?
      then [FT.OpAdd(s.fibers[f].pc.call.fd, s.fibers[f].pc.call.ev, FiberWork(f), granted)]
      else []
    case Park(regs, _) => SelfOps(f, regs)
    case _ => []
  }

  // A careful close of an fd that is not known does nothing.
  function FdOps(s: Sys, a: Action): seq<FT.Op> {
    match a
    case Watch(fd, ev, tag, granted) => [FT.OpAdd(fd, ev, CbWork(UserCb(tag)), granted)]
    case CancelAll(fd) => [FT.OpCancelAll(fd)]
    case CancelEvent(fd, ev, granted) => [FT.OpCancel(fd, ev, granted)]
    case DelEvent(fd, ev, granted) => [FT.OpDel(fd, ev, granted)]
    case Close(fd, known) => if known then [FT.OpCancelAll(fd)] else []
    case HandleNext(granted) =>
      if s.worker.Handling? && s.worker.batch != []
      then [FT.OpReport(s.worker.batch[0].fd, s.worker.batch[0].events, granted)]
      else []
    case _ => if s.worker.Executing? && s.worker.fiber in s.fibers then FiberFdOps(s, s.worker.fiber, a) else []
  }

  // Tasks for whichever thread comes first.
  function Unpinned(works: seq<Work>): (ts: seq<Task>)
    ensures |ts| == |works| && forall i :: 0 <= i < |ts| ==> ts[i] == Task(works[i], -1)
  {
    if works == [] then [] else [Task(works[0], -1)] + Unpinned(works[1..])
  }

  lemma UnpinnedIsTasksOf(works: seq<Work>)
    ensures Unpinned(works) == TasksOf(works)
  {
  }

  // What a step schedules itself, apart from the work that the fd table hands out.
  function OwnTasks(s: Sys, a: Action): seq<Task> {
    match a
    case Spawn(thread) => [Task(FiberWork(s.nextFiber), thread)]
    case Post(tag, thread) => [Task(CbWork(UserCb(tag)), thread)]
    case Expire(address) => S.BatchTasks(T.ListExpired(s.timers, s.now, address).1)
    case YieldNow => if s.worker.Executing? then [Task(FiberWork(s.worker.fiber), -1)] else []
    case Begin(_) =>
      if !(s.worker.Executing? && s.worker.fiber in s.fibers) then []
      else
        (match s.fibers[s.worker.fiber].pc
         case Fresh(CallbackBody(WakeFiber(g))) => [Task(FiberWork(g), -1)]
         case _ => [])
    case _ => []
  }

  // The step's calls of the fd API lead from s.io to the new table, and what they hand out is queued
  // behind what the step schedules itself.
  ghost predicate FdsAndQueue(s: Sys, s': Sys, ops: seq<FT.Op>, own: seq<Task>) {
    var r := FT.ApplyAll(s.io, ops);
    r.Some? && s'.io == r.value.0 && s'.tasks == s.tasks + own + Unpinned(r.value.1)
  }

  lemma NoFdOps(s: Sys, s': Sys, own: seq<Task>)
    requires s'.io == s.io && s'.tasks == s.tasks + own
    ensures FdsAndQueue(s, s', [], own)
  {
  }

  lemma OneOp(io: F.IoState, op: FT.Op)
    requires FT.Apply(io, op).Done?
    ensures FT.ApplyAll(io, [op]) == Some((FT.Apply(io, op).st, FT.Apply(io, op).works))
  {
    assert [op][1..] == [] && FT.Apply(io, op).works + [] == FT.Apply(io, op).works;
  }

  lemma OneFdOp(s: Sys, op: FT.Op, r: F.Outcome)
    requires FT.Apply(s.io, op) == r && r.Done?
    ensures WithIo(s, r).Next? && FdsAndQueue(s, WithIo(s, r).s, [op], [])
  {
    OneOp(s.io, op);
    UnpinnedIsTasksOf(r.works);
    assert s.tasks + [] == s.tasks;
  }

  lemma PlainFdOp(io: F.IoState, s: Sys, a: Action)
    requires OnFds(a) && !a.Close?
    ensures |FdOps(s, a)| == 1 && FT.Apply(io, FdOps(s, a)[0]) == FdOutcome(io, a)
  {
  }

  lemma CloseUnknownFds(s: Sys, fd: nat)
    requires F.Close(s.io, fd, false) == F.Done(s.io, [], true)
    ensures WithIo(s, F.Close(s.io, fd, false)) == Next(s) && FdsAndQueue(s, s, [], [])
  {
    assert TasksOf([]) == [] && s.tasks + [] == s.tasks;
    NoFdOps(s, s, []);
  }

  lemma CloseKnownFds(s: Sys, fd: nat)
    requires F.Close(s.io, fd, true) == F.CancelAll(s.io, fd) && F.CancelAll(s.io, fd).Done?
    ensures WithIo(s, F.Close(s.io, fd, true)).Next?
    ensures FdsAndQueue(s, WithIo(s, F.Close(s.io, fd, true)).s, [FT.OpCancelAll(fd)], [])
  {
    OneFdOp(s, FT.OpCancelAll(fd), F.CancelAll(s.io, fd));
  }

  lemma CloseFds(s: Sys, fd: nat, known: bool)
    requires F.Coherent(s.io) && CloseHarmless(s.io, fd, known)
    ensures WithIo(s, F.Close(s.io, fd, known)).Next?
    ensures FdsAndQueue(s, WithIo(s, F.Close(s.io, fd, known)).s, FdOps(s, Close(fd, known)), [])
  {
    if known {
      F.KnownCloseIsCancelAll(s.io, fd);
      CloseKnownFds(s, fd);
    } else {
      F.HarmlessCloseIsNothing(s.io, fd);
      CloseUnknownFds(s, fd);
    }
  }

  lemma OnFdsFds(s: Sys, a: Action)
    requires Inv(s) && OnFds(a) && Careful(s, a) && ApplyOnFds(s, a).Next?
    ensures FdsAndQueue(s, ApplyOnFds(s, a).s, FdOps(s, a), [])
  {
    if a.Close? {
      CloseFds(s, a.fd, a.known);
    } else {
      PlainFdOp(s.io, s, a);
      OneFdOp(s, FdOps(s, a)[0], FdOutcome(s.io, a));
      assert FdOps(s, a) == [FdOps(s, a)[0]];
    }
  }

  lemma OthersFds(s: Sys, a: Action)
    requires Inv(s) && AnyThread(a) && Careful(s, a) && ApplyAny(s, a).Next?
    ensures FdsAndQueue(s, ApplyAny(s, a).s, FdOps(s, a), OwnTasks(s, a))
  {
    if a.CloseElsewhere? {
      F.CloseCoherentExactly(s.io, a.fd, false);
    }
    assert s.tasks + [] == s.tasks;
    NoFdOps(s, ApplyAny(s, a).s, OwnTasks(s, a));
  }

  lemma HandleFds(s: Sys, granted: bool)
    requires s.worker.Handling? && s.worker.batch != []
    requires F.HandleReport(s.io, s.worker.batch[0].fd, s.worker.batch[0].events, granted).Done?
    ensures DoHandleNext(s, granted).Next?
    ensures FdsAndQueue(s, DoHandleNext(s, granted).s, FdOps(s, HandleNext(granted)), [])
  {
    var first := s.worker.batch[0];
    OneFdOp(s.(worker := Handling(s.worker.batch[1..])), FT.OpReport(first.fd, first.events, granted),
            F.HandleReport(s.io, first.fd, first.events, granted));
  }

  lemma HandleDone(s: Sys, granted: bool)
    requires Inv(s) && s.worker.Handling? && s.worker.batch != []
    ensures F.HandleReport(s.io, s.worker.batch[0].fd, s.worker.batch[0].events, granted).Done?
  {
    HandleReportIoOk(s.io, s.worker.batch[0].fd, s.worker.batch[0].events, granted);
  }

  lemma WorkerFds(s: Sys, a: Action)
    requires Inv(s) && OfWorker(a) && !a.Pick? && ApplyWorker(s, a).Next?
    ensures FdsAndQueue(s, ApplyWorker(s, a).s, FdOps(s, a), OwnTasks(s, a))
  {
    if a.HandleNext? {
      HandleDone(s, a.granted);
      HandleFds(s, a.granted);
    } else {
      QuietWorker(s, a);
      NoFdOps(s, ApplyWorker(s, a).s, OwnTasks(s, a));
    }
  }

  lemma QuietWorker(s: Sys, a: Action)
    requires OfWorker(a) && !a.Pick? && !a.HandleNext? && ApplyWorker(s, a).Next?
    ensures ApplyWorker(s, a).s.io == s.io && ApplyWorker(s, a).s.tasks == s.tasks + OwnTasks(s, a)
    ensures FdOps(s, a) == []
  {
  }

  lemma MarkAndCancelFds(s: Sys, info: nat, fd: nat, ev: Event, granted: bool)
    requires F.CancelEvent(s.io, fd, ev, granted).Done?
    ensures MarkAndCancel(s, info, fd, ev, granted).Next?
    ensures FdsAndQueue(s, MarkAndCancel(s, info, fd, ev, granted).s, [FT.OpCancel(fd, ev, granted)], [])
  {
    OneFdOp(s.(live := s.live[info := true]), FT.OpCancel(fd, ev, granted), F.CancelEvent(s.io, fd, ev, granted));
  }

  lemma EndsWith(s: Sys, s1: Sys, f: nat, ops: seq<FT.Op>)
    requires f in s1.fibers && Terminate(s1, f).Next? && FdsAndQueue(s, s1, ops, [])
    ensures FdsAndQueue(s, Terminate(s1, f).s, ops, [])
  {
  }

  lemma BeginTimeoutFds(s: Sys, f: nat, info: nat, fd: nat, ev: Event, granted: bool)
    requires f in s.fibers && s.fibers[f].pc == Fresh(CallbackBody(IoTimeout(info, fd, ev)))
    requires F.CancelEvent(s.io, fd, ev, granted).Done? && DoBegin(s, f, granted).Next?
    ensures FdsAndQueue(s, DoBegin(s, f, granted).s, FiberFdOps(s, f, Begin(granted)), [])
  {
    MarkAndCancelFds(s, info, fd, ev, granted);
    var s1 := MarkAndCancel(s, info, fd, ev, granted).s;
    TimeoutShape(s, f, info, fd, ev, granted);
    if info in s.live && !s.live[info] {
      EndsWith(s, s1, f, [FT.OpCancel(fd, ev, granted)]);
    } else {
      assert s.tasks + [] == s.tasks;
      NoFdOps(s, DoBegin(s, f, granted).s, []);
    }
  }

  lemma BeginWakeFds(s: Sys, f: nat, g: nat, granted: bool)
    requires Runs(s, f) && s.fibers[f].pc == Fresh(CallbackBody(WakeFiber(g))) && DoBegin(s, f, granted).Next?
    ensures FdsAndQueue(s, DoBegin(s, f, granted).s, [], [Task(FiberWork(g), -1)])
  {
    assert TasksOf([FiberWork(g)]) == [Task(FiberWork(g), -1)];
    NoFdOps(s, DoBegin(s, f, granted).s, [Task(FiberWork(g), -1)]);
  }

  lemma BeginFds(s: Sys, f: nat, granted: bool)
    requires Runs(s, f) && s.fibers[f].pc.Fresh? && DoBegin(s, f, granted).Next?
    ensures FdsAndQueue(s, DoBegin(s, f, granted).s, FiberFdOps(s, f, Begin(granted)), OwnTasks(s, Begin(granted)))
  {
    match s.fibers[f].pc.body
    case CallbackBody(IoTimeout(info, fd, ev)) =>
      CancelEventIoOk(s.io, fd, ev, granted);
      BeginTimeoutFds(s, f, info, fd, ev, granted);
    case CallbackBody(WakeFiber(g)) => BeginWakeFds(s, f, g, granted);
    case _ =>
      assert s.tasks + [] == s.tasks;
      NoFdOps(s, DoBegin(s, f, granted).s, []);
  }

  lemma WaitFds(s: Sys, f: nat, c: IoCall, granted: bool)
    requires f in s.fibers && DoIoWait(s, f, c, granted).Next?
    requires F.AddEvent(s.io, c.fd, c.ev, FiberWork(f), granted).Done?
    requires F.AddEvent(s.io, c.fd, c.ev, FiberWork(f), granted).works == []
    ensures FdsAndQueue(s, DoIoWait(s, f, c, granted).s, [FT.OpAdd(c.fd, c.ev, FiberWork(f), granted)], [])
  {
    WaitEffects(s, f, c, granted);
    OneOp(s.io, FT.OpAdd(c.fd, c.ev, FiberWork(f), granted));
    assert s.tasks + [] + Unpinned([]) == s.tasks;
  }

  lemma AppliesFirst(io: F.IoState, op: FT.Op, ops: seq<FT.Op>, io1: F.IoState, io2: F.IoState)
    requires FT.Apply(io, op).Done? && FT.Apply(io, op).st == io1 && FT.Apply(io, op).works == []
    requires FT.ApplyAll(io1, ops) == Some((io2, []))
    ensures FT.ApplyAll(io, [op] + ops) == Some((io2, []))
  {
    assert ([op] + ops)[1..] == ops && ([op] + ops)[0] == op;
    var none: seq<Work> := [];
    assert none + none == none;
  }

  lemma {:induction false} SelfFds(io: F.IoState, f: nat, regs: seq<F.Registration>)
    requires F.Coherent(io) && F.AddSelf(io, f, regs).Done?
    ensures FT.ApplyAll(io, SelfOps(f, regs)) == Some((F.AddSelf(io, f, regs).st, []))
    decreases |regs|
  {
    if regs != [] {
      var op := FT.OpAdd(regs[0].fd, regs[0].ev, FiberWork(f), regs[0].granted);
      F.AddEventCoherent(io, op.fd, op.ev, op.work, op.granted);
      var io1 := F.AddEvent(io, op.fd, op.ev, op.work, op.granted).st;
      SelfFds(io1, f, regs[1..]);
      AppliesFirst(io, op, SelfOps(f, regs[1..]), io1, F.AddSelf(io1, f, regs[1..]).st);
    }
  }

  lemma ParkFds(s: Sys, f: nat, regs: seq<F.Registration>, sleep: Option<Word>)
    requires Runs(s, f) && DoPark(s, f, regs, sleep).Next?
    ensures FdsAndQueue(s, DoPark(s, f, regs, sleep).s, SelfOps(f, regs), [])
  {
    ParkShape(s, f, regs, sleep);
    SelfFds(s.io, f, regs);
    assert s.tasks + [] + Unpinned([]) == s.tasks;
  }

  lemma YieldFds(s: Sys, f: nat)
    requires Runs(s, f) && Suspend(Push(s, [FiberWork(f)]), f, Yielded).Next?
    ensures FdsAndQueue(s, Suspend(Push(s, [FiberWork(f)]), f, Yielded).s, [], [Task(FiberWork(f), -1)])
  {
    assert TasksOf([FiberWork(f)]) == [Task(FiberWork(f), -1)];
    NoFdOps(s, Suspend(Push(s, [FiberWork(f)]), f, Yielded).s, [Task(FiberWork(f), -1)]);
  }

  // Steps of the running fiber that leave the fd table and the queue alone.
  predicate OffFds(a: Action) {
    a.IoStart? || a.IoReturn? || a.IoResume? || a.Sleep? || a.WakeUp? || a.Finish?
  }

  lemma OffFdsShape(s: Sys, f: nat, a: Action)
    requires f in s.fibers && OffFds(a) && ApplyFiber(s, f, a).Next?
    ensures ApplyFiber(s, f, a).s.io == s.io && ApplyFiber(s, f, a).s.tasks == s.tasks
  {
  }

  lemma FiberFds(s: Sys, f: nat, a: Action)
    requires Runs(s, f) && !AnyThread(a) && !OfWorker(a) && Careful(s, a) && ApplyFiber(s, f, a).Next?
    ensures FdsAndQueue(s, ApplyFiber(s, f, a).s, FdOps(s, a), OwnTasks(s, a))
  {
    if OnFds(a) {
      FdStepShape(s, f, a);
      OnFdsFds(s, a);
    } else if a.Begin? {
      BeginFds(s, f, a.granted);
    } else if a.IoWait? {
      DoIoShape(s, f, a);
      var c := s.fibers[f].pc.call;
      WaitEffects(s, f, c, a.granted);
      AddEventIoOk(s.io, c.fd, c.ev, FiberWork(f), a.granted);
      WaitFds(s, f, c, a.granted);
    } else if a.Park? {
      ParkingShape(s, f, a);
      ParkFds(s, f, a.regs, a.sleep);
    } else if a.YieldNow? {
      ParkingShape(s, f, a);
      YieldFds(s, f);
    } else {
      OffFdsShape(s, f, a);
      assert s.tasks + [] == s.tasks;
      NoFdOps(s, ApplyFiber(s, f, a).s, []);
    }
  }

  // Every step but the one that takes a task: the fd table is changed by the step's calls of the fd API
  // and by nothing else, and the queue grows by what the step schedules and by the work those calls hand
  // out, in that order, and by nothing else.
  lemma StepFds(s: Sys, a: Action)
    requires Inv(s) && Careful(s, a) && !a.Pick? && Apply(s, a).Next?
    ensures FdsAndQueue(s, Apply(s, a).s, FdOps(s, a), OwnTasks(s, a))
  {
    if AnyThread(a) {
      OthersFds(s, a);
    } else if OfWorker(a) {
      WorkerFds(s, a);
    } else if s.worker.Boot? && OnFds(a) {
      OnFdsFds(s, a);
    } else {
      FiberFds(s, s.worker.fiber, a);
    }
  }

  lemma {:induction false} SelfOpsAdd(f: nat, regs: seq<F.Registration>)
    ensures forall op :: op in SelfOps(f, regs) ==> op.OpAdd?
  {
    if regs != [] {
      SelfOpsAdd(f, regs[1..]);
    }
  }

  lemma NoReports(s: Sys, a: Action)
    requires !a.HandleNext?
    ensures forall op :: op in FdOps(s, a) ==> !op.OpReport?
  {
    if a.Park? && s.worker.Executing? {
      SelfOpsAdd(s.worker.fiber, a.regs);
    }
  }

  lemma ReportPossible(s: Sys, t: FT.Table, granted: bool)
    requires Inv(s) && s.worker.Handling? && s.worker.batch != [] && FT.Represents(s.io, t)
    ensures FT.PossibleRun(t, FdOps(s, HandleNext(granted)))
  {
    var first := s.worker.batch[0];
    assert F.Reportable(s.io, first.fd, first.events);
    FT.InMask(s.io, t, first.fd, Read);
    FT.InMask(s.io, t, first.fd, Write);
    var ops := FdOps(s, HandleNext(granted));
    assert ops[1..] == [] && FT.Possible(t, ops[0]);
  }

  lemma OpsPossible(s: Sys, a: Action, t: FT.Table)
    requires Inv(s) && Careful(s, a) && !a.Pick? && Apply(s, a).Next? && FT.Represents(s.io, t)
    ensures FT.PossibleRun(t, FdOps(s, a))
  {
    if a.HandleNext? {
      ReportPossible(s, t, a.granted);
    } else {
      StepFds(s, a);
      NoReports(s, a);
      FT.DoneIsPossible(s.io, t, FdOps(s, a));
    }
  }

  // The same with the fd table as the map it stands for: a step changes it as its calls of the fd API say,
  // and queues what it schedules itself, then the work the map has for the registrations that fire.
  lemma StepIsTable(s: Sys, a: Action, t: FT.Table)
    requires Inv(s) && Careful(s, a) && !a.Pick? && Apply(s, a).Next? && FT.Represents(s.io, t)
    ensures FT.Represents(Apply(s, a).s.io, FT.StepAll(t, FdOps(s, a)))
    ensures Apply(s, a).s.tasks == s.tasks + OwnTasks(s, a) + Unpinned(FT.HandedOutAll(t, FdOps(s, a)))
  {
    StepFds(s, a);
    OpsPossible(s, a, t);
    FT.RunRefines(s.io, t, FdOps(s, a));
  }

  // Taking a task is the exception: the first that this thread may take leaves the queue, and the fiber
  // it names, or a new one for its callback, runs. Nothing else changes.
  lemma PickExactly(s: Sys, i: nat)
    requires Inv(s) && s.worker.Picking? && i < |s.tasks|
    requires forall j :: 0 <= j < i ==> s.tasks[j].thread != -1 && s.tasks[j].thread != 0
    requires s.tasks[i].thread == -1 || s.tasks[i].thread == 0
    ensures Apply(s, Pick).Next?
    ensures var s' := Apply(s, Pick).s;
            var f := match s.tasks[i].work case FiberWork(g) => g case CbWork(_) => s.nextFiber;
            && s'.tasks == s.tasks[..i] + s.tasks[i + 1..] && s'.worker == Executing(f)
            && f in s'.fibers
            && s'.fibers == s.fibers[f := s'.fibers[f]]
            && s'.fibers[f].state == RUNNING
            && (match s.tasks[i].work
                case FiberWork(_) => f in s.fibers && s'.fibers[f].pc == s.fibers[f].pc
                case CbWork(cb) => f !in s.fibers && s'.fibers[f].pc == Fresh(CallbackBody(cb)))
            && s'.timers == s.timers && s'.io == s.io && s'.live == s.live
  {
    WorkerStep(s, Pick);
    S.PickUnique(s.tasks, ME, i);
    match s.tasks[i].work
    case FiberWork(f) => WorkInQueueIsReady(s, i, f);
    case CbWork(cb) =>
  }

  // With no such task the queue is left as it is and the idle fiber is entered, or run() returns.
  lemma PickNothing(s: Sys)
    requires Inv(s) && s.worker.Picking? && forall t :: t in s.tasks ==> t.thread != -1 && t.thread != 0
    ensures var s' := s.(idle := if s.idle == TERM then TERM else RUNNING,
                         idleCount := if s.idle == TERM then s.idleCount else s.idleCount + 1,
                         worker := if s.idle == TERM then Exited else IdleCheck,
                         root := if s.idle == TERM then TERM else s.root);
            Apply(s, Pick) == Next(s')
  {
    WorkerStep(s, Pick);
    S.PickUnique(s.tasks, ME, |s.tasks|);
  }

  // ---------------------------------------------------------------- the fiber and its call

  predicate RunsProgram(body: Body) {
    body.UserBody? || body.cb.UserCb?
  }

  // What becomes of the running fiber.
  function Becomes(s: Sys, f: nat, a: Action): Fiber
    requires f in s.fibers
  {
    var fb := s.fibers[f];
    match a
    case Begin(_) => if fb.pc.Fresh? && RunsProgram(fb.pc.body) then Fiber(RUNNING, User) else Fiber(TERM, Ended)
    case IoStart(fd, ev, to) => Fiber(RUNNING, Trying(IoCall(|s.calls|, fd, ev, to)))
    case IoReturn => Fiber(RUNNING, User)
    case IoWait(granted) =>
      if !(granted && fb.pc.Trying?) then Fiber(RUNNING, User)
      else Fiber(READY, Waiting(fb.pc.call, if fb.pc.call.to.None? then None else Some(s.timers.nextId)))
    case IoResume =>
      if fb.pc.Waiting? && !(fb.pc.call.info in s.live && s.live[fb.pc.call.info])
      then Fiber(RUNNING, Trying(fb.pc.call))
      else Fiber(RUNNING, User)
    case Sleep(_) => Fiber(READY, Sleeping(s.timers.nextId))
    case YieldNow => Fiber(READY, Yielded)
    case WakeUp => Fiber(RUNNING, User)
    case Park(_, sleep) => Fiber(READY, if sleep.None? then Yielded else Sleeping(s.timers.nextId))
    case Finish => Fiber(TERM, Ended)
    case _ => fb
  }

  // And of the calls of do_io: which are under way, and which of those are marked as timed out.
  function LiveAfter(s: Sys, f: nat, a: Action): map<nat, bool>
    requires f in s.fibers
  {
    var pc := s.fibers[f].pc;
    match a
    case Begin(_) =>
      (match pc
       case Fresh(CallbackBody(IoTimeout(info, _, _))) => if info in s.live then s.live[info := true] else s.live
       case _ => s.live)
    case IoStart(_, _, _) => s.live[|s.calls| := false]
    case IoReturn => if pc.Trying? then s.live - {pc.call.info} else s.live
    case IoWait(granted) => if pc.Trying? && !granted then s.live - {pc.call.info} else s.live
    case IoResume =>
      if pc.Waiting? && pc.call.info in s.live && s.live[pc.call.info] then s.live - {pc.call.info} else s.live
    case _ => s.live
  }

  ghost predicate Moved(s: Sys, s': Sys, f: nat, a: Action)
    requires f in s.fibers
  {
    && s'.fibers == s.fibers[f := Becomes(s, f, a)] && s'.live == LiveAfter(s, f, a)
    && s'.worker == if Becomes(s, f, a).state == RUNNING then Executing(f) else Picking
  }

  lemma BeginMoves(s: Sys, f: nat, granted: bool)
    requires s.worker == Executing(f) && f in s.fibers && s.fibers[f].state == RUNNING && s.fibers[f].pc.Fresh?
    requires DoBegin(s, f, granted).Next?
    ensures Moved(s, DoBegin(s, f, granted).s, f, Begin(granted))
  {
    match s.fibers[f].pc.body
    case CallbackBody(IoTimeout(info, fd, ev)) =>
      if info in s.live && s.live[info] { assert s.live[info := true] == s.live; }
    case _ =>
  }

  lemma GrantedMoves(s: Sys, f: nat, c: IoCall)
    requires s.worker == Executing(f) && f in s.fibers && s.fibers[f] == Fiber(RUNNING, Trying(c))
    requires DoIoWait(s, f, c, true).Next?
    requires F.AddEvent(s.io, c.fd, c.ev, FiberWork(f), true).ok
    ensures Moved(s, DoIoWait(s, f, c, true).s, f, IoWait(true))
  {
    WaitShape(s, f, c);
  }

  lemma WaitMoves(s: Sys, f: nat, granted: bool)
    requires Runs(s, f) && s.fibers[f].pc.Trying? && DoIoWait(s, f, s.fibers[f].pc.call, granted).Next?
    ensures Moved(s, DoIoWait(s, f, s.fibers[f].pc.call, granted).s, f, IoWait(granted))
  {
    var c := s.fibers[f].pc.call;
    WaitEffects(s, f, c, granted);
    AddEventIoOk(s.io, c.fd, c.ev, FiberWork(f), granted);
    if granted {
      GrantedMoves(s, f, c);
    } else {
      RefusedMoves(s, f, c);
    }
  }

  lemma RefusedMoves(s: Sys, f: nat, c: IoCall)
    requires s.worker == Executing(f) && f in s.fibers && s.fibers[f] == Fiber(RUNNING, Trying(c))
    requires DoIoWait(s, f, c, false).Next?
    requires !F.AddEvent(s.io, c.fd, c.ev, FiberWork(f), false).ok
    ensures Moved(s, DoIoWait(s, f, c, false).s, f, IoWait(false))
  {
  }

  lemma CallMoves(s: Sys, f: nat, a: Action)
    requires s.worker == Executing(f) && f in s.fibers && s.fibers[f].state == RUNNING
    requires OfDoIo(a) && !a.IoWait? && ApplyFiber(s, f, a).Next?
    ensures Moved(s, ApplyFiber(s, f, a).s, f, a)
  {
    DoIoShape(s, f, a);
  }

  lemma DoIoMoves(s: Sys, f: nat, a: Action)
    requires Runs(s, f) && OfDoIo(a) && ApplyFiber(s, f, a).Next?
    ensures Moved(s, ApplyFiber(s, f, a).s, f, a)
  {
    if a.IoWait? {
      DoIoShape(s, f, a);
      WaitMoves(s, f, a.granted);
    } else {
      CallMoves(s, f, a);
    }
  }

  lemma ParkingMoves(s: Sys, f: nat, a: Action)
    requires s.worker == Executing(f) && f in s.fibers && s.fibers[f].state == RUNNING
    requires OfParking(a) && ApplyFiber(s, f, a).Next?
    ensures Moved(s, ApplyFiber(s, f, a).s, f, a)
  {
    ParkingShape(s, f, a);
  }

  lemma PlainMoves(s: Sys, f: nat, a: Action)
    requires s.worker == Executing(f) && f in s.fibers && s.fibers[f].state == RUNNING
    requires (a.WakeUp? || a.Finish?) && ApplyFiber(s, f, a).Next?
    ensures Moved(s, ApplyFiber(s, f, a).s, f, a)
  {
  }

  lemma OnFdsMoves(s: Sys, f: nat, a: Action)
    requires s.worker == Executing(f) && f in s.fibers && s.fibers[f].state == RUNNING
    requires OnFds(a) && ApplyFiber(s, f, a).Next?
    ensures Moved(s, ApplyFiber(s, f, a).s, f, a)
  {
    FdStepShape(s, f, a);
    assert s.fibers[f := s.fibers[f]] == s.fibers;
  }

  // A step of the running fiber moves that fiber alone, and only its own call of do_io, but for a timeout
  // callback, which marks the call it is for.
  lemma FiberMoves(s: Sys, f: nat, a: Action)
    requires Inv(s) && s.worker == Executing(f) && !AnyThread(a) && !OfWorker(a) && Apply(s, a).Next?
    ensures var s' := Apply(s, a).s;
            && s'.fibers == s.fibers[f := Becomes(s, f, a)] && s'.live == LiveAfter(s, f, a)
            && s'.worker == if Becomes(s, f, a).state == RUNNING then Executing(f) else Picking
  {
    FiberStep(s, f, a);
    if OnFds(a) {
      OnFdsMoves(s, f, a);
    } else if a.Begin? {
      BeginMoves(s, f, a.granted);
    } else if OfDoIo(a) {
      DoIoMoves(s, f, a);
    } else if OfParking(a) {
      ParkingMoves(s, f, a);
    } else {
      PlainMoves(s, f, a);
    }
  }

  // Other threads move no fiber; they can add one.
  lemma OthersMove(s: Sys, a: Action)
    requires AnyThread(a) && Apply(s, a).Next?
    ensures var s' := Apply(s, a).s;
            && s'.fibers == (if a.Spawn? then s.fibers[s.nextFiber := Fiber(READY, Fresh(UserBody))] else s.fibers)
            && s'.live == s.live && s'.idle == s.idle && s'.now == if a.Tick? then a.now else s.now
  {
  }

  // ---------------------------------------------------------------- whole runs

  ghost function AllFdOps(s: Sys, actions: seq<Action>): seq<FT.Op>
    decreases |actions|
  {
    if actions == [] || !Apply(s, actions[0]).Next? then []
    else FdOps(s, actions[0]) + AllFdOps(Apply(s, actions[0]).s, actions[1..])
  }

  lemma {:induction false} StepAllConcat(t: FT.Table, a: seq<FT.Op>, b: seq<FT.Op>)
    ensures FT.StepAll(t, a + b) == FT.StepAll(FT.StepAll(t, a), b)
    decreases |a|
  {
    if a == [] {
      assert a + b == b;
    } else {
      assert (a + b)[1..] == a[1..] + b;
      StepAllConcat(FT.Step(t, a[0]), a[1..], b);
    }
  }

  lemma PickLeavesFds(s: Sys)
    requires Inv(s) && s.worker.Picking?
    ensures DoPick(s).Next? ==> DoPick(s).s.io == s.io
  {
  }

  // Over every careful run the fd table stands for the map that the run's calls of the fd API lead to.
  lemma {:induction false} RunFds(s: Sys, actions: seq<Action>, t: FT.Table)
    requires Inv(s) && CarefulRun(s, actions) && RunAll(s, actions).Next? && FT.Represents(s.io, t)
    ensures FT.Represents(RunAll(s, actions).s.io, FT.StepAll(t, AllFdOps(s, actions)))
    decreases |actions|
  {
    if actions != [] {
      var a, s1 := actions[0], Apply(s, actions[0]).s;
      ApplyKeepsInv(s, a);
      if a.Pick? {
        WorkerStep(s, a);
        PickLeavesFds(s);
      } else {
        StepIsTable(s, a, t);
      }
      RunFds(s1, actions[1..], FT.StepAll(t, FdOps(s, a)));
      StepAllConcat(t, FdOps(s, a), AllFdOps(s1, actions[1..]));
    }
  }
}
