// The steps of the running fiber preserve the invariant.
module FiberSteps {
  import opened Common
  import opened Runtime
  import opened WakeTokens
  import opened RuntimeInvariant
  import opened RuntimeSteps
  import T = Timers
  import F = FdEvents

  ghost predicate Runs(s: Sys, f: nat) {
    Inv(s) && s.worker == Executing(f)
  }

  // Tokens not counting a callback in flight.
  ghost function StoredTokens(s: Sys, f: nat): nat {
    TasksTok(s.tasks, f) + FdsTok(s.io.fds, f) + TimersTok(s.timers.entries, f)
  }

  lemma StopRunningWake(s: Sys, s1: Sys, f: nat, fb: Fiber)
    requires Runs(s, f) && fb.state != RUNNING
    requires forall g: nat :: StoredTokens(s1, g) == WakeSources(s, g) + if fb.state == READY && g == f then 1 else 0
    ensures WakeOk(s1.(fibers := s.fibers[f := fb], worker := Picking))
  {
    var s2 := s1.(fibers := s.fibers[f := fb], worker := Picking);
    forall g: nat ensures WakeSources(s2, g) == if IsReady(s2.fibers, g) then 1 else 0 {
      assert WakeSources(s, g) == if IsReady(s.fibers, g) then 1 else 0;
      assert WakeSources(s2, g) == StoredTokens(s1, g);
    }
  }

  // The running fiber f stops running and becomes fb; s1 is s with what it queued or armed on
  // the way. A suspended fiber must have left exactly one token of itself behind.
  lemma StopRunning(s: Sys, s1: Sys, f: nat, fb: Fiber)
    requires Runs(s, f)
    requires s1 == s.(tasks := s1.tasks, scheduled := s1.scheduled, timers := s1.timers, io := s1.io,
                         armings := s1.armings)
    requires s1.scheduled - |s1.tasks| == s.scheduled - |s.tasks|
    requires fb.state != RUNNING && PcOk(fb) && !fb.pc.Fresh?
    requires forall g: nat :: StoredTokens(s1, g) == WakeSources(s, g) + if fb.state == READY && g == f then 1 else 0
    requires var fibers := s.fibers[f := fb];
             CallsOk(fibers, s.calls, s.live) && TimeoutsOk(s1.timers, fibers, s.calls)
    requires OriginsOk(s1.tasks, s.fibers, s.live, s.expiries) && IoOk(s1.io)
    ensures Inv(s1.(fibers := s.fibers[f := fb], worker := Picking,
                    active := s.active - 1, completed := s.completed + 1))
  {
    StopRunningWake(s, s1, f, fb);
    var s2 := s1.(fibers := s.fibers[f := fb], worker := Picking);
    var s3 := s2.(active := s.active - 1, completed := s.completed + 1);
    assert WakeOk(s3) by {
      assert forall g: nat :: WakeSources(s3, g) == WakeSources(s2, g);
    }
  }

  lemma SuspendKeepsInv(s: Sys, s1: Sys, f: nat, pc: Pc)
    requires Runs(s, f)
    requires s1 == s.(tasks := s1.tasks, scheduled := s1.scheduled, timers := s1.timers, io := s1.io,
                         armings := s1.armings)
    requires s1.scheduled - |s1.tasks| == s.scheduled - |s.tasks|
    requires pc.Waiting? || pc.Sleeping? || pc.Yielded?
    requires forall g: nat :: StoredTokens(s1, g) == WakeSources(s, g) + if g == f then 1 else 0
    requires var fibers := s.fibers[f := Fiber(READY, pc)];
             CallsOk(fibers, s.calls, s.live) && TimeoutsOk(s1.timers, fibers, s.calls)
    requires OriginsOk(s1.tasks, s.fibers, s.live, s.expiries) && IoOk(s1.io)
    ensures Suspend(s1, f, pc).Next? && Inv(Suspend(s1, f, pc).s)
  {
    StopRunning(s, s1, f, Fiber(READY, pc));
  }

  // ---------------------------------------------------------------- ending

  lemma TerminateKeepsInv(s: Sys, s1: Sys, f: nat)
    requires Runs(s, f) && CallOf(s.fibers[f].pc).None?
    requires s1 == s.(tasks := s1.tasks, scheduled := s1.scheduled)
    requires s1.scheduled - |s1.tasks| == s.scheduled - |s.tasks|
    requires forall g: nat :: StoredTokens(s1, g) == WakeSources(s, g)
    requires OriginsOk(s1.tasks, s.fibers, s.live, s.expiries)
    ensures Terminate(s1, f).Next? && Inv(Terminate(s1, f).s)
  {
    OutsideCallKeepsCalls(s, f, Fiber(TERM, Ended));
    StopRunning(s, s1, f, Fiber(TERM, Ended));
  }

  // Ending without having queued anything.
  lemma FinishKeepsInv(s: Sys, f: nat)
    requires Runs(s, f) && CallOf(s.fibers[f].pc).None? && NothingInFlight(s)
    ensures Terminate(s, f).Next? && Inv(Terminate(s, f).s)
  {
    TerminateKeepsInv(s, s, f);
  }

  // ---------------------------------------------------------------- staying outside do_io

  ghost predicate NothingInFlight(s: Sys) {
    forall g: nat :: InFlight(s.worker, s.fibers, g) == 0
  }

  lemma PcChangeWake(s: Sys, f: nat, pc: Pc)
    requires Runs(s, f) && NothingInFlight(s) && !pc.Fresh?
    ensures WakeOk(SetPc(s, f, pc))
  {
    var s' := SetPc(s, f, pc);
    forall g: nat ensures WakeSources(s', g) == if IsReady(s'.fibers, g) then 1 else 0 {
      assert WakeSources(s, g) == if IsReady(s.fibers, g) then 1 else 0;
    }
  }

  // A running fiber moves on in its code; no token is involved.
  lemma PcChange(s: Sys, f: nat, pc: Pc, calls: seq<Call>, live: map<nat, bool>)
    requires Runs(s, f) && NothingInFlight(s) && !pc.Fresh? && !pc.Ended?
    requires CallsOk(SetPc(s, f, pc).fibers, calls, live) && TimeoutsOk(s.timers, SetPc(s, f, pc).fibers, calls)
    requires OriginsOk(s.tasks, SetPc(s, f, pc).fibers, live, s.expiries)
    ensures Inv(SetPc(s, f, pc).(calls := calls, live := live))
  {
    var s1 := SetPc(s, f, pc);
    PcChangeWake(s, f, pc);
    var s2 := s1.(calls := calls, live := live);
    assert WakeOk(s2) by {
      assert forall g: nat :: WakeSources(s2, g) == WakeSources(s1, g);
    }
  }

  // A change of program counter that holds no callback and no do_io call on either side.
  lemma SetPcKeepsInv(s: Sys, f: nat, pc: Pc)
    requires Runs(s, f) && CallOf(s.fibers[f].pc).None? && CallOf(pc).None? && !pc.Fresh? && !pc.Ended?
    requires NothingInFlight(s)
    ensures Inv(SetPc(s, f, pc))
  {
    OutsideCallKeepsCalls(s, f, s.fibers[f].(pc := pc));
    PcChange(s, f, pc, s.calls, s.live);
    assert SetPc(s, f, pc).(calls := s.calls, live := s.live) == SetPc(s, f, pc);
  }

  // sleep's callback: its token moves to the queue.
  lemma BeginWakeKeepsInv(s: Sys, f: nat, g: nat)
    requires Runs(s, f) && s.fibers[f].pc == Fresh(CallbackBody(WakeFiber(g)))
    ensures Terminate(Push(s, [FiberWork(g)]), f).Next? && Inv(Terminate(Push(s, [FiberWork(g)]), f).s)
  {
    var s1 := Push(s, [FiberWork(g)]);
    forall h: nat ensures StoredTokens(s1, h) == WakeSources(s, h) {
      TasksTokAppend(s.tasks, TasksOf([FiberWork(g)]), h);
      TasksOfTok([FiberWork(g)], h);
      assert [FiberWork(g)][1..] == [];
    }
    TerminateKeepsInv(s, s1, f);
  }

  lemma CancelledKeepsInv(s: Sys, info: nat)
    requires Inv(s) && info in s.live && Expired(s.expiries, info)
    ensures Inv(s.(live := s.live[info := true]))
  {
    assert forall f: nat :: WakeSources(s.(live := s.live[info := true]), f) == WakeSources(s, f);
  }

  // Where the program can use the fd API.
  predicate InProgram(s: Sys) {
    s.worker.Executing? || s.worker.Boot?
  }

  lemma CancelEventKeepsInv(s: Sys, fd: nat, ev: Event, granted: bool)
    requires Inv(s) && InProgram(s)
    ensures var r := WithIo(s, F.CancelEvent(s.io, fd, ev, granted));
            r.Next? && Inv(r.s) && r.s.fibers == s.fibers && r.s.worker == s.worker
  {
    CancelEventIoOk(s.io, fd, ev, granted);
    var r := F.CancelEvent(s.io, fd, ev, granted);
    forall f: nat ensures FdsTok(r.st.fds, f) + WorksTok(r.works, f) == FdsTok(s.io.fds, f) {
      CancelEventTokens(s.io, fd, ev, granted, f);
    }
    IoMoveKeepsInv(s, r.st, r.works);
  }

  lemma CancelAllKeepsInv(s: Sys, fd: nat)
    requires Inv(s) && InProgram(s)
    ensures var r := WithIo(s, F.CancelAll(s.io, fd)); r.Next? && Inv(r.s)
  {
    CancelAllIoOk(s.io, fd);
    var r := F.CancelAll(s.io, fd);
    forall f: nat ensures FdsTok(r.st.fds, f) + WorksTok(r.works, f) == FdsTok(s.io.fds, f) {
      CancelAllTokens(s.io, fd, f);
    }
    IoMoveKeepsInv(s, r.st, r.works);
  }

  // close: cancelAll where the fd is known, and nothing at all where it is not but has no event.
  lemma CloseKeepsInv(s: Sys, fd: nat, known: bool)
    requires Inv(s) && InProgram(s) && CloseHarmless(s.io, fd, known)
    ensures var r := WithIo(s, F.Close(s.io, fd, known)); r.Next? && Inv(r.s)
  {
    F.CloseCoherentExactly(s.io, fd, known);
    if known {
      CancelAllKeepsInv(s, fd);
    } else {
      assert Push(s, []) == s by {
        assert TasksOf([]) == [] && s.tasks + [] == s.tasks;
      }
      assert s.(io := s.io) == s;
    }
  }

  lemma NoDroppedToken(io: F.IoState, fd: nat, ev: Event, f: nat)
    requires IoOk(io) && !DropsFiber(io, fd, ev) && fd < |io.fds| && ev in io.fds[fd].events
    ensures WorksTok(F.SlotWork(io.fds[fd].Get(ev)), f) == 0
  {
  }

  lemma DelEventKeepsInv(s: Sys, fd: nat, ev: Event, granted: bool)
    requires Inv(s) && InProgram(s) && !DropsFiber(s.io, fd, ev)
    ensures var r := WithIo(s, F.DelEvent(s.io, fd, ev, granted)); r.Next? && Inv(r.s)
  {
    DelEventIoOk(s.io, fd, ev, granted);
    F.DelEventCoherent(s.io, fd, ev, granted);
    var r := F.DelEvent(s.io, fd, ev, granted);
    forall f: nat ensures FdsTok(r.st.fds, f) + WorksTok(r.works, f) == FdsTok(s.io.fds, f) {
      DelEventTokens(s.io, fd, ev, granted, f);
      if r.ok {
        NoDroppedToken(s.io, fd, ev, f);
      }
    }
    IoMoveKeepsInv(s, r.st, []);
  }

  lemma WatchKeepsInv(s: Sys, fd: nat, ev: Event, tag: nat, granted: bool)
    requires Inv(s) && InProgram(s)
    ensures var r := WithIo(s, F.AddEvent(s.io, fd, ev, CbWork(UserCb(tag)), granted));
            && (r.Abort? ==> r.assertion == Io(F.DoubleRegistration))
            && (r.Next? ==> Inv(r.s)) && !r.Disabled?
  {
    var o := F.AddEvent(s.io, fd, ev, CbWork(UserCb(tag)), granted);
    AddEventIoOk(s.io, fd, ev, CbWork(UserCb(tag)), granted);
    if o.Done? {
      forall f: nat ensures FdsTok(o.st.fds, f) + WorksTok([], f) == FdsTok(s.io.fds, f) {
        AddEventTokens(s.io, fd, ev, CbWork(UserCb(tag)), granted, f);
      }
      IoMoveKeepsInv(s, o.st, []);
    }
  }

  // do_io's timeout callback marks the call and cancels its event, whoever waits there.
  function MarkAndCancel(s: Sys, info: nat, fd: nat, ev: Event, granted: bool): Result {
    WithIo(s.(live := s.live[info := true]), F.CancelEvent(s.io, fd, ev, granted))
  }

  lemma MarkAndCancelKeepsInv(s: Sys, f: nat, info: nat, fd: nat, ev: Event, granted: bool)
    requires Runs(s, f) && info in s.live && Expired(s.expiries, info)
    ensures var r := MarkAndCancel(s, info, fd, ev, granted);
            r.Next? && Runs(r.s, f) && r.s.fibers == s.fibers
  {
    CancelledKeepsInv(s, info);
    CancelEventKeepsInv(s.(live := s.live[info := true]), fd, ev, granted);
  }

  lemma TimeoutShape(s: Sys, f: nat, info: nat, fd: nat, ev: Event, granted: bool)
    requires f in s.fibers && s.fibers[f].pc == Fresh(CallbackBody(IoTimeout(info, fd, ev)))
    requires MarkAndCancel(s, info, fd, ev, granted).Next? && f in MarkAndCancel(s, info, fd, ev, granted).s.fibers
    ensures DoBegin(s, f, granted)
         == Terminate(if info !in s.live || s.live[info] then s else MarkAndCancel(s, info, fd, ev, granted).s, f)
  {
  }

  // It does nothing if its call is over or has timed out already.
  lemma BeginTimeoutKeepsInv(s: Sys, f: nat, info: nat, fd: nat, ev: Event, granted: bool)
    requires Runs(s, f) && s.fibers[f].pc == Fresh(CallbackBody(IoTimeout(info, fd, ev)))
    ensures DoBegin(s, f, granted).Next? && Inv(DoBegin(s, f, granted).s)
  {
    assert CbOrigin(IoTimeout(info, fd, ev), s.expiries);
    if info !in s.live || s.live[info] {
      FinishKeepsInv(s, f);
    } else {
      MarkAndCancelKeepsInv(s, f, info, fd, ev, granted);
      TimeoutShape(s, f, info, fd, ev, granted);
      FinishKeepsInv(MarkAndCancel(s, info, fd, ev, granted).s, f);
    }
  }

  lemma BeginKeepsInv(s: Sys, f: nat, granted: bool)
    requires Runs(s, f) && s.fibers[f].pc.Fresh?
    ensures DoBegin(s, f, granted).Next? && Inv(DoBegin(s, f, granted).s)
  {
    match s.fibers[f].pc.body
    case UserBody => SetPcKeepsInv(s, f, User);
    case CallbackBody(UserCb(_)) => SetPcKeepsInv(s, f, User);
    case CallbackBody(WakeFiber(g)) => BeginWakeKeepsInv(s, f, g);
    case CallbackBody(IoTimeout(info, fd, ev)) => BeginTimeoutKeepsInv(s, f, info, fd, ev, granted);
  }

  // ---------------------------------------------------------------- sleep and yield

  lemma SleepKeepsInv(s: Sys, f: nat, ms: Word)
    requires Runs(s, f) && s.fibers[f].pc.User?
    ensures DoSleep(s, f, ms).Next? && Inv(DoSleep(s, f, ms).s)
  {
    var s1 := ArmOwn(s, ms, WakeFiber(f));
    var ts := s1.timers;
    var fb := Fiber(READY, Sleeping(s.timers.nextId));
    T.AddTimerKeepsValid(s.timers, ms, Some(WakeFiber(f)), false, s.now);
    OutsideCallKeepsCalls(s, f, fb);
    assert TimeoutsOk(ts, s.fibers[f := fb], s.calls) by {
      assert TimeoutsOk(s.timers, s.fibers[f := fb], s.calls);
    }
    forall g: nat ensures StoredTokens(s1, g) == WakeSources(s, g) + if g == f then 1 else 0 {
      AddTimerTokens(s.timers, ms, Some(WakeFiber(f)), false, s.now, g);
    }
    SuspendKeepsInv(s, s1, f, fb.pc);
  }

  lemma YieldNowKeepsInv(s: Sys, f: nat)
    requires Runs(s, f) && s.fibers[f].pc.User?
    ensures var r := Suspend(Push(s, [FiberWork(f)]), f, Yielded); r.Next? && Inv(r.s)
  {
    var s1 := Push(s, [FiberWork(f)]);
    OutsideCallKeepsCalls(s, f, Fiber(READY, Yielded));
    forall g: nat ensures StoredTokens(s1, g) == WakeSources(s, g) + if g == f then 1 else 0 {
      TasksTokAppend(s.tasks, TasksOf([FiberWork(f)]), g);
      TasksOfTok([FiberWork(f)], g);
      assert [FiberWork(f)][1..] == [];
    }
    SuspendKeepsInv(s, s1, f, Yielded);
  }

  // ---------------------------------------------------------------- do_io

  lemma IoStartCalls(s: Sys, f: nat, c: IoCall)
    requires Runs(s, f) && s.fibers[f].pc.User? && c.info == |s.calls|
    ensures var fibers := SetPc(s, f, Trying(c)).fibers;
            var calls := s.calls + [Call(f, c.fd, c.ev, c.to)];
            CallsOk(fibers, calls, s.live[c.info := false]) && TimeoutsOk(s.timers, fibers, calls)
  {
    var fibers := SetPc(s, f, Trying(c)).fibers;
    var calls := s.calls + [Call(f, c.fd, c.ev, c.to)];
    forall i | i in s.live[c.info := false] ensures i < |calls| && InCall(fibers, calls[i].owner, i) {
      if i != c.info { assert InCall(s.fibers, s.calls[i].owner, i); }
    }
  }

  lemma IoStartKeepsInv(s: Sys, f: nat, fd: nat, ev: Event, to: Option<Word>)
    requires Runs(s, f) && s.fibers[f].pc.User?
    ensures Inv(DoIoStart(s, f, fd, ev, to))
  {
    var c := IoCall(|s.calls|, fd, ev, to);
    var calls := s.calls + [Call(f, fd, ev, to)];
    IoStartCalls(s, f, c);
    PcChange(s, f, Trying(c), calls, s.live[c.info := false]);
    assert DoIoStart(s, f, fd, ev, to) == SetPc(s, f, Trying(c)).(calls := calls, live := s.live[c.info := false]);
  }

  // No timer in the set belongs to f's call.
  ghost predicate NoOwnTimer(s: Sys, f: nat) {
    forall e :: e in s.timers.entries && IsTimeout(e.cb) ==>
      e.cb.value.info < |s.calls| && s.calls[e.cb.value.info].owner != f
  }

  lemma LeaveCalls(s: Sys, f: nat, c: IoCall)
    requires Runs(s, f) && CallOf(s.fibers[f].pc) == Some(c) && NoOwnTimer(s, f)
    ensures CallsOk(SetPc(s, f, User).fibers, s.calls, s.live - {c.info})
    ensures TimeoutsOk(s.timers, SetPc(s, f, User).fibers, s.calls)
  {
    var fibers := SetPc(s, f, User).fibers;
    forall i | i in s.live - {c.info} ensures i < |s.calls| && InCall(fibers, s.calls[i].owner, i) {
      assert InCall(s.fibers, s.calls[i].owner, i);
    }
  }

  lemma LeaveKeepsInv(s: Sys, f: nat, c: IoCall)
    requires Runs(s, f) && CallOf(s.fibers[f].pc) == Some(c) && NoOwnTimer(s, f)
    ensures Inv(Leave(s, f, c.info))
  {
    LeaveCalls(s, f, c);
    PcChange(s, f, User, s.calls, s.live - {c.info});
    assert Leave(s, f, c.info) == SetPc(s, f, User).(calls := s.calls, live := s.live - {c.info});
  }

  lemma TryingHasNoTimer(s: Sys, f: nat)
    requires Runs(s, f) && s.fibers[f].pc.Trying?
    ensures NoOwnTimer(s, f)
  {
  }

  lemma RetryCalls(s: Sys, f: nat, c: IoCall)
    requires Runs(s, f) && CallOf(s.fibers[f].pc) == Some(c) && NoOwnTimer(s, f)
    ensures CallsOk(SetPc(s, f, Trying(c)).fibers, s.calls, s.live)
    ensures TimeoutsOk(s.timers, SetPc(s, f, Trying(c)).fibers, s.calls)
  {
    var fibers := SetPc(s, f, Trying(c)).fibers;
    forall i | i in s.live ensures i < |s.calls| && InCall(fibers, s.calls[i].owner, i) {
      assert InCall(s.fibers, s.calls[i].owner, i);
    }
  }

  lemma RetryKeepsInv(s: Sys, f: nat, c: IoCall)
    requires Runs(s, f) && CallOf(s.fibers[f].pc) == Some(c) && NoOwnTimer(s, f)
    ensures Inv(SetPc(s, f, Trying(c)))
  {
    RetryCalls(s, f, c);
    PcChange(s, f, Trying(c), s.calls, s.live);
    assert SetPc(s, f, Trying(c)).(calls := s.calls, live := s.live) == SetPc(s, f, Trying(c));
  }

  // Back from yield: after the cancel no timer of the call is left in the set.
  lemma CancelOwnTimer(s: Sys, f: nat, id: nat)
    requires Runs(s, f) && s.fibers[f].pc.Waiting? && s.fibers[f].pc.timer == Some(id)
    ensures var s1 := s.(timers := T.Cancel(s.timers, id).0); Inv(s1) && NoOwnTimer(s1, f)
  {
    var ts := T.Cancel(s.timers, id).0;
    T.CancelRemoves(s.timers, id);
    forall g: nat ensures TimersTok(ts.entries, g) == TimersTok(s.timers.entries, g) {
      var i := T.IndexOf(s.timers.entries, id);
      if i < |s.timers.entries| {
        assert s.timers.entries[i] in s.timers.entries;
      }
      TimerCallTokens(s.timers, id, 0, 0, false, s.now, g);
    }
    TimerMoveKeepsInv(s, ts);
  }

  lemma IoResumeKeepsInv(s: Sys, f: nat)
    requires Runs(s, f) && s.fibers[f].pc.Waiting?
    ensures Inv(DoIoResume(s, f, s.fibers[f].pc.call, s.fibers[f].pc.timer))
  {
    var c, timer := s.fibers[f].pc.call, s.fibers[f].pc.timer;
    var s1 := s.(timers := if timer.None? then s.timers else T.Cancel(s.timers, timer.value).0);
    if timer.Some? {
      CancelOwnTimer(s, f, timer.value);
    }
    if TimedOut(s, c.info) {
      LeaveKeepsInv(s1, f, c);
    } else {
      RetryKeepsInv(s1, f, c);
    }
  }

  lemma ArmedTokens(s: Sys, c: IoCall, g: nat)
    ensures TimersTok(ArmTimeout(s, c).timers.entries, g) == TimersTok(s.timers.entries, g)
  {
    if c.to.Some? {
      AddTimerTokens(s.timers, c.to.value, Some(IoTimeout(c.info, c.fd, c.ev)), false, s.now, g);
    }
  }

  // Registration refused: cancelling the timer just armed restores the timer set.
  lemma DisarmedTimers(s: Sys, f: nat, c: IoCall)
    requires Runs(s, f) && s.fibers[f].pc == Trying(c)
    ensures var ts := if c.to.None? then s.timers else T.Cancel(ArmTimeout(s, c).timers, s.timers.nextId).0;
            UserChange(s.timers, ts) && (forall e :: e in ts.entries ==> e in s.timers.entries)
            && forall g: nat :: TimersTok(ts.entries, g) == TimersTok(s.timers.entries, g)
  {
    if c.to.Some? {
      var armed := ArmTimeout(s, c).timers;
      var cb := Some(IoTimeout(c.info, c.fd, c.ev));
      var e := T.NewEntry(s.timers.nextId, c.to.value, cb, false, s.now);
      T.AddTimerKeepsValid(s.timers, c.to.value, cb, false, s.now);
      T.CancelRemoves(armed, s.timers.nextId);
      T.OnlyOneById(armed.entries, s.timers.nextId);
      assert e in armed.entries;
      forall g: nat ensures TimersTok(T.Cancel(armed, s.timers.nextId).0.entries, g) == TimersTok(s.timers.entries, g) {
        ArmedTokens(s, c, g);
        TimerCallTokens(armed, s.timers.nextId, 0, 0, false, s.now, g);
      }
    }
  }

  lemma IoWaitRefusedKeepsInv(s: Sys, f: nat, c: IoCall)
    requires Runs(s, f) && s.fibers[f].pc == Trying(c)
    requires var o := F.AddEvent(s.io, c.fd, c.ev, FiberWork(f), false); o.Done? && !o.ok
    ensures var r := DoIoWait(s, f, c, false); r.Next? && Inv(r.s)
  {
    var o := F.AddEvent(s.io, c.fd, c.ev, FiberWork(f), false);
    AddEventIoOk(s.io, c.fd, c.ev, FiberWork(f), false);
    forall g: nat ensures FdsTok(o.st.fds, g) + WorksTok([], g) == FdsTok(s.io.fds, g) {
      AddEventTokens(s.io, c.fd, c.ev, FiberWork(f), false, g);
    }
    IoMoveKeepsInv(s, o.st, []);
    var s1 := s.(io := o.st);
    assert Push(s1, []) == s1 by {
      assert TasksOf([]) == [] && s.tasks + [] == s.tasks;
    }
    var ts := if c.to.None? then s.timers else T.Cancel(ArmTimeout(s, c).timers, s.timers.nextId).0;
    DisarmedTimers(s, f, c);
    TimerMoveKeepsInv(s1, ts);
    TryingHasNoTimer(s1.(timers := ts), f);
    LeaveKeepsInv(s1.(timers := ts), f, c);
  }

  function WaitingPc(s: Sys, c: IoCall): Pc {
    Waiting(c, if c.to.None? then None else Some(s.timers.nextId))
  }

  lemma WaitingCallsOk(s: Sys, f: nat, c: IoCall)
    requires Runs(s, f) && s.fibers[f].pc == Trying(c)
    ensures CallsOk(s.fibers[f := Fiber(READY, WaitingPc(s, c))], s.calls, s.live)
  {
    var fibers := s.fibers[f := Fiber(READY, WaitingPc(s, c))];
    forall i | i in s.live ensures i < |s.calls| && InCall(fibers, s.calls[i].owner, i) {
      assert InCall(s.fibers, s.calls[i].owner, i);
    }
  }

  function WaitingFibers(s: Sys, f: nat, c: IoCall): map<nat, Fiber> {
    s.fibers[f := Fiber(READY, WaitingPc(s, c))]
  }

  // The timers of other calls do not notice.
  lemma OldTimeoutTimers(s: Sys, f: nat, c: IoCall)
    requires Runs(s, f) && s.fibers[f].pc == Trying(c)
    ensures forall e :: e in s.timers.entries && IsTimeout(e.cb) ==> TimeoutTimer(e, WaitingFibers(s, f, c), s.calls)
  {
    TryingHasNoTimer(s, f);
    forall e | e in s.timers.entries && IsTimeout(e.cb) ensures TimeoutTimer(e, WaitingFibers(s, f, c), s.calls) {
      assert TimeoutTimer(e, s.fibers, s.calls);
    }
  }

  // The timer armed is that of the call now waiting.
  lemma NewTimeoutTimer(s: Sys, f: nat, c: IoCall)
    requires Runs(s, f) && s.fibers[f].pc == Trying(c) && c.to.Some?
    ensures TimeoutTimer(T.NewEntry(s.timers.nextId, c.to.value, Some(IoTimeout(c.info, c.fd, c.ev)), false, s.now),
                         WaitingFibers(s, f, c), s.calls)
  {
    assert CallOf(s.fibers[f].pc) == Some(c);
  }

  ghost predicate TimerIdsOk(ts: T.TimerState, fibers: map<nat, Fiber>) {
    forall f :: f in fibers && fibers[f].pc.Waiting? && fibers[f].pc.timer.Some? ==>
      && fibers[f].pc.timer.value < ts.nextId
      && forall e :: e in ts.entries && e.id == fibers[f].pc.timer.value ==> IsTimeout(e.cb)
  }

  // A waiting fiber's timer id names a timeout timer, if a timer at all.
  lemma WaitingTimerIds(s: Sys, f: nat, c: IoCall)
    requires Runs(s, f) && s.fibers[f].pc == Trying(c)
    ensures TimerIdsOk(ArmTimeout(s, c).timers, WaitingFibers(s, f, c))
  {
    if c.to.Some? {
      T.AddTimerKeepsValid(s.timers, c.to.value, Some(IoTimeout(c.info, c.fd, c.ev)), false, s.now);
    }
    var ts, fibers := ArmTimeout(s, c).timers, WaitingFibers(s, f, c);
    forall g | g in fibers && fibers[g].pc.Waiting? && fibers[g].pc.timer.Some?
      ensures fibers[g].pc.timer.value < ts.nextId
      ensures forall e :: e in ts.entries && e.id == fibers[g].pc.timer.value ==> IsTimeout(e.cb)
    {
      if g != f {
        assert fibers[g] == s.fibers[g];
      }
    }
  }

  lemma ArmedTimersOk(s: Sys, f: nat, c: IoCall)
    requires Runs(s, f) && s.fibers[f].pc == Trying(c)
    ensures TimeoutsOk(ArmTimeout(s, c).timers, WaitingFibers(s, f, c), s.calls)
  {
    OldTimeoutTimers(s, f, c);
    WaitingTimerIds(s, f, c);
    if c.to.Some? {
      T.AddTimerKeepsValid(s.timers, c.to.value, Some(IoTimeout(c.info, c.fd, c.ev)), false, s.now);
      NewTimeoutTimer(s, f, c);
    }
  }

  lemma WaitTokens(s: Sys, f: nat, c: IoCall)
    requires Runs(s, f) && NothingInFlight(s)
    requires F.AddEvent(s.io, c.fd, c.ev, FiberWork(f), true).Done?
    ensures var s1 := ArmTimeout(s, c).(io := F.AddEvent(s.io, c.fd, c.ev, FiberWork(f), true).st);
            forall g: nat :: StoredTokens(s1, g) == WakeSources(s, g) + if g == f then 1 else 0
  {
    F.AddEventCoherent(s.io, c.fd, c.ev, FiberWork(f), true);
    forall g: nat
      ensures FdsTok(F.AddEvent(s.io, c.fd, c.ev, FiberWork(f), true).st.fds, g)
           == FdsTok(s.io.fds, g) + if g == f then 1 else 0
      ensures TimersTok(ArmTimeout(s, c).timers.entries, g) == TimersTok(s.timers.entries, g)
    {
      AddEventTokens(s.io, c.fd, c.ev, FiberWork(f), true, g);
      ArmedTokens(s, c, g);
    }
  }

  lemma WaitShape(s: Sys, f: nat, c: IoCall)
    requires f in s.fibers && s.fibers[f].state == RUNNING
    requires var o := F.AddEvent(s.io, c.fd, c.ev, FiberWork(f), true); o.Done? && o.ok
    ensures DoIoWait(s, f, c, true)
         == Suspend(ArmTimeout(s, c).(io := F.AddEvent(s.io, c.fd, c.ev, FiberWork(f), true).st),
                    f, WaitingPc(s, c))
  {
  }

  lemma IoWaitKeepsInv(s: Sys, f: nat, c: IoCall)
    requires Runs(s, f) && s.fibers[f].pc == Trying(c)
    requires F.AddEvent(s.io, c.fd, c.ev, FiberWork(f), true).Done?
    ensures var r := DoIoWait(s, f, c, true); r.Next? && Inv(r.s)
  {
    var io := F.AddEvent(s.io, c.fd, c.ev, FiberWork(f), true).st;
    var s1 := ArmTimeout(s, c).(io := io);
    var pc := WaitingPc(s, c);
    WaitingCallsOk(s, f, c);
    AddEventIoOk(s.io, c.fd, c.ev, FiberWork(f), true);
    WaitShape(s, f, c);
    ArmedTimersOk(s, f, c);
    WaitTokens(s, f, c);
    SuspendKeepsInv(s, s1, f, pc);
  }

  lemma IoWaitOutcome(s: Sys, f: nat, granted: bool)
    requires Runs(s, f) && s.fibers[f].pc.Trying?
    ensures var r := DoIoWait(s, f, s.fibers[f].pc.call, granted);
            && (r.Abort? ==> r.assertion == Io(F.DoubleRegistration))
            && (r.Next? ==> Inv(r.s)) && !r.Disabled?
  {
    var c := s.fibers[f].pc.call;
    var o := F.AddEvent(s.io, c.fd, c.ev, FiberWork(f), granted);
    AddEventIoOk(s.io, c.fd, c.ev, FiberWork(f), granted);
    if o.Done? {
      if granted { IoWaitKeepsInv(s, f, c); } else { IoWaitRefusedKeepsInv(s, f, c); }
    }
  }

  lemma FdStepKeepsInv(s: Sys, a: Action)
    requires Inv(s) && InProgram(s) && OnFds(a) && Careful(s, a)
    ensures var r := ApplyOnFds(s, a);
            (r.Abort? ==> r.assertion == Io(F.DoubleRegistration)) && (r.Next? ==> Inv(r.s))
  {
    match a
    case Watch(fd, ev, tag, granted) => WatchKeepsInv(s, fd, ev, tag, granted);
    case CancelAll(fd) => CancelAllKeepsInv(s, fd);
    case CancelEvent(fd, ev, granted) => CancelEventKeepsInv(s, fd, ev, granted);
    case DelEvent(fd, ev, granted) => if !DropsFiber(s.io, fd, ev) { DelEventKeepsInv(s, fd, ev, granted); }
    case Close(fd, known) => CloseKeepsInv(s, fd, known);
  }

  // ---------------------------------------------------------------- parking

  // Each registration that is granted puts one token of the fiber into the table.
  lemma {:induction false} AddSelfTokens(io: F.IoState, f: nat, regs: seq<F.Registration>, g: nat)
    requires IoOk(io)
    ensures var r := F.AddSelf(io, f, regs);
            && (r.Fails? ==> r.assertion == F.DoubleRegistration)
            && (r.Done? ==>
                  && IoOk(r.st)
                  && FdsTok(r.st.fds, g) == FdsTok(io.fds, g) + if g == f then F.GrantedOf(regs) else 0)
    decreases |regs|
  {
    if regs != [] {
      AddEventIoOk(io, regs[0].fd, regs[0].ev, FiberWork(f), regs[0].granted);
      var r := F.AddEvent(io, regs[0].fd, regs[0].ev, FiberWork(f), regs[0].granted);
      if r.Done? {
        AddEventTokens(io, regs[0].fd, regs[0].ev, FiberWork(f), regs[0].granted, g);
        AddSelfTokens(r.st, f, regs[1..], g);
      }
    }
  }

  function ArmSleep(s: Sys, f: nat, sleep: Option<Word>): Sys {
    if sleep.None? then s else ArmOwn(s, sleep.value, WakeFiber(f))
  }

  // The sources a parked fiber has left.
  function Sources(regs: seq<F.Registration>, sleep: Option<Word>): nat {
    F.GrantedOf(regs) + if sleep.Some? then 1 else 0
  }

  function ParkedPc(s: Sys, sleep: Option<Word>): Pc {
    if sleep.None? then Yielded else Sleeping(s.timers.nextId)
  }

  lemma ParkShape(s: Sys, f: nat, regs: seq<F.Registration>, sleep: Option<Word>)
    requires f in s.fibers && s.fibers[f].state == RUNNING && F.AddSelf(s.io, f, regs).Done?
    ensures DoPark(s, f, regs, sleep)
         == Suspend(ArmSleep(s, f, sleep).(io := F.AddSelf(s.io, f, regs).st), f, ParkedPc(s, sleep))
  {
  }

  lemma ParkTokens(s: Sys, f: nat, regs: seq<F.Registration>, sleep: Option<Word>, g: nat)
    requires Runs(s, f) && s.fibers[f].pc.User? && F.AddSelf(s.io, f, regs).Done?
    ensures var s1 := ArmSleep(s, f, sleep).(io := F.AddSelf(s.io, f, regs).st);
            StoredTokens(s1, g) == WakeSources(s, g) + if g == f then Sources(regs, sleep) else 0
  {
    AddSelfTokens(s.io, f, regs, g);
    if sleep.Some? {
      AddTimerTokens(s.timers, sleep.value, Some(WakeFiber(f)), false, s.now, g);
    }
  }

  lemma SleepTimersOk(s: Sys, f: nat, sleep: Option<Word>, fb: Fiber)
    requires Runs(s, f) && s.fibers[f].pc.User? && CallOf(fb.pc).None?
    ensures CallsOk(s.fibers[f := fb], s.calls, s.live)
    ensures TimeoutsOk(ArmSleep(s, f, sleep).timers, s.fibers[f := fb], s.calls)
  {
    OutsideCallKeepsCalls(s, f, fb);
    if sleep.Some? {
      T.AddTimerKeepsValid(s.timers, sleep.value, Some(WakeFiber(f)), false, s.now);
    }
  }

  lemma ParkedKeepsInv(s: Sys, f: nat, regs: seq<F.Registration>, sleep: Option<Word>)
    requires Runs(s, f) && s.fibers[f].pc.User? && Sources(regs, sleep) == 1 && F.AddSelf(s.io, f, regs).Done?
    ensures var r := Suspend(ArmSleep(s, f, sleep).(io := F.AddSelf(s.io, f, regs).st), f, ParkedPc(s, sleep));
            r.Next? && Inv(r.s)
  {
    var s1 := ArmSleep(s, f, sleep).(io := F.AddSelf(s.io, f, regs).st);
    AddSelfTokens(s.io, f, regs, f);
    SleepTimersOk(s, f, sleep, Fiber(READY, ParkedPc(s, sleep)));
    forall g: nat ensures StoredTokens(s1, g) == WakeSources(s, g) + if g == f then 1 else 0 {
      ParkTokens(s, f, regs, sleep, g);
    }
    SuspendKeepsInv(s, s1, f, ParkedPc(s, sleep));
  }

  lemma ParkKeepsInv(s: Sys, f: nat, regs: seq<F.Registration>, sleep: Option<Word>)
    requires Runs(s, f) && s.fibers[f].pc.User? && Sources(regs, sleep) == 1
    ensures var r := DoPark(s, f, regs, sleep);
            && (r.Abort? ==> r.assertion == Io(F.DoubleRegistration))
            && (r.Next? ==> Inv(r.s)) && !r.Disabled?
  {
    AddSelfTokens(s.io, f, regs, f);
    if F.AddSelf(s.io, f, regs).Done? {
      ParkShape(s, f, regs, sleep);
      ParkedKeepsInv(s, f, regs, sleep);
    }
  }

  // A fiber that registers itself and parks keeps wake-up conservation exactly when one thing is left
  // to wake it: one granted registration and no sleep, or a sleep and none.
  lemma ParkKeepsWakeUps(s: Sys, f: nat, regs: seq<F.Registration>, sleep: Option<Word>)
    requires Runs(s, f) && s.fibers[f].pc.User? && DoPark(s, f, regs, sleep).Next?
    ensures WakeOk(DoPark(s, f, regs, sleep).s) <==> Sources(regs, sleep) == 1
    ensures WakeOk(DoPark(s, f, regs, sleep).s) <==> Careful(s, Park(regs, sleep))
  {
    if Sources(regs, sleep) == 1 {
      ParkKeepsInv(s, f, regs, sleep);
    } else {
      ParkShape(s, f, regs, sleep);
      ParkTokens(s, f, regs, sleep, f);
      var s' := DoPark(s, f, regs, sleep).s;
      assert WakeSources(s, f) == if IsReady(s.fibers, f) then 1 else 0;
      assert WakeSources(s', f) == Sources(regs, sleep) && IsReady(s'.fibers, f);
    }
  }

  lemma FdStepShape(s: Sys, f: nat, a: Action)
    requires f in s.fibers && OnFds(a)
    ensures ApplyFiber(s, f, a) == if s.fibers[f].pc.User? then ApplyOnFds(s, a) else Disabled
  {
  }

  lemma FiberKeepsInv(s: Sys, f: nat, a: Action)
    requires Runs(s, f) && Careful(s, a)
    ensures var r := ApplyFiber(s, f, a);
            (r.Abort? ==> r.assertion == Io(F.DoubleRegistration)) && (r.Next? ==> Inv(r.s))
  {
    if OnFds(a) {
      FdStepShape(s, f, a);
      if s.fibers[f].pc.User? { FdStepKeepsInv(s, a); }
    } else {
      CallStepKeepsInv(s, f, a);
    }
  }

  predicate OfDoIo(a: Action) {
    a.IoStart? || a.IoReturn? || a.IoWait? || a.IoResume?
  }

  lemma DoIoShape(s: Sys, f: nat, a: Action)
    requires f in s.fibers && OfDoIo(a)
    ensures var pc := s.fibers[f].pc;
            ApplyFiber(s, f, a)
            == if a.IoStart? && pc.User? then Next(DoIoStart(s, f, a.fd, a.ev, a.to))
               else if a.IoReturn? && pc.Trying? then Next(Leave(s, f, pc.call.info))
               else if a.IoWait? && pc.Trying? then DoIoWait(s, f, pc.call, a.granted)
               else if a.IoResume? && pc.Waiting? then Next(DoIoResume(s, f, pc.call, pc.timer))
               else Disabled
  {
  }

  lemma DoIoKeepsInv(s: Sys, f: nat, a: Action)
    requires Runs(s, f) && OfDoIo(a)
    ensures var r := ApplyFiber(s, f, a);
            (r.Abort? ==> r.assertion == Io(F.DoubleRegistration)) && (r.Next? ==> Inv(r.s))
  {
    var pc := s.fibers[f].pc;
    DoIoShape(s, f, a);
    if a.IoStart? && pc.User? {
      IoStartKeepsInv(s, f, a.fd, a.ev, a.to);
    } else if a.IoReturn? && pc.Trying? {
      TryingHasNoTimer(s, f);
      LeaveKeepsInv(s, f, pc.call);
    } else if a.IoWait? && pc.Trying? {
      IoWaitOutcome(s, f, a.granted);
    } else if a.IoResume? && pc.Waiting? {
      IoResumeKeepsInv(s, f);
    }
  }

  predicate OfParking(a: Action) {
    a.Sleep? || a.YieldNow? || a.Park?
  }

  lemma ParkingShape(s: Sys, f: nat, a: Action)
    requires f in s.fibers && OfParking(a)
    ensures ApplyFiber(s, f, a)
         == if !s.fibers[f].pc.User? then Disabled
            else if a.Sleep? then DoSleep(s, f, a.ms)
            else if a.YieldNow? then Suspend(Push(s, [FiberWork(f)]), f, Yielded)
            else DoPark(s, f, a.regs, a.sleep)
  {
  }

  lemma ParkingKeepsInv(s: Sys, f: nat, a: Action)
    requires Runs(s, f) && OfParking(a) && Careful(s, a)
    ensures var r := ApplyFiber(s, f, a);
            (r.Abort? ==> r.assertion == Io(F.DoubleRegistration)) && (r.Next? ==> Inv(r.s))
  {
    ParkingShape(s, f, a);
    if s.fibers[f].pc.User? {
      if a.Sleep? {
        SleepKeepsInv(s, f, a.ms);
      } else if a.YieldNow? {
        YieldNowKeepsInv(s, f);
      } else {
        ParkKeepsInv(s, f, a.regs, a.sleep);
      }
    }
  }

  lemma CallStepKeepsInv(s: Sys, f: nat, a: Action)
    requires Runs(s, f) && !OnFds(a) && Careful(s, a)
    ensures var r := ApplyFiber(s, f, a);
            (r.Abort? ==> r.assertion == Io(F.DoubleRegistration)) && (r.Next? ==> Inv(r.s))
  {
    var pc := s.fibers[f].pc;
    if OfDoIo(a) {
      DoIoKeepsInv(s, f, a);
    } else if OfParking(a) {
      ParkingKeepsInv(s, f, a);
    } else if a.Begin? {
      if pc.Fresh? { BeginKeepsInv(s, f, a.granted); }
    } else if a.WakeUp? {
      if pc.Sleeping? || pc.Yielded? { SetPcKeepsInv(s, f, User); }
    } else if a.Finish? {
      if pc.User? { FinishKeepsInv(s, f); }
    }
  }
}
