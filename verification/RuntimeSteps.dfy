// Every step of the runtime preserves the invariant, and no step trips an assertion except the
// one against registering an event twice.
module RuntimeSteps {
  import opened Common
  import opened Runtime
  import opened WakeTokens
  import opened RuntimeInvariant
  import T = Timers
  import F = FdEvents
  import S = Scheduling

  // ---------------------------------------------------------------- changes of one fiber

  // A fiber that is not in a do_io call before or after the change.
  lemma OutsideCallKeepsCalls(s: Sys, f: nat, fb: Fiber)
    requires CallsOk(s.fibers, s.calls, s.live) && TimeoutsOk(s.timers, s.fibers, s.calls)
    requires f in s.fibers ==> CallOf(s.fibers[f].pc).None?
    requires CallOf(fb.pc).None?
    ensures CallsOk(s.fibers[f := fb], s.calls, s.live) && TimeoutsOk(s.timers, s.fibers[f := fb], s.calls)
  {
  }

  lemma SamePcKeepsCalls(s: Sys, f: nat, state: FiberState)
    requires CallsOk(s.fibers, s.calls, s.live) && TimeoutsOk(s.timers, s.fibers, s.calls)
    requires f in s.fibers
    ensures var fibers := s.fibers[f := s.fibers[f].(state := state)];
            CallsOk(fibers, s.calls, s.live) && TimeoutsOk(s.timers, fibers, s.calls)
  {
  }

  // ---------------------------------------------------------------- any thread

  lemma AppendTask(s: Sys, t: Task, f: nat)
    ensures TasksTok(s.tasks + [t], f) == TasksTok(s.tasks, f) + WorkTok(t.work, f)
  {
    TasksTokAppend(s.tasks, [t], f);
    assert [t][1..] == [];
  }

  lemma SpawnWake(s: Sys, thread: int)
    requires Inv(s)
    ensures WakeOk(ApplyAny(s, Spawn(thread)).s)
  {
    var s' := ApplyAny(s, Spawn(thread)).s;
    var f := s.nextFiber;
    forall g: nat ensures WakeSources(s', g) == if IsReady(s'.fibers, g) then 1 else 0 {
      AppendTask(s, Task(FiberWork(f), thread), g);
      assert WakeSources(s, g) == if IsReady(s.fibers, g) then 1 else 0;
    }
  }

  lemma SpawnKeepsInv(s: Sys, thread: int)
    requires Inv(s)
    ensures ApplyAny(s, Spawn(thread)).Next? && Inv(ApplyAny(s, Spawn(thread)).s)
  {
    SpawnWake(s, thread);
    OutsideCallKeepsCalls(s, s.nextFiber, Fiber(READY, Fresh(UserBody)));
  }

  lemma PostKeepsInv(s: Sys, tag: nat, thread: int)
    requires Inv(s)
    ensures ApplyAny(s, Post(tag, thread)).Next? && Inv(ApplyAny(s, Post(tag, thread)).s)
  {
    var s' := ApplyAny(s, Post(tag, thread)).s;
    forall g: nat ensures WakeSources(s', g) == WakeSources(s, g) {
      AppendTask(s, Task(CbWork(UserCb(tag)), thread), g);
    }
  }

  lemma LateTimerKeepsInv(s: Sys)
    requires Inv(s)
    ensures Inv(LateTimer(s))
  {
    if s.worker.TimersRead? {
      WorkerMoveKeepsInv(s, LateTimer(s));
    } else {
      LateKeepsInv(s);
    }
  }

  lemma LateKeepsInv(s: Sys)
    requires Inv(s)
    ensures Inv(Late(s))
  {
    assert forall f: nat :: WakeSources(Late(s), f) == WakeSources(s, f);
  }

  lemma TickKeepsInv(s: Sys, now: Word)
    requires Inv(s) && now > 0
    ensures Inv(s.(now := now))
  {
  }

  lemma ArmChange(ts: T.TimerState, ms: Word, cb: Option<Callback>, recurring: bool, now: Word)
    requires T.Valid(ts) && IsUser(cb)
    ensures UserChange(ts, T.AddTimer(ts, ms, cb, recurring, now).0)
  {
    T.AddTimerKeepsValid(ts, ms, cb, recurring, now);
  }

  lemma ArmShape(s: Sys, ms: Word, tag: Option<nat>, recurring: bool)
    ensures ApplyAny(s, Arm(ms, tag, recurring)) == Next(LateTimer(s).(timers := ProgramTimer(s, ms, tag, recurring)))
  {
  }

  lemma ArmKeepsInv(s: Sys, ms: Word, tag: Option<nat>, recurring: bool)
    requires Inv(s)
    ensures ApplyAny(s, Arm(ms, tag, recurring)).Next? && Inv(ApplyAny(s, Arm(ms, tag, recurring)).s)
  {
    var ts := ProgramTimer(s, ms, tag, recurring);
    ArmMove(s, ms, tag, recurring);
    LateTimerKeepsInv(s);
    TimerMoveKeepsInv(LateTimer(s), ts);
    ArmShape(s, ms, tag, recurring);
  }

  // A new timer of the program holds no token, and if it is armed inside the stop check, the
  // check's record of that is right.
  lemma ArmMove(s: Sys, ms: Word, tag: Option<nat>, recurring: bool)
    requires Inv(s)
    ensures var ts := ProgramTimer(s, ms, tag, recurring);
            && UserChange(s.timers, ts) && ReadOk(LateTimer(s).worker, ts.entries)
            && forall f: nat :: TimersTok(ts.entries, f) == TimersTok(s.timers.entries, f)
  {
    var cb := if tag.None? then None else Some(UserCb(tag.value));
    T.AddTimerKeepsValid(s.timers, ms, cb, recurring, s.now);
    ArmChange(s.timers, ms, cb, recurring, s.now);
    forall f: nat ensures TimersTok(ProgramTimer(s, ms, tag, recurring).entries, f) == TimersTok(s.timers.entries, f) {
      AddTimerTokens(s.timers, ms, cb, recurring, s.now, f);
    }
  }

  // cancel, refresh and reset of a timer of the program.
  lemma TimerCallChange(ts: T.TimerState, id: nat, oldMs: Word, ms: Word, fromNow: bool, now: Word)
    requires T.Valid(ts) && UserTimer(ts, id)
    ensures UserChange(ts, T.Cancel(ts, id).0)
    ensures UserChange(ts, T.Refresh(ts, id, now).0)
    ensures UserChange(ts, T.Reset(ts, id, oldMs, ms, fromNow, now).0)
  {
    T.CancelRemoves(ts, id);
    T.RefreshKeepsValid(ts, id, now);
    T.ResetOutcome(ts, id, oldMs, ms, fromNow, now);
    if T.Active(ts, id) {
      assert ts.entries[T.IndexOf(ts.entries, id)] in ts.entries;
      if !(ms == oldMs && !fromNow) {
        T.ResetKeepsValid(ts, id, oldMs, ms, fromNow, now);
      }
    }
  }

  lemma TimerCallsKeepInv(s: Sys, id: nat, oldMs: Word, ms: Word, fromNow: bool)
    requires Inv(s) && UserTimer(s.timers, id)
    ensures Inv(s.(timers := T.Cancel(s.timers, id).0))
    ensures Inv(s.(timers := T.Refresh(s.timers, id, s.now).0))
    ensures Inv(s.(timers := T.Reset(s.timers, id, oldMs, ms, fromNow, s.now).0))
  {
    TimerCallChange(s.timers, id, oldMs, ms, fromNow, s.now);
    forall f: nat
      ensures TimersTok(T.Cancel(s.timers, id).0.entries, f) == TimersTok(s.timers.entries, f)
      ensures TimersTok(T.Refresh(s.timers, id, s.now).0.entries, f) == TimersTok(s.timers.entries, f)
      ensures TimersTok(T.Reset(s.timers, id, oldMs, ms, fromNow, s.now).0.entries, f) == TimersTok(s.timers.entries, f)
    {
      TimerCallTokens(s.timers, id, oldMs, ms, fromNow, s.now, f);
    }
    TimerMoveKeepsInv(s, T.Cancel(s.timers, id).0);
    TimerMoveKeepsInv(s, T.Refresh(s.timers, id, s.now).0);
    TimerMoveKeepsInv(s, T.Reset(s.timers, id, oldMs, ms, fromNow, s.now).0);
  }

  function TimerCallResult(s: Sys, a: Action): T.TimerState
    requires a.CancelTimer? || a.RefreshTimer? || a.ResetTimer?
  {
    match a
    case CancelTimer(id) => T.Cancel(s.timers, id).0
    case RefreshTimer(id) => T.Refresh(s.timers, id, s.now).0
    case ResetTimer(id, oldMs, ms, fromNow) => T.Reset(s.timers, id, oldMs, ms, fromNow, s.now).0
  }

  lemma TimerCallShape(s: Sys, a: Action)
    requires a.CancelTimer? || a.RefreshTimer? || a.ResetTimer?
    ensures ApplyAny(s, a).Disabled?
            || (UserTimer(s.timers, a.timer) && ApplyAny(s, a) == Next(s.(timers := TimerCallResult(s, a))))
  {
  }

  lemma TimerCallKeepsInv(s: Sys, a: Action)
    requires Inv(s) && (a.CancelTimer? || a.RefreshTimer? || a.ResetTimer?)
    ensures !ApplyAny(s, a).Abort? && (ApplyAny(s, a).Next? ==> Inv(ApplyAny(s, a).s))
  {
    TimerCallShape(s, a);
    if ApplyAny(s, a).Next? {
      if a.ResetTimer? {
        TimerCallsKeepInv(s, a.timer, a.oldMs, a.ms, a.fromNow);
      } else {
        TimerCallsKeepInv(s, a.timer, 0, 0, false);
      }
    }
  }

  // A close by a thread without IOManager, of an fd with no event registered.
  lemma CloseElsewhereKeepsInv(s: Sys, fd: nat)
    requires Inv(s) && CloseHarmless(s.io, fd, false)
    ensures ApplyAny(s, CloseElsewhere(fd)) == Next(s)
  {
    F.CloseCoherentExactly(s.io, fd, false);
  }

  lemma AnyThreadKeepsInv(s: Sys, a: Action)
    requires Inv(s) && AnyThread(a) && Careful(s, a)
    ensures !ApplyAny(s, a).Abort? && (ApplyAny(s, a).Next? ==> Inv(ApplyAny(s, a).s))
  {
    if a.Spawn? {
      SpawnKeepsInv(s, a.thread);
    } else if a.Post? {
      PostKeepsInv(s, a.tag, a.thread);
    } else if a.Arm? {
      ArmKeepsInv(s, a.ms, a.cb, a.recurring);
    } else if a.Tick? {
      if a.now > 0 { TickKeepsInv(s, a.now); }
    } else if a.CloseElsewhere? {
      CloseElsewhereKeepsInv(s, a.fd);
    } else {
      TimerCallKeepsInv(s, a);
    }
  }

  // ---------------------------------------------------------------- the worker

  lemma WorkInQueueIsReady(s: Sys, i: nat, f: nat)
    requires Inv(s) && i < |s.tasks| && s.tasks[i].work == FiberWork(f)
    ensures IsReady(s.fibers, f)
  {
    TasksTokWithout(s.tasks, i, f);
    assert WakeSources(s, f) == if IsReady(s.fibers, f) then 1 else 0;
  }

  lemma WithoutMembers(ts: seq<Task>, i: nat)
    requires i < |ts|
    ensures forall t :: t in S.Without(ts, i) ==> t in ts
  {
  }

  // Taking a queued fiber spends its one wake source.
  lemma PickFiberWake(s: Sys, i: nat, f: nat)
    requires Inv(s) && s.worker.Picking? && i < |s.tasks| && s.tasks[i].work == FiberWork(f)
    requires f in s.fibers && s.fibers[f].state == READY
    ensures WakeOk(s.(tasks := S.Without(s.tasks, i),
                      fibers := s.fibers[f := s.fibers[f].(state := RUNNING)], worker := Executing(f)))
  {
    var s' := s.(tasks := S.Without(s.tasks, i),
                 fibers := s.fibers[f := s.fibers[f].(state := RUNNING)], worker := Executing(f));
    forall g: nat ensures WakeSources(s', g) == if IsReady(s'.fibers, g) then 1 else 0 {
      TasksTokWithout(s.tasks, i, g);
      TasksTokWithout(s.tasks, i, f);
      assert WakeSources(s, g) == if IsReady(s.fibers, g) then 1 else 0;
      assert WakeSources(s, f) == 1;
      ReadyIsNoCallback(s, f, g);
    }
  }

  lemma PickFiberKeepsInv(s: Sys, i: nat, f: nat)
    requires Inv(s) && s.worker.Picking? && i < |s.tasks| && s.tasks[i].work == FiberWork(f)
    requires f in s.fibers && s.fibers[f].state == READY
    ensures Inv(s.(tasks := S.Without(s.tasks, i), active := s.active + 1,
                   fibers := s.fibers[f := s.fibers[f].(state := RUNNING)], worker := Executing(f)))
  {
    SamePcKeepsCalls(s, f, RUNNING);
    WithoutMembers(s.tasks, i);
    PickFiberWake(s, i, f);
    var s1 := s.(tasks := S.Without(s.tasks, i),
                 fibers := s.fibers[f := s.fibers[f].(state := RUNNING)], worker := Executing(f));
    var s2 := s1.(active := s.active + 1);
    assert WakeOk(s2) by {
      assert forall g: nat :: WakeSources(s2, g) == WakeSources(s1, g);
    }
  }

  // No fiber created for a callback is ever suspended before its first step.
  lemma ReadyIsNoCallback(s: Sys, f: nat, g: nat)
    requires Inv(s) && IsReady(s.fibers, f)
    ensures InFlight(Executing(f), s.fibers[f := s.fibers[f].(state := RUNNING)], g) == 0
  {
  }

  // Taking a callback creates the fiber that runs it; a token of sleep's callback travels along.
  lemma PickCallbackWake(s: Sys, i: nat, cb: Callback)
    requires Inv(s) && s.worker.Picking? && i < |s.tasks| && s.tasks[i].work == CbWork(cb)
    ensures var f := s.nextFiber;
            WakeOk(s.(tasks := S.Without(s.tasks, i), fibers := s.fibers[f := Fiber(RUNNING, Fresh(CallbackBody(cb)))],
                      worker := Executing(f)))
  {
    var f := s.nextFiber;
    var s' := s.(tasks := S.Without(s.tasks, i), fibers := s.fibers[f := Fiber(RUNNING, Fresh(CallbackBody(cb)))],
                 worker := Executing(f));
    forall g: nat ensures WakeSources(s', g) == if IsReady(s'.fibers, g) then 1 else 0 {
      TasksTokWithout(s.tasks, i, g);
      assert WakeSources(s, g) == if IsReady(s.fibers, g) then 1 else 0;
    }
  }

  lemma PickCallbackKeepsInv(s: Sys, i: nat, cb: Callback)
    requires Inv(s) && s.worker.Picking? && i < |s.tasks| && s.tasks[i].work == CbWork(cb)
    ensures var f := s.nextFiber;
            Inv(s.(tasks := S.Without(s.tasks, i), active := s.active + 1,
                   fibers := s.fibers[f := Fiber(RUNNING, Fresh(CallbackBody(cb)))], nextFiber := f + 1,
                   worker := Executing(f)))
  {
    var f := s.nextFiber;
    var s1 := s.(tasks := S.Without(s.tasks, i), fibers := s.fibers[f := Fiber(RUNNING, Fresh(CallbackBody(cb)))],
                 worker := Executing(f));
    var s2 := s1.(active := s.active + 1, nextFiber := f + 1);
    PickCallbackWake(s, i, cb);
    assert WakeOk(s2) by {
      assert forall g: nat :: WakeSources(s2, g) == WakeSources(s1, g);
    }
    OutsideCallKeepsCalls(s, f, Fiber(RUNNING, Fresh(CallbackBody(cb))));
    WithoutMembers(s.tasks, i);
    assert s.tasks[i] in s.tasks;
  }

  // Moves of the worker that touch no token.
  lemma WorkerMoveKeepsInv(s: Sys, s': Sys)
    requires Inv(s)
    requires s' == s.(worker := s'.worker, idle := s'.idle, idleCount := s'.idleCount, stopping := s'.stopping,
                      root := s'.root, late := s'.late, timers := s.timers.(tickled := s'.timers.tickled))
    requires !s.worker.Executing? && !s'.worker.Executing?
    requires WorkerOk(s'.worker, s'.idle, s'.active, s'.idleCount, s'.root) && BatchOk(s'.worker, s'.io) && StopOk(s')
    requires ReadOk(s'.worker, s'.timers.entries)
    ensures Inv(s')
  {
  }

  lemma PickKeepsInv(s: Sys)
    requires Inv(s) && s.worker.Picking?
    ensures DoPick(s).Next? && Inv(DoPick(s).s)
  {
    var i := S.Pick(s.tasks, ME);
    if i < |s.tasks| {
      match s.tasks[i].work
      case FiberWork(f) =>
        WorkInQueueIsReady(s, i, f);
        PickFiberKeepsInv(s, i, f);
      case CbWork(cb) => PickCallbackKeepsInv(s, i, cb);
    } else {
      WorkerMoveKeepsInv(s, DoPick(s).s);
    }
  }

  // What getNextTimer reports: no timer exactly when the set is empty.
  lemma NoTimerNoEntries(s: Sys)
    requires Inv(s)
    ensures T.NextTimer(s.timers, s.now).1 == FOREVER <==> s.timers.entries == []
  {
  }

  lemma ReadTimersKeepsInv(s: Sys)
    requires Inv(s) && s.worker.IdleCheck?
    ensures Inv(DoReadTimers(s))
  {
    NoTimerNoEntries(s);
    WorkerMoveKeepsInv(s, DoReadTimers(s));
  }

  // The idle fiber ends only when the check has seen no timers, no registered events and no tasks.
  lemma DecideStopKeepsInv(s: Sys)
    requires Inv(s) && s.worker.TimersRead?
    ensures DoDecideStop(s).Next? && Inv(DoDecideStop(s).s)
  {
    WorkerMoveKeepsInv(s, DoDecideStop(s).s);
  }

  // stop() trips the assertion in Fiber::resume exactly when something is left to do and the root
  // fiber is running already or has ended: when a fiber calls it, or when it is called again after
  // a run() that left something behind.
  lemma StopAbortsExactly(s: Sys)
    requires Inv(s) && StopEnabled(s)
    ensures DoStop(s) == Abort(ResumeNotReady) <==> s.worker.Executing? || (s.worker.Exited? && !Stopped(s))
    ensures DoStop(s).Abort? ==> DoStop(s) == Abort(ResumeNotReady)
  {
  }

  lemma StopKeepsInv(s: Sys)
    requires Inv(s) && StopEnabled(s)
    ensures DoStop(s).Next? ==> Inv(DoStop(s).s)
  {
    if DoStop(s).Next? {
      WorkerMoveKeepsInv(s, DoStop(s).s);
    }
  }

  // x records the expiry of the timer e.
  predicate Records(x: Expiry, e: T.Entry, now: Word, rollover: bool) {
    e.cb == Some(x.cb) && x.timer == e.id && x.at == now && x.rollover == rollover
  }

  lemma {:induction false} ExpiriesOfMembers(taken: seq<T.Entry>, now: Word, rollover: bool)
    ensures forall x :: x in ExpiriesOf(taken, now, rollover) <==>
                        exists e :: e in taken && Records(x, e, now, rollover)
  {
    if taken != [] {
      ExpiriesOfMembers(taken[1..], now, rollover);
      forall x ensures x in ExpiriesOf(taken, now, rollover) <==>
                       exists e :: e in taken && Records(x, e, now, rollover)
      {
        if e :| e in taken && Records(x, e, now, rollover) {
          assert e == taken[0] || e in taken[1..];
        }
        if x in ExpiriesOf(taken[1..], now, rollover) {
          var e :| e in taken[1..] && Records(x, e, now, rollover);
          assert e in taken;
        } else if x in ExpiriesOf(taken, now, rollover) {
          assert taken[0] in taken && Records(x, taken[0], now, rollover);
        }
      }
    }
  }

  lemma {:induction false} BatchFromTaken(es: seq<T.Entry>)
    ensures forall t :: t in S.BatchTasks(T.Callbacks(es)) ==>
              t.work.CbWork? && exists e :: e in es && e.cb == Some(t.work.cb)
  {
    if es != [] {
      BatchFromTaken(es[1..]);
      assert T.Callbacks(es)[1..] == T.Callbacks(es[1..]);
      forall t | t in S.BatchTasks(T.Callbacks(es))
        ensures t.work.CbWork? && exists e :: e in es && e.cb == Some(t.work.cb)
      {
        if t in S.BatchTasks(T.Callbacks(es[1..])) {
          var e :| e in es[1..] && e.cb == Some(t.work.cb);
          assert e in es;
        } else {
          assert es[0] in es && es[0].cb == Some(t.work.cb);
        }
      }
    }
  }

  lemma ExpireTimersOk(s: Sys, address: nat)
    requires Inv(s)
    ensures TimeoutsOk(T.ListExpired(s.timers, s.now, address).0, s.fibers, s.calls)
  {
    T.ListExpiredKeepsValid(s.timers, s.now, address);
    T.ListExpiredExactly(s.timers, s.now, address);
    T.ListExpiredMembers(s.timers, s.now, address);
    T.TakenMembers(s.timers, s.now);
    var ts := T.ListExpired(s.timers, s.now, address).0;
    forall e | e in ts.entries ensures e in s.timers.entries
      || (IsUser(e.cb) && exists d :: d in s.timers.entries && d.id == e.id && IsUser(d.cb))
    {
      if e !in s.timers.entries {
        var d :| d in T.Taken(s.timers, s.now) && d.recurring && e == T.Rearmed(d, s.now);
        assert d in s.timers.entries && d.id == e.id && IsUser(d.cb);
      }
    }
    UserChangeKeepsTimeouts(s.timers, ts, s.fibers, s.calls);
  }

  lemma ExpiredMore(expiries: seq<Expiry>, more: seq<Expiry>)
    ensures forall i :: Expired(expiries, i) || Expired(more, i) ==> Expired(expiries + more, i)
  {
  }

  lemma TakenRecorded(taken: seq<T.Entry>, e: T.Entry, now: Word, rollover: bool)
    requires e in taken && IsTimeout(e.cb)
    ensures Expired(ExpiriesOf(taken, now, rollover), e.cb.value.info)
  {
    ExpiriesOfMembers(taken, now, rollover);
    var x := Expiry(e.id, e.cb.value, now, rollover);
    assert Records(x, e, now, rollover);
  }

  // Every callback queued comes from an expiry that is recorded.
  lemma BatchRecorded(taken: seq<T.Entry>, now: Word, rollover: bool)
    ensures forall t :: t in S.BatchTasks(T.Callbacks(taken)) ==>
              t.work.CbWork? && CbOrigin(t.work.cb, ExpiriesOf(taken, now, rollover))
  {
    BatchFromTaken(taken);
    forall t | t in S.BatchTasks(T.Callbacks(taken)) && t.work.cb.IoTimeout?
      ensures CbOrigin(t.work.cb, ExpiriesOf(taken, now, rollover))
    {
      var e :| e in taken && e.cb == Some(t.work.cb);
      TakenRecorded(taken, e, now, rollover);
    }
  }

  lemma ExpireShape(s: Sys, address: nat)
    requires T.Valid(s.timers) && s.worker.Reported?
    ensures var s' := DoExpire(s, address);
            && s'.tasks == s.tasks + S.BatchTasks(T.Callbacks(T.Taken(s.timers, s.now)))
            && s'.expiries == s.expiries
               + ExpiriesOf(T.Taken(s.timers, s.now), s.now, T.Rollover(s.timers.previous, s.now))
            && s'.fibers == s.fibers && s'.live == s.live
  {
    T.ListExpiredExactly(s.timers, s.now, address);
  }

  lemma ExpireOriginsOk(s: Sys, address: nat)
    requires Inv(s) && s.worker.Reported?
    ensures var s' := DoExpire(s, address);
            OriginsOk(s'.tasks, s'.fibers, s'.live, s'.expiries)
  {
    var taken, rollover := T.Taken(s.timers, s.now), T.Rollover(s.timers.previous, s.now);
    ExpireShape(s, address);
    BatchRecorded(taken, s.now, rollover);
    MoreOrigins(s.tasks, s.fibers, s.live, s.expiries,
                S.BatchTasks(T.Callbacks(taken)), ExpiriesOf(taken, s.now, rollover));
  }

  lemma MoreOrigins(tasks: seq<Task>, fibers: map<nat, Fiber>, live: map<nat, bool>, expiries: seq<Expiry>,
                    added: seq<Task>, more: seq<Expiry>)
    requires OriginsOk(tasks, fibers, live, expiries)
    requires forall t :: t in added ==> t.work.CbWork? && CbOrigin(t.work.cb, more)
    ensures OriginsOk(tasks + added, fibers, live, expiries + more)
  {
    ExpiredMore(expiries, more);
  }

  lemma ExpireKeepsInv(s: Sys, address: nat)
    requires Inv(s) && s.worker.Reported?
    ensures Inv(DoExpire(s, address))
  {
    var s' := DoExpire(s, address);
    ExpireTimersOk(s, address);
    ExpireOriginsOk(s, address);
    forall f: nat ensures WakeSources(s', f) == WakeSources(s, f) {
      ListExpiredTokens(s.timers, s.now, address, f);
      TasksTokAppend(s.tasks, S.BatchTasks(T.ListExpired(s.timers, s.now, address).1), f);
    }
  }

  // Handling one report leaves the others of the batch possible: they are about other fds.
  lemma HandleNextKeepsInv(s: Sys, granted: bool)
    requires Inv(s) && s.worker.Handling? && s.worker.batch != []
    ensures DoHandleNext(s, granted).Next? && Inv(DoHandleNext(s, granted).s)
  {
    var batch := s.worker.batch;
    var r := F.HandleReport(s.io, batch[0].fd, batch[0].events, granted);
    HandleReportIoOk(s.io, batch[0].fd, batch[0].events, granted);
    RestOfBatch(s.io, r.st, batch);
    var s1 := s.(worker := Handling(batch[1..]));
    WorkerMoveKeepsInv(s, s1);
    forall f: nat ensures FdsTok(r.st.fds, f) + WorksTok(r.works, f) == FdsTok(s.io.fds, f) {
      HandleReportTokens(s.io, batch[0].fd, batch[0].events, granted, f);
    }
    IoMoveKeepsInv(s1, r.st, r.works);
  }

  lemma RestOfBatch(io: F.IoState, io': F.IoState, batch: seq<Report>)
    requires batch != [] && PossibleBatch(io, batch)
    requires F.SameElsewhere(io.kernel, io'.kernel, batch[0].fd)
    ensures PossibleBatch(io', batch[1..])
  {
  }

  // The one assertion a step of run(), idle() or stop() can trip.
  predicate StopTrips(s: Sys, a: Action, assertion: Assertion) {
    a.Stop? && StopEnabled(s) && !Stopped(s) && s.root != READY && assertion == ResumeNotReady
  }

  predicate OfBatch(a: Action) {
    a.PollReturn? || a.Expire? || a.HandleNext? || a.IdleYield?
  }

  lemma PollKeepsInv(s: Sys, batch: seq<Report>)
    requires Inv(s) && s.worker.Polling? && PossibleBatch(s.io, batch)
    ensures Inv(s.(worker := Reported(batch)))
  {
    WorkerMoveKeepsInv(s, s.(worker := Reported(batch)));
  }

  lemma IdleYieldKeepsInv(s: Sys)
    requires Inv(s) && s.worker.Handling? && s.worker.batch == []
    ensures s.idle == RUNNING && s.idleCount == 1
    ensures Inv(s.(idle := READY, idleCount := 0, worker := Picking))
  {
    WorkerMoveKeepsInv(s, s.(idle := READY, idleCount := 0, worker := Picking));
  }

  lemma PollShape(s: Sys, batch: seq<Report>)
    ensures ApplyWorker(s, PollReturn(batch))
         == if s.worker.Polling? && PossibleBatch(s.io, batch) then Next(s.(worker := Reported(batch))) else Disabled
  {
  }

  lemma ExpireStep(s: Sys, address: nat)
    ensures ApplyWorker(s, Expire(address)) == if s.worker.Reported? then Next(DoExpire(s, address)) else Disabled
  {
  }

  lemma HandleStep(s: Sys, granted: bool)
    ensures ApplyWorker(s, HandleNext(granted))
         == if s.worker.Handling? && s.worker.batch != [] then DoHandleNext(s, granted) else Disabled
  {
  }

  lemma IdleYieldStep(s: Sys)
    requires s.worker.Handling? ==> s.idle == RUNNING && s.idleCount == 1
    ensures ApplyWorker(s, IdleYield)
         == if s.worker.Handling? && s.worker.batch == []
            then Next(s.(idle := READY, idleCount := 0, worker := Picking)) else Disabled
  {
  }

  lemma BatchKeepsInv(s: Sys, a: Action)
    requires Inv(s) && OfBatch(a)
    ensures !ApplyWorker(s, a).Abort? && (ApplyWorker(s, a).Next? ==> Inv(ApplyWorker(s, a).s))
  {
    match a
    case PollReturn(batch) =>
      PollShape(s, batch);
      if s.worker.Polling? && PossibleBatch(s.io, batch) { PollKeepsInv(s, batch); }
    case Expire(address) =>
      ExpireStep(s, address);
      if s.worker.Reported? { ExpireKeepsInv(s, address); }
    case HandleNext(granted) =>
      HandleStep(s, granted);
      if s.worker.Handling? && s.worker.batch != [] { HandleNextKeepsInv(s, granted); }
    case IdleYield =>
      IdleYieldStep(s);
      if s.worker.Handling? && s.worker.batch == [] { IdleYieldKeepsInv(s); }
  }

  lemma WorkerKeepsInv(s: Sys, a: Action)
    requires Inv(s) && OfWorker(a)
    ensures var r := ApplyWorker(s, a);
            (r.Abort? ==> StopTrips(s, a, r.assertion)) && (r.Next? ==> Inv(r.s))
  {
    if OfBatch(a) {
      BatchKeepsInv(s, a);
    } else if a.Pick? {
      if s.worker.Picking? { PickKeepsInv(s); }
    } else if a.ReadTimers? {
      if s.worker.IdleCheck? { ReadTimersKeepsInv(s); }
    } else if a.DecideStop? {
      if s.worker.TimersRead? { DecideStopKeepsInv(s); }
    } else {
      if StopEnabled(s) { StopKeepsInv(s); }
    }
  }
}
