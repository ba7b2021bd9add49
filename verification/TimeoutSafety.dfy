// The main results about time in the coroutine runtime: what do_io and sleep arm, when it fires, whom it
// wakes, and what the woken fiber then does.
module TimeoutSafety {
  import opened Common
  import opened Runtime
  import opened RuntimeInvariant
  import opened RuntimeSteps
  import opened FiberSteps
  import opened RuntimeSafety
  import opened RuntimeCalls
  import opened RuntimeHistory
  import T = Timers
  import F = FdEvents
  import S = Scheduling

  // ---------------------------------------------------------------- what is armed

  // The step has armed one timer of its own, `id`, for `ms` from the clock reading of the step, and
  // recorded it.
  ghost predicate Armed(s: Sys, s': Sys, id: nat, cb: Callback, ms: Word) {
    && id == s.timers.nextId && id !in s.armings && s'.armings == s.armings[id := Arming(cb, ms, s.now)]
    && exists x :: && T.Added(s.timers.entries, s'.timers.entries, x)
                   && T.Describes(x, id, false, Some(cb)) && T.ArmedFrom(x, s.now, ms)
  }

  lemma ArmsOwn(s: Sys, ms: Word, cb: Callback)
    requires T.Valid(s.timers) && TimersRecorded(s.timers, s.armings) && !cb.UserCb?
    ensures Armed(s, ArmOwn(s, ms, cb), s.timers.nextId, cb, ms)
  {
    T.AddTimerExactly(s.timers, ms, Some(cb), false, s.now);
  }

  // What the fiber leaves when it waits in do_io.
  ghost predicate WaitArmed(s: Sys, s': Sys, f: nat, c: IoCall) {
    && f in s.fibers && s'.worker == Picking && s'.tasks == s.tasks && s'.live == s.live
    && s'.fibers == s.fibers[f := Fiber(READY, Waiting(c, if c.to.None? then None else Some(s.timers.nextId)))]
    && (c.to.None? ==> s'.timers == s.timers && s'.armings == s.armings)
    && (c.to.Some? ==> Armed(s, s', s.timers.nextId, IoTimeout(c.info, c.fd, c.ev), c.to.value))
  }

  lemma GrantedWaitArms(s: Sys, f: nat, c: IoCall)
    requires f in s.fibers && s.fibers[f].state == RUNNING && s.active > 0
    requires T.Valid(s.timers) && TimersRecorded(s.timers, s.armings)
    requires var o := F.AddEvent(s.io, c.fd, c.ev, FiberWork(f), true); o.Done? && o.ok
    ensures DoIoWait(s, f, c, true).Next? && WaitArmed(s, DoIoWait(s, f, c, true).s, f, c)
  {
    WaitShape(s, f, c);
    if c.to.Some? {
      ArmsOwn(s, c.to.value, IoTimeout(c.info, c.fd, c.ev));
    }
  }

  lemma WaitIsGranted(s: Sys, f: nat, c: IoCall)
    requires Inv(s) && f in s.fibers && DoIoWait(s, f, c, true).Next?
    ensures var o := F.AddEvent(s.io, c.fd, c.ev, FiberWork(f), true); o.Done? && o.ok
  {
    WaitEffects(s, f, c, true);
    AddEventIoOk(s.io, c.fd, c.ev, FiberWork(f), true);
  }

  lemma TryingStep(s: Sys, f: nat, granted: bool)
    requires s.worker == Executing(f) && f in s.fibers && s.fibers[f].pc.Trying?
    ensures Apply(s, IoWait(granted)) == DoIoWait(s, f, s.fibers[f].pc.call, granted)
  {
    FiberStep(s, f, IoWait(granted));
  }

  // do_io's wait, its registration granted: the fiber is suspended in that call, and if the call has a
  // timeout, a timer for it is armed for the whole of it.
  lemma WaitArms(s: Sys, f: nat)
    requires Reachable(s) && s.worker == Executing(f) && f in s.fibers && s.fibers[f].pc.Trying?
    requires Apply(s, IoWait(true)).Next?
    ensures var s', c, id := Apply(s, IoWait(true)).s, s.fibers[f].pc.call, s.timers.nextId;
            && s'.worker == Picking && s'.tasks == s.tasks && s'.live == s.live
            && s'.fibers == s.fibers[f := Fiber(READY, Waiting(c, if c.to.None? then None else Some(id)))]
            && (c.to.None? ==> s'.timers == s.timers && s'.armings == s.armings)
            && (c.to.Some? ==> Armed(s, s', id, IoTimeout(c.info, c.fd, c.ev), c.to.value))
  {
    ReachableRecorded(s);
    TryingStep(s, f, true);
    WaitIsGranted(s, f, s.fibers[f].pc.call);
    GrantedWaitArms(s, f, s.fibers[f].pc.call);
  }

  lemma SleepStep(s: Sys, f: nat, ms: Word)
    requires s.worker == Executing(f) && f in s.fibers && s.fibers[f] == Fiber(RUNNING, User) && s.active > 0
    requires T.Valid(s.timers) && TimersRecorded(s.timers, s.armings)
    ensures Apply(s, Sleep(ms)).Next?
    ensures var s' := Apply(s, Sleep(ms)).s;
            && s'.worker == Picking && s'.tasks == s.tasks && s'.io == s.io
            && s'.fibers == s.fibers[f := Fiber(READY, Sleeping(s.timers.nextId))]
            && Armed(s, s', s.timers.nextId, WakeFiber(f), ms)
  {
    FiberStep(s, f, Sleep(ms));
    ArmsOwn(s, ms, WakeFiber(f));
  }

  // sleep: likewise, with the callback that wakes the fiber.
  lemma SleepArms(s: Sys, f: nat, ms: Word)
    requires Reachable(s) && s.worker == Executing(f) && f in s.fibers && s.fibers[f].pc.User?
    ensures Apply(s, Sleep(ms)).Next?
    ensures var s', id := Apply(s, Sleep(ms)).s, s.timers.nextId;
            && s'.worker == Picking && s'.tasks == s.tasks && s'.io == s.io
            && s'.fibers == s.fibers[f := Fiber(READY, Sleeping(id))]
            && Armed(s, s', id, WakeFiber(f), ms)
  {
    ReachableRecorded(s);
    SleepStep(s, f, ms);
  }

  lemma SuspendedGrows(s: Sys, f: nat, a: Action)
    requires Runs(s, f) && Recorded(s) && OfWaiting(a) && ApplyFiber(s, f, a).Next?
    ensures forall id :: id in s.armings ==>
              id in ApplyFiber(s, f, a).s.armings && ApplyFiber(s, f, a).s.armings[id] == s.armings[id]
  {
    if a.IoWait? {
      var c := s.fibers[f].pc.call;
      DoIoShape(s, f, a);
      WaitEffects(s, f, c, a.granted);
      AddEventIoOk(s.io, c.fd, c.ev, FiberWork(f), a.granted);
      if a.granted { WaitingState(s, f, c); } else { RefusedState(s, f, c); }
    } else {
      ParkingShape(s, f, a);
      if a.Sleep? {
        SleepIsPark(s, f, a.ms);
        ParkedState(s, f, [], Some(a.ms));
      } else {
        ParkedState(s, f, a.regs, a.sleep);
      }
    }
  }

  lemma StepKeepsArmings(s: Sys, a: Action)
    requires Inv(s) && Recorded(s) && Careful(s, a) && Apply(s, a).Next?
    ensures forall id :: id in s.armings ==>
              id in Apply(s, a).s.armings && Apply(s, a).s.armings[id] == s.armings[id]
  {
    if AnyThread(a) {
      OthersHistory(s, a);
    } else if OfWorker(a) {
      WorkerStep(s, a);
      WorkerKeepsArmings(s, a);
    } else if s.worker.Boot? && OnFds(a) {
    } else if OfWaiting(a) {
      FiberStep(s, s.worker.fiber, a);
      SuspendedGrows(s, s.worker.fiber, a);
    } else {
      FiberStep(s, s.worker.fiber, a);
      PlainFiberHistory(s, s.worker.fiber, a);
    }
  }

  lemma WorkerKeepsArmings(s: Sys, a: Action)
    requires OfWorker(a) && ApplyWorker(s, a).Next?
    ensures ApplyWorker(s, a).s.armings == s.armings
  {
    if a.Pick? {
      PickKeepsArmings(s);
    } else if !a.Expire? {
      WorkerHistory(s, a);
    }
  }

  lemma PickKeepsArmings(s: Sys)
    ensures DoPick(s).Next? ==> DoPick(s).s.armings == s.armings
  {
  }

  // What is recorded of an arming is never changed.
  lemma {:induction false} ArmingsStay(s: Sys, actions: seq<Action>, id: nat)
    requires Inv(s) && Recorded(s) && CarefulRun(s, actions) && RunAll(s, actions).Next? && id in s.armings
    ensures id in RunAll(s, actions).s.armings && RunAll(s, actions).s.armings[id] == s.armings[id]
    decreases |actions|
  {
    if actions != [] {
      ApplyKeepsInv(s, actions[0]);
      StepKeepsRecorded(s, actions[0]);
      StepKeepsArmings(s, actions[0]);
      ArmingsStay(Apply(s, actions[0]).s, actions[1..], id);
    }
  }

  // ---------------------------------------------------------------- what expires

  predicate RolledOver(previous: Word, now: Word) {
    if previous < 3_600_000 then now < previous else now + 3_600_000 < previous
  }

  // Expiries are recorded as they happen: of a timer that was in the set, at the clock reading of the
  // step, and when it was due or the clock is taken to have rolled over.
  lemma ExpiriesAreRecorded(s: Sys, address: nat)
    requires Reachable(s) && s.worker.Reported?
    ensures var s' := Apply(s, Expire(address)).s;
            forall x :: x in s'.expiries ==>
              || x in s.expiries
              || (x.at == s.now && x.rollover == RolledOver(s.timers.previous, s.now)
                  && exists e :: e in s.timers.entries && e.id == x.timer && e.cb == Some(x.cb)
                                 && (x.rollover || e.next <= s.now))
  {
    ReachableInv(s);
    WorkerStep(s, Expire(address));
    ExpireShape(s, address);
    T.RolloverExactly(s.timers.previous, s.now);
    T.TakenMembers(s.timers, s.now);
    ExpiriesOfMembers(T.Taken(s.timers, s.now), s.now, T.Rollover(s.timers.previous, s.now));
  }

  // ---------------------------------------------------------------- do_io

  lemma CancelsItsTimer(s: Sys, f: nat)
    requires Runs(s, f) && s.fibers[f].pc.Waiting?
    ensures var ts := if s.fibers[f].pc.timer.None? then s.timers
                      else T.Cancel(s.timers, s.fibers[f].pc.timer.value).0;
            forall e :: e in ts.entries <==> e in s.timers.entries && Some(e.id) != s.fibers[f].pc.timer
  {
    if s.fibers[f].pc.timer.Some? {
      T.CancelRemoves(s.timers, s.fibers[f].pc.timer.value);
    }
  }

  lemma ResumeStep(s: Sys, f: nat)
    requires s.worker == Executing(f) && f in s.fibers && s.fibers[f].state == RUNNING && s.fibers[f].pc.Waiting?
    requires s.fibers[f].pc.call.info in s.live
    ensures Apply(s, IoResume).Next?
    ensures var s', c, timer := Apply(s, IoResume).s, s.fibers[f].pc.call, s.fibers[f].pc.timer;
            && (s.live[c.info] ==>
                  s'.fibers == s.fibers[f := Fiber(RUNNING, User)] && s'.live == s.live - {c.info})
            && (!s.live[c.info] ==> s'.fibers == s.fibers[f := Fiber(RUNNING, Trying(c))] && s'.live == s.live)
            && s'.timers == (if timer.None? then s.timers else T.Cancel(s.timers, timer.value).0)
            && s'.io == s.io && s'.tasks == s.tasks && s'.worker == s.worker
  {
    FiberStep(s, f, IoResume);
  }

  // Back from its yield do_io cancels its timer and nothing else. If the timeout callback has marked the
  // call, it returns with the error and its timer_info is released; if not, it tries the same call again.
  lemma IoResumeExactly(s: Sys, f: nat)
    requires Reachable(s) && s.worker == Executing(f) && f in s.fibers && s.fibers[f].pc.Waiting?
    ensures s.fibers[f].pc.call.info in s.live && Apply(s, IoResume).Next?
    ensures var s', c, timer := Apply(s, IoResume).s, s.fibers[f].pc.call, s.fibers[f].pc.timer;
            && (s.live[c.info] ==>
                  s'.fibers == s.fibers[f := Fiber(RUNNING, User)] && s'.live == s.live - {c.info})
            && (!s.live[c.info] ==> s'.fibers == s.fibers[f := Fiber(RUNNING, Trying(c))] && s'.live == s.live)
            && (forall e :: e in s'.timers.entries <==> e in s.timers.entries && Some(e.id) != timer)
            && s'.io == s.io && s'.tasks == s.tasks && s'.worker == s.worker
  {
    ReachableInv(s);
    assert CallOf(s.fibers[f].pc) == Some(s.fibers[f].pc.call);
    ResumeStep(s, f);
    CancelsItsTimer(s, f);
  }

  // So when it gives up with ETIMEDOUT, a timer armed for the whole timeout of that same call has expired:
  // not before the timeout had passed since the clock reading at which do_io armed it, unless the clock
  // was taken to have rolled over or the deadline is past 2^64.
  lemma TimeoutsAreHonest(s: Sys, f: nat)
    requires Reachable(s) && s.worker == Executing(f) && f in s.fibers && s.fibers[f].pc.Waiting?
    requires Apply(s, IoResume).Next? && Apply(s, IoResume).s.fibers[f].pc.User?
    ensures var c := s.fibers[f].pc.call;
            && c.to.Some?
            && exists x :: x in s.expiries && x.cb == IoTimeout(c.info, c.fd, c.ev)
                 && x.timer in s.armings && s.armings[x.timer].cb == x.cb && s.armings[x.timer].ms == c.to.value
                 && var began := s.armings[x.timer].at;
                    x.rollover || began + c.to.value >= 0x1_0000_0000_0000_0000 || x.at >= began + c.to.value
  {
    ReachableRecorded(s);
    IoResumeExactly(s, f);
    var c := s.fibers[f].pc.call;
    assert CallOf(s.fibers[f].pc) == Some(c);
    assert Expired(s.expiries, c.info);
    var x :| x in s.expiries && x.cb.IoTimeout? && x.cb.info == c.info;
    assert OfCall(s.armings[x.timer], s.calls);
  }

  lemma TimeoutOfWaiter(s: Sys, g: nat, info: nat, fd: nat, ev: Event)
    requires Inv(s) && Recorded(s) && s.worker == Executing(g) && g in s.fibers
    requires s.fibers[g].pc == Fresh(CallbackBody(IoTimeout(info, fd, ev))) && info in s.live
    ensures info < |s.calls| && s.calls[info].owner in s.fibers && s.calls[info].owner != g
    ensures var fb := s.fibers[s.calls[info].owner];
            fb.state == READY && fb.pc.Waiting? && fb.pc.call == IoCall(info, fd, ev, s.calls[info].to)
  {
    assert RunsOwn(s.fibers[g].pc);
    var x :| x in s.expiries && x.cb == IoTimeout(info, fd, ev);
    assert OfCall(s.armings[x.timer], s.calls);
    assert InCall(s.fibers, s.calls[info].owner, info);
  }

  lemma TimeoutFires(s: Sys, fd: nat, ev: Event, f: nat, granted: bool)
    requires IoOk(s.io) && fd < |s.io.fds| && s.io.fds[fd].Get(ev).fiber == Some(f)
    ensures var r := F.CancelEvent(s.io, fd, ev, granted);
            && r.Done? && (r.ok <==> granted || s.io.fds[fd].events == {ev})
            && (r.ok ==> r.works == [FiberWork(f)] && r.st.fds[fd].Get(ev) == F.EMPTY)
            && (!r.ok ==> r.st == s.io && r.works == [])
  {
    assert ev in s.io.fds[fd].events && F.Full(s.io.fds[fd].Get(ev));
    F.CancelEventCoherent(s.io, fd, ev, granted);
    var r := F.CancelEvent(s.io, fd, ev, granted);
    if r.ok && !granted {
      assert s.io.fds[fd].events - {ev} == {};
    }
  }

  // The timeout callback of a call that is neither over nor marked: it marks the call. If its fiber is
  // still registered, that is for the event of the call, and the fiber is queued and the event gone,
  // unless epoll refuses to re-arm another event of the fd. So it comes back, and gives up.
  lemma TimeoutWakes(s: Sys, g: nat, info: nat, fd: nat, ev: Event, granted: bool, i: nat, e: Event)
    requires Reachable(s) && s.worker == Executing(g) && g in s.fibers
    requires s.fibers[g].pc == Fresh(CallbackBody(IoTimeout(info, fd, ev)))
    requires info in s.live && !s.live[info]
    requires i < |s.io.fds| && info < |s.calls| && s.io.fds[i].Get(e).fiber == Some(s.calls[info].owner)
    ensures i == fd && e == ev && Apply(s, Begin(granted)).Next?
    ensures var s', f := Apply(s, Begin(granted)).s, s.calls[info].owner;
            var fires := granted || s.io.fds[fd].events == {ev};
            && s'.live == s.live[info := true] && s'.timers == s.timers
            && s'.fibers == s.fibers[g := Fiber(TERM, Ended)]
            && s'.tasks == s.tasks + (if fires then [Task(FiberWork(f), -1)] else [])
            && |s'.io.fds| == |s.io.fds| && s'.io.fds[fd].Get(ev) == if fires then F.EMPTY else s.io.fds[fd].Get(ev)
  {
    ReachableRecorded(s);
    TimeoutOfWaiter(s, g, info, fd, ev);
    TimeoutFires(s, i, e, s.calls[info].owner, granted);
    MarksAndEnds(s, g, info, fd, ev, granted, F.CancelEvent(s.io, fd, ev, granted));
    OneOrNoTask(F.CancelEvent(s.io, fd, ev, granted).works, s.calls[info].owner);
    CancelEventSize(s.io, fd, ev, granted);
  }

  lemma OneOrNoTask(works: seq<Work>, f: nat)
    ensures works == [FiberWork(f)] ==> TasksOf(works) == [Task(FiberWork(f), -1)]
    ensures works == [] ==> TasksOf(works) == []
  {
  }

  lemma CancelEventSize(io: F.IoState, fd: nat, ev: Event, granted: bool)
    ensures F.CancelEvent(io, fd, ev, granted).Done? && |F.CancelEvent(io, fd, ev, granted).st.fds| == |io.fds|
  {
  }

  lemma MarksAndEnds(s: Sys, g: nat, info: nat, fd: nat, ev: Event, granted: bool, r: F.Outcome)
    requires g in s.fibers && s.fibers[g] == Fiber(RUNNING, Fresh(CallbackBody(IoTimeout(info, fd, ev))))
    requires s.active > 0
    requires s.worker == Executing(g) && info in s.live && !s.live[info]
    requires r == F.CancelEvent(s.io, fd, ev, granted) && r.Done?
    ensures Apply(s, Begin(granted)).Next?
    ensures var s' := Apply(s, Begin(granted)).s;
            && s'.live == s.live[info := true] && s'.timers == s.timers && s'.io == r.st
            && s'.fibers == s.fibers[g := Fiber(TERM, Ended)] && s'.tasks == s.tasks + TasksOf(r.works)
  {
    FiberStep(s, g, Begin(granted));
  }

  // ---------------------------------------------------------------- sleep

  // A fiber comes back from sleep only when the very timer that this sleep armed has expired: not before
  // the time had passed since the clock reading at which it was armed, with the same two exceptions.
  lemma SleepIsHonest(s: Sys, f: nat)
    requires Reachable(s) && f in s.fibers && s.fibers[f].state == RUNNING && s.fibers[f].pc.Sleeping?
    ensures var id := s.fibers[f].pc.alarm;
            && id in s.armings && s.armings[id].cb == WakeFiber(f)
            && exists x :: x in s.expiries && x.timer == id
                 && var a := s.armings[id];
                    x.rollover || a.at + a.ms >= 0x1_0000_0000_0000_0000 || x.at >= a.at + a.ms
  {
    ReachableRecorded(s);
    assert SleeperOk(s, f);
    var x :| x in s.expiries && x.timer == s.fibers[f].pc.alarm && x.cb == WakeFiber(f);
    assert Honest(x, s.armings[x.timer]);
  }

  lemma TakenIsQueued(s: Sys, address: nat, e: T.Entry)
    requires Inv(s) && s.worker.Reported? && e in T.Taken(s.timers, s.now) && e.cb.Some?
    ensures Task(CbWork(e.cb.value), -1) in DoExpire(s, address).tasks
  {
    ExpireShape(s, address);
    BatchHolds(T.Taken(s.timers, s.now), e);
  }

  lemma {:induction false} BatchHolds(es: seq<T.Entry>, e: T.Entry)
    requires e in es && e.cb.Some?
    ensures Task(CbWork(e.cb.value), -1) in S.BatchTasks(T.Callbacks(es))
  {
    assert T.Callbacks(es)[1..] == T.Callbacks(es[1..]);
    if es[0] != e {
      BatchHolds(es[1..], e);
    }
  }

  // ---------------------------------------------------------------- when a timer is looked at

  // A timer of do_io or sleep that is still in the set.
  ghost predicate StillSet(ts: T.TimerState, id: nat) {
    exists e :: e in ts.entries && e.id == id && !IsUser(e.cb)
  }

  // Timeouts and alarms are not late either: when the timers are looked at, the callback is queued exactly
  // if its time has come, or the clock is taken to have rolled over; otherwise the timer stays.
  lemma DueTimerIsQueued(s: Sys, id: nat, address: nat)
    requires Reachable(s) && s.worker.Reported? && StillSet(s.timers, id)
    ensures id in s.armings
    ensures var s', a := Apply(s, Expire(address)).s, s.armings[id];
            a.at + a.ms < 0x1_0000_0000_0000_0000 ==>
              if s.now >= a.at + a.ms || RolledOver(s.timers.previous, s.now)
              then Task(CbWork(a.cb), -1) in s'.tasks && !StillSet(s'.timers, id)
              else StillSet(s'.timers, id)
  {
    ReachableRecorded(s);
    WorkerStep(s, Expire(address));
    var e :| e in s.timers.entries && e.id == id && !IsUser(e.cb);
    T.RolloverExactly(s.timers.previous, s.now);
    T.TakenMembers(s.timers, s.now);
    T.ListExpiredMembers(s.timers, s.now, address);
    if e in T.Taken(s.timers, s.now) {
      TakenIsQueued(s, address, e);
      TakenIsGone(s, address, e);
    }
  }

  lemma TakenIsGone(s: Sys, address: nat, e: T.Entry)
    requires Inv(s) && e in T.Taken(s.timers, s.now) && e in s.timers.entries && !IsUser(e.cb)
    ensures forall d :: d in T.ListExpired(s.timers, s.now, address).0.entries ==> d.id != e.id
  {
    T.ListExpiredMembers(s.timers, s.now, address);
    T.TakenMembers(s.timers, s.now);
    T.OnlyOneById(s.timers.entries, e.id);
  }
}
