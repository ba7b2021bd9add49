// Hook.cpp: do_io's wait on objects, tied to the step of module Runtime, and the intervals the
// sleep family arms.
module Hook {
  import opened Common
  import opened TimerObjects
  import opened IOManagerObjects
  import T = Timers
  import F = FdEvents
  import R = Runtime
  import Steps = FiberSteps

  // The timer set with the timeout of the call armed, if it has one.
  function Armed(c: R.IoCall, ts: T.TimerState, now: Word): T.TimerState {
    if c.to.None? then ts else T.AddTimer(ts, c.to.value, Some(IoTimeout(c.info, c.fd, c.ev)), false, now).0
  }

  // What lies between EAGAIN and the yield, or the return of -1: timers and fds before and after.
  ghost predicate WaitBegun(c: R.IoCall, fiber: nat, granted: bool, now: Word,
                            ts: T.TimerState, io: F.IoState, ts': T.TimerState, io': F.IoState, waiting: bool) {
    && F.AddEvent(io, c.fd, c.ev, FiberWork(fiber), granted) == F.Done(io', [], waiting)
    && ts' == if waiting || c.to.None? then Armed(c, ts, now) else T.Cancel(Armed(c, ts, now), ts.nextId).0
  }

  // What lies between the yield and the return of -1, or the retry: the timers before and after, and which.
  ghost predicate WaitEnded(timer: Option<nat>, cancelled: bool, ts: T.TimerState, ts': T.TimerState, timedOut: bool) {
    && timedOut == cancelled
    && ts' == if timer.None? then ts else T.Cancel(ts, timer.value).0
  }

  // What the timeout callback does while its call is alive: mark, fd table and queue before and after.
  ghost predicate TimeoutRun(c: R.IoCall, granted: bool, cancelled: bool, io: F.IoState, tasks: seq<Task>,
                             cancelled': bool, io': F.IoState, tasks': seq<Task>) {
    && cancelled'
    && if cancelled then io' == io && tasks' == tasks
       else
         var r := F.CancelEvent(io, c.fd, c.ev, granted);
         r.Done? && io' == r.st && tasks' == tasks + R.TasksOf(r.works)
  }

  // The locals of one do_io call that outlive its yield: timer_info and the armed timer.
  class PendingIo {
    const info: nat
    const fd: nat
    const ev: Event
    const to: Option<Word>
    var cancelled: bool
    var timer: Timer?

    constructor (info: nat, fd: nat, ev: Event, to: Option<Word>)
      ensures this.info == info && this.fd == fd && this.ev == ev && this.to == to
      ensures !cancelled && timer == null
    {
      this.info, this.fd, this.ev, this.to := info, fd, ev, to;
      cancelled, timer := false, null;
    }

    ghost predicate OwnTimer(timers: TimerManager)
      reads this, timers, timer
    {
      timer != null ==> timer in timers.all && timer.manager == timers
    }

    function Call(): R.IoCall {
      R.IoCall(info, fd, ev, to)
    }

    function TimerId(): Option<nat>
      reads this
    {
      if timer == null then None else Some(timer.id)
    }

    method ArmTimeout(timers: TimerManager, now: Word) returns (front: bool)
      requires timers.Valid()
      modifies this`timer, timers
      ensures timers.Valid() && OwnTimer(timers) && timers.View() == Armed(Call(), old(timers.View()), now)
      ensures timer == null <==> to.None?
      ensures timer != null ==> fresh(timer) && timer.id == old(timers.View()).nextId
    {
      timer, front := null, false;
      if to.Some? {
        timer, front := timers.AddTimer(to.value, Some(IoTimeout(info, fd, ev)), false, now);
      }
    }

    // timer->cancel() if one was armed.
    method Disarm(timers: TimerManager)
      requires timers.Valid() && OwnTimer(timers)
      modifies timers`timers, timers`entries, timer
      ensures timers.Valid()
      ensures timers.View() == if timer == null then old(timers.View()) else T.Cancel(old(timers.View()), timer.id).0
      ensures timer != null ==> !T.Active(timers.View(), timer.id)
    {
      if timer != null {
        var _ := timer.Cancel();
        timers.InactiveEntry(timer);
      }
    }

    // From EAGAIN to the yield: arm the timeout, register the event. If registration is refused
    // the timer is cancelled again and do_io returns -1. `waiting` says whether it yields.
    method BeginWait(iom: IOManager, timers: TimerManager, fiber: nat, granted: bool, now: Word)
      returns (waiting: bool, front: bool)
      requires iom.Valid() && timers.Valid() && (fd < |iom.contexts| ==> ev !in iom.contexts[fd].events)
      modifies this`timer, iom, iom.contexts, timers
      ensures iom.Valid() && timers.Valid() && (waiting ==> OwnTimer(timers))
      ensures WaitBegun(Call(), fiber, granted, now,
                        old(timers.View()), old(iom.State()), timers.View(), iom.State(), waiting)
      ensures timer != null ==> timer.id == old(timers.View()).nextId
    {
      front := ArmTimeout(timers, now);
      var rt := iom.AddEvent(fd, ev, FiberWork(fiber), granted);
      waiting := rt == 0;
      if !waiting {
        Disarm(timers);
      }
    }

    // Back from the yield: cancel the timer; true means give up with ETIMEDOUT, false retry.
    method EndWait(timers: TimerManager) returns (timedOut: bool)
      requires timers.Valid() && OwnTimer(timers)
      modifies timers`timers, timers`entries, timer
      ensures timers.Valid()
      ensures WaitEnded(TimerId(), old(cancelled), old(timers.View()), timers.View(), timedOut)
      ensures timer != null ==> !T.Active(timers.View(), timer.id)
    {
      Disarm(timers);
      timedOut := cancelled;
    }

    // The timeout callback while the call is still on its fiber's stack.
    method OnTimeout(iom: IOManager, granted: bool)
      requires iom.Valid()
      modifies this`cancelled, iom`kernel, iom`pending, iom`fds, iom.contexts, iom.sched`tasks
      ensures iom.Valid()
      ensures TimeoutRun(Call(), granted, old(cancelled), old(iom.State()), old(iom.sched.tasks),
                         cancelled, iom.State(), iom.sched.tasks)
    {
      if cancelled {
        return;
      }
      cancelled := true;
      var _ := iom.CancelEvent(fd, ev, granted);
    }
  }

  // The step IoWait of the runtime does to timers and fds what BeginWait promises, and then yields,
  // or leaves do_io.
  lemma WaitStepIsBeginWait(s: R.Sys, f: nat, c: R.IoCall, granted: bool,
                            ts: T.TimerState, io: F.IoState, waiting: bool)
    requires f in s.fibers && s.fibers[f].state == R.RUNNING && s.active > 0
    requires WaitBegun(c, f, granted, s.now, s.timers, s.io, ts, io, waiting)
    ensures var r := R.DoIoWait(s, f, c, granted);
            && r.Next? && r.s.timers == ts && r.s.io == io
            && (if waiting then r.s.worker.Picking? && r.s.fibers[f] == R.Fiber(R.READY, Steps.WaitingPc(s, c))
                else r.s.worker == s.worker && r.s.fibers[f].pc == R.User && c.info !in r.s.live)
  {
  }

  // The step IoResume likewise: it cancels the timer as EndWait does, and leaves do_io exactly if EndWait
  // says so.
  lemma ResumeStepIsEndWait(s: R.Sys, f: nat, c: R.IoCall, timer: Option<nat>, ts: T.TimerState, timedOut: bool)
    requires f in s.fibers && s.fibers[f].pc == R.Waiting(c, timer) && c.info in s.live
    requires WaitEnded(timer, s.live[c.info], s.timers, ts, timedOut)
    ensures var s' := R.DoIoResume(s, f, c, timer);
            && s'.timers == ts && s'.io == s.io && s'.tasks == s.tasks
            && (if timedOut then s'.fibers[f].pc == R.User && s'.live == s.live - {c.info}
                else s'.fibers[f].pc == R.Trying(c) && s'.live == s.live)
  {
  }

  // And the first step of the fiber that runs the timeout callback does what OnTimeout promises, while
  // the call is alive, and then ends.
  lemma TimeoutStepIsOnTimeout(s: R.Sys, g: nat, c: R.IoCall, granted: bool,
                               cancelled: bool, io: F.IoState, tasks: seq<Task>)
    requires g in s.fibers && s.fibers[g] == R.Fiber(R.RUNNING, R.Fresh(R.CallbackBody(IoTimeout(c.info, c.fd, c.ev))))
    requires s.active > 0 && c.info in s.live
    requires TimeoutRun(c, granted, s.live[c.info], s.io, s.tasks, cancelled, io, tasks)
    ensures var r := R.DoBegin(s, g, granted);
            && r.Next? && r.s.live == s.live[c.info := cancelled] && r.s.io == io && r.s.tasks == tasks
            && r.s.fibers == s.fibers[g := R.Fiber(R.TERM, R.Ended)] && r.s.timers == s.timers
  {
  }

  // ---------------------------------------------------------------- sleep, usleep, nanosleep

  const TWO32: int := 0x1_0000_0000
  const INT_LIMIT: int := 0x8000_0000

  type Unsigned = x: int | 0 <= x < 0x1_0000_0000

  // seconds * 1000 in unsigned int.
  function SleepMs(seconds: Unsigned): Word {
    (seconds * 1000) % TWO32
  }

  function UsleepMs(usec: Unsigned): Word {
    usec / 1000
  }

  // The milliseconds nanosleep computes, in a signed long.
  function TotalMs(sec: int, nsec: nat): int {
    sec * 1000 + nsec / 1000 / 1000
  }

  const LONG_LIMIT: int := 0x8000_0000_0000_0000

  // They are cut to an int, and a negative int becomes a huge uint64_t.
  function NanosleepMs(sec: int, nsec: nat): Word {
    CutToInt(TotalMs(sec, nsec))
  }

  // sleep waits the time asked for exactly up to 4294967 seconds; from there on it loses multiples of 2^32
  // milliseconds, and is always shorter.
  lemma SleepExactly(seconds: Unsigned)
    ensures SleepMs(seconds) == seconds * 1000 <==> seconds <= 4294967
    ensures SleepMs(seconds) < 0x1_0000_0000
    ensures exists k: nat :: Wraps(seconds * 1000, k, SleepMs(seconds))
  {
    assert Wraps(seconds * 1000, seconds * 1000 / TWO32, SleepMs(seconds));
  }

  // `low` is `total` less k times 2^32.
  predicate Wraps(total: int, k: int, low: int) {
    total == k * 0x1_0000_0000 + low
  }

  // usleep rounds down to whole milliseconds, to zero below one.
  lemma UsleepRoundsDown(usec: Unsigned)
    ensures UsleepMs(usec) * 1000 <= usec < (UsleepMs(usec) + 1) * 1000
  {
  }

  function CutToInt(total: int): Word {
    var low := total % TWO32;
    if low < INT_LIMIT then low else low - TWO32 + TWO64
  }

  // nanosleep arms the whole milliseconds asked for exactly when they fit an int and are not negative;
  // otherwise what is left of them in an int, a negative one as a huge uint64_t.
  lemma NanosleepExactly(sec: int, nsec: nat)
    requires nsec < 1_000_000_000
    requires -LONG_LIMIT <= TotalMs(sec, nsec) < LONG_LIMIT
    ensures NanosleepMs(sec, nsec) == TotalMs(sec, nsec) <==> 0 <= TotalMs(sec, nsec) < INT_LIMIT
    ensures var asked := sec * 1_000_000_000 + nsec;
            TotalMs(sec, nsec) * 1_000_000 <= asked < (TotalMs(sec, nsec) + 1) * 1_000_000
    ensures exists k, low :: Wraps(TotalMs(sec, nsec), k, low) && -0x8000_0000 <= low < 0x8000_0000
              && NanosleepMs(sec, nsec) == if low < 0 then low + 0x1_0000_0000_0000_0000 else low
  {
    var total := TotalMs(sec, nsec);
    var q, low := total / TWO32, total % TWO32;
    assert total == q * TWO32 + low;
    if q != 0 && low < INT_LIMIT {
      assert total != low;
    }
    if low >= INT_LIMIT {
      assert low - TWO32 + TWO64 >= LONG_LIMIT;
    }
    assert nsec / 1000 / 1000 == nsec / 1_000_000;
    assert low < INT_LIMIT ==> Wraps(total, q, low);
    assert low >= INT_LIMIT ==> Wraps(total, q + 1, low - TWO32);
  }
}
