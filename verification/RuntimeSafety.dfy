// The main results about whole runs of the coroutine runtime.
module RuntimeSafety {
  import opened Common
  import opened Runtime
  import opened WakeTokens
  import opened RuntimeInvariant
  import opened RuntimeSteps
  import opened FiberSteps
  import T = Timers
  import F = FdEvents
  import S = Scheduling

  // The assertions a step can trip: an event registered twice, or stop() at the wrong moment.
  predicate Permitted(s: Sys, a: Action, assertion: Assertion) {
    assertion == Io(F.DoubleRegistration) || StopTrips(s, a, assertion)
  }

  lemma ApplyKeepsInv(s: Sys, a: Action)
    requires Inv(s) && Careful(s, a)
    ensures (Apply(s, a).Abort? ==> Permitted(s, a, Apply(s, a).assertion))
            && (Apply(s, a).Next? ==> Inv(Apply(s, a).s))
  {
    if AnyThread(a) {
      AnyThreadKeepsInv(s, a);
    } else if OfWorker(a) {
      WorkerKeepsInv(s, a);
    } else if s.worker.Boot? && OnFds(a) {
      FdStepKeepsInv(s, a);
    } else if s.worker.Executing? && s.worker.fiber in s.fibers {
      FiberKeepsInv(s, s.worker.fiber, a);
    }
  }

  // stop() is called by the main thread before run(), or when all is done.
  predicate StopAllowed(s: Sys) {
    StopEnabled(s) ==> Stopped(s) || s.root == READY
  }

  ghost predicate StopsInOrder(s: Sys, actions: seq<Action>)
    decreases |actions|
  {
    actions == []
    || ((actions[0].Stop? ==> StopAllowed(s))
        && (Apply(s, actions[0]).Next? ==> StopsInOrder(Apply(s, actions[0]).s, actions[1..])))
  }

  // Over every careful run: the invariant holds throughout. Of all the assertions in the scheduler, the
  // fibers and the fd table two can fail: the one against registering an event twice, and the one
  // in Fiber::resume; and that one exactly when some stop() of the run is out of order.
  lemma {:induction false} RunIsSafe(s: Sys, actions: seq<Action>)
    requires Inv(s) && CarefulRun(s, actions)
    ensures RunAll(s, actions).Next? ==> Inv(RunAll(s, actions).s)
    ensures RunAll(s, actions).Abort? ==>
              RunAll(s, actions).assertion == Io(F.DoubleRegistration) || RunAll(s, actions).assertion == ResumeNotReady
    ensures RunAll(s, actions) == Abort(ResumeNotReady) <==> !StopsInOrder(s, actions)
    decreases |actions|
  {
    if actions != [] {
      ApplyKeepsInv(s, actions[0]);
      if Apply(s, actions[0]).Next? {
        RunIsSafe(Apply(s, actions[0]).s, actions[1..]);
      }
    }
  }

  // The states of careful runs.
  ghost predicate Reachable(s: Sys) {
    exists now: Word, actions ::
      now > 0 && CarefulRun(Initial(now), actions) && RunAll(Initial(now), actions) == Next(s)
  }

  lemma ReachableInv(s: Sys)
    requires Reachable(s)
    ensures Inv(s)
  {
    var now: Word, actions :|
      now > 0 && CarefulRun(Initial(now), actions) && RunAll(Initial(now), actions) == Next(s);
    InitialInv(now);
    RunIsSafe(Initial(now), actions);
  }

  // Closing an fd and parking apart, nothing takes care.
  predicate Plain(a: Action) {
    !a.Close? && !a.CloseElsewhere? && !a.Park?
  }

  lemma {:induction false} PlainRunIsCareful(s: Sys, actions: seq<Action>)
    requires forall a :: a in actions ==> Plain(a)
    ensures CarefulRun(s, actions)
    decreases |actions|
  {
    if actions != [] {
      assert actions[0] in actions;
      if Apply(s, actions[0]).Next? {
        PlainRunIsCareful(Apply(s, actions[0]).s, actions[1..]);
      }
    }
  }

  // Wake-up conservation. In every reachable state a suspended or not yet started fiber has
  // exactly one wake source among queued tasks, fd-event slots, sleep timers and sleep's
  // callback under way; a running or ended fiber has none. So no waiting fiber is lost, and
  // none is resumed twice, whatever races its wait.
  lemma WakeUpConservation(s: Sys, f: nat)
    requires Reachable(s) && f in s.fibers
    ensures TasksTok(s.tasks, f) + FdsTok(s.io.fds, f) + TimersTok(s.timers.entries, f)
            + InFlight(s.worker, s.fibers, f)
         == if s.fibers[f].state == READY then 1 else 0
  {
    ReachableInv(s);
    assert WakeSources(s, f) == if IsReady(s.fibers, f) then 1 else 0;
  }

  lemma {:induction false} NoEventsNoTokens(fds: seq<F.FdContext>, f: nat)
    requires forall i :: 0 <= i < |fds| ==> fds[i].events == {} && F.SlotsMatch(fds[i])
    ensures FdsTok(fds, f) == 0
  {
    if fds != [] {
      assert fds[0].Get(Read) == F.EMPTY && fds[0].Get(Write) == F.EMPTY;
      NoEventsNoTokens(fds[1..], f);
    }
  }

  lemma CallerNotEnded(s: Sys, i: nat)
    requires Inv(s) && i in s.live
    ensures exists f :: f in s.fibers && s.fibers[f].state != TERM
  {
  }

  // ---------------------------------------------------------------- stopping

  // Graceful stop. When run() returns, and no other thread has armed a timer after the last stop
  // check read the timers or handed in a task after it decided, there are no tasks, no timers, no
  // registered events, no active task and no do_io call in progress, and every fiber there ever
  // was has ended.
  lemma GracefulStop(s: Sys)
    requires Reachable(s) && s.worker.Exited? && !s.late
    ensures s.tasks == [] && s.timers.entries == [] && s.active == 0
    ensures forall i :: 0 <= i < |s.io.fds| ==> s.io.fds[i] == F.UNUSED
    ensures s.io.kernel == map[] && s.live == map[]
    ensures forall f :: f in s.fibers ==> s.fibers[f].state == TERM
    ensures s.scheduled == s.completed
  {
    ReachableInv(s);
    F.NoBitsNoEvents(s.io.fds);
    forall i | 0 <= i < |s.io.fds| ensures s.io.fds[i] == F.UNUSED {
      assert s.io.fds[i].Get(Read) == F.EMPTY && s.io.fds[i].Get(Write) == F.EMPTY;
    }
    forall f | f in s.fibers ensures s.fibers[f].state == TERM {
      NoEventsNoTokens(s.io.fds, f);
      assert WakeSources(s, f) == if IsReady(s.fibers, f) then 1 else 0;
    }
    forall i ensures i !in s.live {
      if i in s.live {
        CallerNotEnded(s, i);
      }
    }
  }

  lemma {:induction false} UserTimersNoTokens(es: seq<T.Entry>, f: nat)
    requires forall e :: e in es ==> IsUser(e.cb)
    ensures TimersTok(es, f) == 0
  {
    if es != [] {
      assert es[0] in es;
      UserTimersNoTokens(es[1..], f);
    }
  }

  // The idle fiber itself ends only at its stop check, after stop(), with nothing queued or
  // registered and every fiber ended. The one thing it can leave behind is a timer of the program
  // armed inside the check.
  lemma IdleEndsOnlyWhenDone(s: Sys, a: Action)
    requires Inv(s) && s.idle != TERM
    ensures Apply(s, a).Next? && Apply(s, a).s.idle == TERM ==>
              && a.DecideStop? && s.worker.TimersRead? && s.stopping && s.tasks == [] && s.io.pending == 0
              && (forall e :: e in s.timers.entries ==> IsUser(e.cb))
              && (!s.worker.armed ==> s.timers.entries == [])
              && (forall f :: f in s.fibers ==> s.fibers[f].state == TERM)
  {
    IdleEndsAtDecideStop(s, a);
    if Apply(s, a).Next? && Apply(s, a).s.idle == TERM {
      StoppedFibersEnded(s);
    }
  }

  lemma StoppedFibersEnded(s: Sys)
    requires Inv(s) && s.worker.TimersRead? && DoDecideStop(s).Next? && DoDecideStop(s).s.idle == TERM
    ensures forall f :: f in s.fibers ==> s.fibers[f].state == TERM
  {
    F.NoBitsNoEvents(s.io.fds);
    forall f | f in s.fibers ensures s.fibers[f].state == TERM {
      NoEventsNoTokens(s.io.fds, f);
      UserTimersNoTokens(s.timers.entries, f);
      assert WakeSources(s, f) == if IsReady(s.fibers, f) then 1 else 0;
    }
  }

  lemma IdleEndsAtDecideStop(s: Sys, a: Action)
    requires s.idle != TERM
    ensures Apply(s, a).Next? && Apply(s, a).s.idle == TERM ==>
              a.DecideStop? && s.worker.TimersRead? && Apply(s, a) == DoDecideStop(s)
  {
    if AnyThread(a) {
      OthersLeaveIdle(s, a);
    } else if OfWorker(a) {
      WorkerEndsIdle(s, a);
    } else if s.worker.Executing? && s.worker.fiber in s.fibers && ApplyFiber(s, s.worker.fiber, a).Next? {
      FiberStepFrame(s, s.worker.fiber, a);
    }
  }

  lemma OthersLeaveIdle(s: Sys, a: Action)
    ensures ApplyAny(s, a).Next? ==> ApplyAny(s, a).s.idle == s.idle
  {
  }

  lemma WorkerEndsIdle(s: Sys, a: Action)
    requires s.idle != TERM
    ensures ApplyWorker(s, a).Next? && ApplyWorker(s, a).s.idle == TERM ==> a.DecideStop? && s.worker.TimersRead?
  {
  }

  lemma FirstStep(s: Sys, actions: seq<Action>, s': Sys)
    requires actions != [] && Apply(s, actions[0]) == Next(s')
    ensures RunAll(s, actions) == RunAll(s', actions[1..])
  {
  }

  lemma WorkerStep(s: Sys, a: Action)
    requires OfWorker(a)
    ensures Apply(s, a) == ApplyWorker(s, a)
  {
  }

  lemma FiberStep(s: Sys, f: nat, a: Action)
    requires s.worker == Executing(f) && f in s.fibers && !AnyThread(a) && !OfWorker(a)
    ensures Apply(s, a) == ApplyFiber(s, f, a)
  {
  }

  // The idle branch of run().
  lemma IdleStarts(s: Sys)
    requires s.worker.Picking? && s.tasks == [] && s.idle == READY
    ensures Apply(s, Pick) == Next(s.(idle := RUNNING, idleCount := s.idleCount + 1, worker := IdleCheck))
  {
    WorkerStep(s, Pick);
  }

  // Taking an unpinned fiber from the front of the queue.
  function Taken(s: Sys, f: nat): Sys
    requires s.tasks != [] && f in s.fibers
  {
    s.(tasks := s.tasks[1..], active := s.active + 1,
       fibers := s.fibers[f := s.fibers[f].(state := RUNNING)], worker := Executing(f))
  }

  lemma TakesFiber(s: Sys, f: nat)
    requires s.worker.Picking? && s.tasks != [] && s.tasks[0] == Task(FiberWork(f), ANY_THREAD)
    requires f in s.fibers
    ensures Apply(s, Pick) == if s.fibers[f].state == READY then Next(Taken(s, f)) else Abort(TaskNotReady)
  {
    WorkerStep(s, Pick);
    assert S.Pick(s.tasks, ME) == 0 && S.Without(s.tasks, 0) == s.tasks[1..];
  }

  // ---------------------------------------------------------------- what the stop check misses

  // Work or a timer from another thread, or from the program.
  predicate HandsIn(a: Action) {
    a.Spawn? || a.Post? || a.Arm?
  }

  // Something has come late exactly if it was handed in when the idle fiber had ended already, or was a
  // timer armed inside the very check that ended it.
  lemma LateExactly(s: Sys, a: Action)
    requires Inv(s) && Apply(s, a).Next?
    ensures var s' := Apply(s, a).s;
            && (s'.late <==>
                  s.late || (HandsIn(a) && s.idle == TERM)
                  || (a.DecideStop? && s.worker.TimersRead? && s.worker.armed && s'.idle == TERM))
            && (s'.worker.TimersRead? ==>
                  (s'.worker.armed <==> s.worker.TimersRead? && (s.worker.armed || a.Arm?)))
  {
    if AnyThread(a) {
      OthersLate(s, a);
    } else if OfWorker(a) {
      WorkerStep(s, a);
      WorkerLate(s, a);
    } else if s.worker.Boot? && OnFds(a) {
      OnFdsLate(s, a);
    } else {
      FiberStep(s, s.worker.fiber, a);
      FiberLate(s, s.worker.fiber, a);
    }
  }

  lemma OthersLate(s: Sys, a: Action)
    requires AnyThread(a) && ApplyAny(s, a).Next?
    ensures var s' := ApplyAny(s, a).s;
            && (s'.late <==> s.late || (HandsIn(a) && s.idle == TERM))
            && (s'.worker.TimersRead? ==> s.worker.TimersRead? && (s'.worker.armed <==> s.worker.armed || a.Arm?))
  {
  }

  lemma WorkerLate(s: Sys, a: Action)
    requires OfWorker(a) && ApplyWorker(s, a).Next? && (s.worker.TimersRead? ==> s.idle != TERM)
    ensures var s' := ApplyWorker(s, a).s;
            && (s'.late <==>
                  s.late || (a.DecideStop? && s.worker.TimersRead? && s.worker.armed && s'.idle == TERM))
            && (s'.worker.TimersRead? ==> !s'.worker.armed && !s.worker.TimersRead?)
  {
    if a.Pick? {
      PickLate(s);
    }
  }

  lemma PickLate(s: Sys)
    requires DoPick(s).Next?
    ensures DoPick(s).s.late == s.late && !DoPick(s).s.worker.TimersRead?
  {
  }

  lemma OnFdsLate(s: Sys, a: Action)
    requires OnFds(a) && ApplyOnFds(s, a).Next?
    ensures ApplyOnFds(s, a).s.late == s.late && ApplyOnFds(s, a).s.worker == s.worker
  {
  }

  lemma DoIoLate(s: Sys, f: nat, a: Action)
    requires s.worker == Executing(f) && f in s.fibers && OfDoIo(a) && ApplyFiber(s, f, a).Next?
    ensures ApplyFiber(s, f, a).s.late == s.late && !ApplyFiber(s, f, a).s.worker.TimersRead?
  {
    DoIoShape(s, f, a);
  }

  lemma ParkingLate(s: Sys, f: nat, a: Action)
    requires s.worker == Executing(f) && f in s.fibers && OfParking(a) && ApplyFiber(s, f, a).Next?
    ensures ApplyFiber(s, f, a).s.late == s.late && !ApplyFiber(s, f, a).s.worker.TimersRead?
  {
    ParkingShape(s, f, a);
  }

  lemma FiberLate(s: Sys, f: nat, a: Action)
    requires s.worker == Executing(f) && f in s.fibers && !AnyThread(a) && !OfWorker(a) && ApplyFiber(s, f, a).Next?
    ensures ApplyFiber(s, f, a).s.late == s.late && !ApplyFiber(s, f, a).s.worker.TimersRead?
  {
    if OnFds(a) {
      FdStepShape(s, f, a);
      OnFdsLate(s, a);
    } else if OfDoIo(a) {
      DoIoLate(s, f, a);
    } else if OfParking(a) {
      ParkingLate(s, f, a);
    }
  }

  lemma ArmInside(s: Sys, ms: Word, tag: Option<nat>, recurring: bool)
    requires s.worker.TimersRead?
    ensures var r := ApplyAny(s, Arm(ms, tag, recurring));
            && r.Next? && r.s.worker == TimersRead(s.worker.wait, true) && r.s.timers.entries != []
            && r.s.tasks == s.tasks && r.s.io == s.io && r.s.stopping == s.stopping
            && r.s.active == s.active && r.s.idle == s.idle && r.s.idleCount == s.idleCount
  {
  }

  predicate EndsIdle(s: Sys) {
    s.worker.TimersRead? && s.worker.wait == FOREVER && s.io.pending == 0 && s.stopping && s.tasks == []
  }

  lemma DecideAndPick(s: Sys)
    requires s.worker.TimersRead? && s.idle == RUNNING && s.active == 0 && s.idleCount == 1
    ensures var run := RunAll(s, [DecideStop, Pick]);
            && (run.Next? && run.s.worker.Exited? <==> EndsIdle(s))
            && (EndsIdle(s) ==> run.s.timers == s.timers && run.s.late == (s.late || s.worker.armed))
  {
    var s2 := DoDecideStop(s).s;
    FirstStep(s, [DecideStop, Pick], s2);
    if EndsIdle(s) {
      ExitsAtOnce(s2);
      FirstStep(s2, [Pick], s2.(worker := Exited, root := TERM));
    }
  }

  lemma ExitsAtOnce(s: Sys)
    requires s.worker.Picking? && s.idle == TERM && s.tasks == []
    ensures Apply(s, Pick) == Next(s.(worker := Exited, root := TERM))
  {
  }

  // stopping() reads the timers and the tasks under different locks. A timer that another thread
  // arms between the two is lost, run() returning without it, exactly when the check was about to
  // end the idle fiber.
  lemma ArmInTheWindow(s: Sys, ms: Word, tag: Option<nat>, recurring: bool)
    requires Inv(s) && s.worker.TimersRead?
    ensures var run := RunAll(s, [Arm(ms, tag, recurring), DecideStop, Pick]);
            && (run.Next? && run.s.worker.Exited? <==> EndsIdle(s))
            && (EndsIdle(s) ==> run.s.timers.entries != [] && run.s.late)
  {
    var s1 := ApplyAny(s, Arm(ms, tag, recurring)).s;
    ArmInside(s, ms, tag, recurring);
    FirstStep(s, [Arm(ms, tag, recurring), DecideStop, Pick], s1);
    DecideAndPick(s1);
  }

  const TO_THE_CHECK: seq<Action> := [Stop, Pick, ReadTimers]

  lemma StopsAtOnce(s: Sys)
    requires s.worker.Boot? && s.idle == READY && s.root == READY && s.tasks == [] && s.active == 0
    requires s.idleCount == 0 && !s.stopping && !s.late && s.io.pending == 0 && s.timers.entries == []
    ensures var run := RunAll(s, TO_THE_CHECK);
            && run.Next? && run.s.worker == TimersRead(FOREVER, false) && run.s.stopping && run.s.io.pending == 0
            && run.s.tasks == [] && run.s.active == 0 && run.s.idleCount == 1
  {
    var timers := s.timers.(tickled := false);
    var s1 := s.(timers := timers, stopping := true, root := RUNNING, worker := Picking);
    var s2 := s1.(idle := RUNNING, idleCount := 1, worker := IdleCheck);
    FirstStep(s, TO_THE_CHECK, s1);
    FirstStep(s1, [Pick, ReadTimers], s2);
    FirstStep(s2, [ReadTimers], DoReadTimers(s2));
  }

  lemma {:induction false} RunConcat(s: Sys, a: seq<Action>, b: seq<Action>)
    requires RunAll(s, a).Next?
    ensures RunAll(s, a + b) == RunAll(RunAll(s, a).s, b)
    decreases |a|
  {
    if a == [] {
      assert a + b == b;
    } else {
      assert (a + b)[1..] == a[1..] + b;
      RunConcat(Apply(s, a[0]).s, a[1..], b);
    }
  }

  // Such a run, from a fresh scheduler.
  lemma TimerIsLost()
    ensures var run := RunAll(Initial(1), TO_THE_CHECK + [Arm(10, Some(7), false), DecideStop, Pick]);
            run.Next? && run.s.worker.Exited? && run.s.timers.entries != []
  {
    StopsAtOnce(Initial(1));
    CheckedInv();
    ArmInTheWindow(RunAll(Initial(1), TO_THE_CHECK).s, 10, Some(7), false);
    RunConcat(Initial(1), TO_THE_CHECK, [Arm(10, Some(7), false), DecideStop, Pick]);
  }

  lemma CheckedInv()
    ensures var run := RunAll(Initial(1), TO_THE_CHECK); run.Next? ==> Inv(run.s)
  {
    InitialInv(1);
    PlainRunIsCareful(Initial(1), TO_THE_CHECK);
    RunIsSafe(Initial(1), TO_THE_CHECK);
  }

  const LATE_WORK: seq<Action> := [Spawn(ANY_THREAD), Pick, Begin(true), Sleep(10), Pick]

  // Tasks likewise: one that another thread hands in after the idle fiber has ended is run, but
  // what it then waits for is not, and run() returns with it asleep.
  lemma LateWorkIsLost(s: Sys)
    requires s.worker.Picking? && s.idle == TERM && s.tasks == [] && s.active == 0
    ensures var run := RunAll(s, LATE_WORK);
            && run.Next? && run.s.worker.Exited? && run.s.late && run.s.timers.entries != []
            && s.nextFiber in run.s.fibers && Asleep(run.s.fibers[s.nextFiber])
  {
    var s1 := ApplyAny(s, Spawn(ANY_THREAD)).s;
    var f := s.nextFiber;
    assert s1.tasks == [Task(FiberWork(f), ANY_THREAD)];
    FirstStep(s, LATE_WORK, s1);
    TakesFiber(s1, f);
    FirstStep(s1, [Pick, Begin(true), Sleep(10), Pick], Taken(s1, f));
    LateFiberSleeps(Taken(s1, f), f);
  }

  lemma LateFiberSleeps(s: Sys, f: nat)
    requires s.worker == Executing(f) && f in s.fibers && s.fibers[f] == Fiber(RUNNING, Fresh(UserBody))
    requires s.tasks == [] && s.idle == TERM && s.active == 1 && s.late
    ensures var run := RunAll(s, [Begin(true), Sleep(10), Pick]);
            && run.Next? && run.s.worker.Exited? && run.s.late && run.s.timers.entries != []
            && f in run.s.fibers && Asleep(run.s.fibers[f])
  {
    var s3 := SetPc(s, f, User);
    FiberStep(s, f, Begin(true));
    FirstStep(s, [Begin(true), Sleep(10), Pick], s3);
    LateSleepEnds(s3, f);
  }

  lemma SleepsOnce(s: Sys, f: nat, ms: Word)
    requires s.worker == Executing(f) && f in s.fibers && s.fibers[f] == Fiber(RUNNING, User) && s.active > 0
    ensures var r := Apply(s, Sleep(ms));
            && r.Next? && r.s.worker.Picking? && r.s.tasks == s.tasks && r.s.idle == s.idle && r.s.late == s.late
            && r.s.timers.entries != [] && f in r.s.fibers && Asleep(r.s.fibers[f])
  {
    FiberStep(s, f, Sleep(ms));
  }

  lemma LateSleepEnds(s: Sys, f: nat)
    requires s.worker == Executing(f) && f in s.fibers && s.fibers[f] == Fiber(RUNNING, User)
    requires s.tasks == [] && s.idle == TERM && s.active == 1 && s.late
    ensures var run := RunAll(s, [Sleep(10), Pick]);
            && run.Next? && run.s.worker.Exited? && run.s.late && run.s.timers.entries != []
            && f in run.s.fibers && Asleep(run.s.fibers[f])
  {
    SleepsOnce(s, f, 10);
    var s4 := Apply(s, Sleep(10)).s;
    FirstStep(s, [Sleep(10), Pick], s4);
    ExitsAtOnce(s4);
    FirstStep(s4, [Pick], s4.(worker := Exited, root := TERM));
  }

  // The state LateWorkIsLost starts from is reached at once.
  lemma IdleFiberEnds()
    ensures var run := RunAll(Initial(1), TO_THE_CHECK + [DecideStop]);
            && run.Next? && run.s.worker.Picking? && run.s.idle == TERM && run.s.tasks == [] && run.s.active == 0
  {
    var s0 := Initial(1);
    StopsAtOnce(s0);
    var s1 := RunAll(s0, TO_THE_CHECK).s;
    RunConcat(s0, TO_THE_CHECK, [DecideStop]);
    WorkerStep(s1, DecideStop);
    FirstStep(s1, [DecideStop], DoDecideStop(s1).s);
  }

  // ---------------------------------------------------------------- stop() at the wrong moment

  // A second stop() after run() has returned is harmless exactly when nothing was left behind; so
  // it always is after a graceful stop.
  lemma SecondStopExactly(s: Sys)
    requires Reachable(s) && s.worker.Exited?
    ensures Apply(s, Stop) == Abort(ResumeNotReady) <==> !(s.tasks == [] && s.timers.entries == [] && s.io.pending == 0)
    ensures !s.late ==> Apply(s, Stop).Next?
  {
    ReachableInv(s);
    NoTimerNoEntries(s);
  }

  // With late work asleep, as LateWorkIsLost leaves it, the second stop() trips the assertion.
  lemma SecondStopAborts(s: Sys)
    requires Inv(s) && s.worker.Picking? && s.idle == TERM && s.tasks == [] && s.active == 0
    ensures RunAll(s, LATE_WORK + [Stop]) == Abort(ResumeNotReady)
  {
    LateWorkIsLost(s);
    PlainRunIsCareful(s, LATE_WORK);
    RunIsSafe(s, LATE_WORK);
    LeftoverStopAborts(RunAll(s, LATE_WORK).s);
    RunConcat(s, LATE_WORK, [Stop]);
  }

  lemma LeftoverStopAborts(s: Sys)
    requires Inv(s) && s.worker.Exited? && s.timers.entries != []
    ensures RunAll(s, [Stop]) == Abort(ResumeNotReady)
  {
    NoTimerNoEntries(s);
    StopAbortsExactly(s);
    WorkerStep(s, Stop);
  }

  // So does any stop() that a fiber calls.
  lemma FiberStopAborts(s: Sys, f: nat)
    requires Inv(s) && s.worker == Executing(f) && s.fibers[f].pc.User?
    ensures Apply(s, Stop) == Abort(ResumeNotReady)
  {
    StopAbortsExactly(s);
  }

  // A fresh scheduler with one fiber, which is running.
  const ONE_FIBER: seq<Action> := [Spawn(ANY_THREAD), Stop, Pick, Begin(true)]

  lemma SpawnedAndStopped()
    ensures var run := RunAll(Initial(1), [Spawn(ANY_THREAD), Stop]);
            && run.Next? && run.s.worker.Picking? && run.s.tasks == [Task(FiberWork(0), ANY_THREAD)]
            && 0 in run.s.fibers && run.s.fibers[0] == Fiber(READY, Fresh(UserBody))
            && run.s.timers.entries == [] && run.s.idle == READY && run.s.io == NO_FDS
  {
    var s0 := Initial(1);
    var s1 := ApplyAny(s0, Spawn(ANY_THREAD)).s;
    FirstStep(s0, [Spawn(ANY_THREAD), Stop], s1);
    WorkerStep(s1, Stop);
    FirstStep(s1, [Stop], DoStop(s1).s);
  }

  lemma OneFiberState()
    ensures var run := RunAll(Initial(1), ONE_FIBER);
            && run.Next? && 0 in run.s.fibers && run.s.fibers[0] == Fiber(RUNNING, User) && run.s.worker == Executing(0)
            && run.s.tasks == [] && run.s.timers.entries == [] && run.s.idle == READY && run.s.io == NO_FDS
  {
    SpawnedAndStopped();
    var s2 := RunAll(Initial(1), [Spawn(ANY_THREAD), Stop]).s;
    RunConcat(Initial(1), [Spawn(ANY_THREAD), Stop], [Pick, Begin(true)]);
    assert ONE_FIBER == [Spawn(ANY_THREAD), Stop] + [Pick, Begin(true)];
    PickedRuns(s2, 0);
  }

  lemma OneFiberInv()
    ensures RunAll(Initial(1), ONE_FIBER).Next? ==> Inv(RunAll(Initial(1), ONE_FIBER).s)
  {
    InitialInv(1);
    PlainRunIsCareful(Initial(1), ONE_FIBER);
    RunIsSafe(Initial(1), ONE_FIBER);
  }

  lemma OneFiber()
    ensures var run := RunAll(Initial(1), ONE_FIBER);
            && run.Next? && Runs(run.s, 0) && run.s.fibers[0] == Fiber(RUNNING, User)
            && run.s.tasks == [] && run.s.timers.entries == [] && run.s.idle == READY && run.s.io == NO_FDS
  {
    OneFiberState();
    OneFiberInv();
  }

  lemma FiberStopRun()
    ensures RunAll(Initial(1), ONE_FIBER + [Stop]) == Abort(ResumeNotReady)
  {
    OneFiber();
    FiberStopAborts(RunAll(Initial(1), ONE_FIBER).s, 0);
    RunConcat(Initial(1), ONE_FIBER, [Stop]);
  }

  lemma PickedRuns(s: Sys, f: nat)
    requires s.worker.Picking? && s.tasks == [Task(FiberWork(f), ANY_THREAD)]
    requires f in s.fibers && s.fibers[f] == Fiber(READY, Fresh(UserBody))
    ensures RunAll(s, [Pick, Begin(true)]) == Next(SetPc(Taken(s, f), f, User))
  {
    var s1 := Taken(s, f);
    TakesFiber(s, f);
    FirstStep(s, [Pick, Begin(true)], s1);
    FiberStep(s1, f, Begin(true));
    FirstStep(s1, [Begin(true)], SetPc(s1, f, User));
  }

  // ---------------------------------------------------------------- what is left at the end, exactly

  predicate Wakes(work: Work) {
    work.FiberWork? || work.cb.WakeFiber?
  }

  predicate WakeTimer(e: T.Entry) {
    e.cb.Some? && e.cb.value.WakeFiber?
  }

  // Nothing queued, armed or registered holds a fiber.
  ghost predicate NothingHeld(s: Sys) {
    && (forall t :: t in s.tasks ==> !Wakes(t.work))
    && (forall e :: e in s.timers.entries ==> !WakeTimer(e))
    && (forall i, ev: Event :: 0 <= i < |s.io.fds| ==> s.io.fds[i].Get(ev).fiber.None?)
  }

  lemma {:induction false} NothingHeldNoTokens(ts: seq<Task>, es: seq<T.Entry>, f: nat)
    requires forall t :: t in ts ==> !Wakes(t.work)
    requires forall e :: e in es ==> !WakeTimer(e)
    ensures TasksTok(ts, f) == 0 && TimersTok(es, f) == 0
    decreases |ts| + |es|
  {
    if ts != [] {
      assert ts[0] in ts;
      NothingHeldNoTokens(ts[1..], es, f);
    } else if es != [] {
      assert es[0] in es;
      NothingHeldNoTokens(ts, es[1..], f);
    }
  }

  lemma {:induction false} EmptySlotsNoTokens(fds: seq<F.FdContext>, f: nat)
    requires forall i, ev: Event :: 0 <= i < |fds| ==> fds[i].Get(ev).fiber.None?
    requires UserSlots(fds)
    ensures FdsTok(fds, f) == 0
  {
    if fds != [] {
      forall i, ev: Event | 0 <= i < |fds[1..]|
        ensures fds[1..][i].Get(ev).fiber.None?
        ensures fds[1..][i].Get(ev).cb.Some? ==> fds[1..][i].Get(ev).cb.value.UserCb?
      {
        assert fds[1..][i] == fds[i + 1];
      }
      EmptySlotsNoTokens(fds[1..], f);
      SlotNoToken(fds[0], Read, f);
      SlotNoToken(fds[0], Write, f);
    }
  }

  lemma SlotNoToken(c: F.FdContext, ev: Event, f: nat)
    requires c.Get(ev).fiber.None? && (c.Get(ev).cb.Some? ==> c.Get(ev).cb.value.UserCb?)
    ensures WorksTok(F.SlotWork(c.Get(ev)), f) == 0
  {
  }

  lemma {:induction false} TaskHolds(ts: seq<Task>, t: Task, f: nat)
    requires t in ts
    ensures TasksTok(ts, f) >= WorkTok(t.work, f)
  {
    if ts[0] != t {
      TaskHolds(ts[1..], t, f);
    }
  }

  lemma {:induction false} TimerHolds(es: seq<T.Entry>, e: T.Entry, f: nat)
    requires e in es
    ensures TimersTok(es, f) >= CbTok(e.cb, f)
  {
    if es[0] != e {
      TimerHolds(es[1..], e, f);
    }
  }

  lemma {:induction false} SlotHolds(fds: seq<F.FdContext>, i: nat, f: nat)
    requires i < |fds|
    ensures FdsTok(fds, f) >= FdTok(fds[i], f)
  {
    if i > 0 {
      SlotHolds(fds[1..], i - 1, f);
    }
  }

  // A source of f means that f is suspended.
  lemma HeldIsReady(s: Sys, f: nat)
    requires Inv(s) && TasksTok(s.tasks, f) + FdsTok(s.io.fds, f) + TimersTok(s.timers.entries, f) > 0
    ensures f in s.fibers && s.fibers[f].state == READY
  {
    assert WakeSources(s, f) == if IsReady(s.fibers, f) then 1 else 0;
  }

  lemma HeldMeansSuspended(s: Sys)
    requires Inv(s) && !NothingHeld(s)
    ensures exists f :: f in s.fibers && s.fibers[f].state != TERM
  {
    if t :| t in s.tasks && Wakes(t.work) {
      var f := if t.work.FiberWork? then t.work.fiber else t.work.cb.fiber;
      TaskHolds(s.tasks, t, f);
      HeldIsReady(s, f);
    } else if e :| e in s.timers.entries && WakeTimer(e) {
      TimerHolds(s.timers.entries, e, e.cb.value.fiber);
      HeldIsReady(s, e.cb.value.fiber);
    } else {
      var i, ev: Event :| 0 <= i < |s.io.fds| && s.io.fds[i].Get(ev).fiber.Some?;
      var f := s.io.fds[i].Get(ev).fiber.value;
      HeldSlot(s.io, i, ev, f);
      SlotHolds(s.io.fds, i, f);
      HeldIsReady(s, f);
    }
  }

  lemma HeldSlot(io: F.IoState, i: nat, ev: Event, f: nat)
    requires IoOk(io) && i < |io.fds| && io.fds[i].Get(ev).fiber == Some(f)
    ensures FdTok(io.fds[i], f) >= 1
  {
    assert ev in io.fds[i].events;
    assert F.SlotWork(io.fds[i].Get(ev)) == [FiberWork(f)] && [FiberWork(f)][1..] == [];
  }

  // Whatever other threads did: when run() has returned, every fiber has ended exactly when no
  // task in the queue (only pinned ones can be left by run() itself), no timer and no slot holds one.
  lemma AllEndedExactly(s: Sys)
    requires Reachable(s) && s.worker.Exited?
    ensures (forall f :: f in s.fibers ==> s.fibers[f].state == TERM) <==> NothingHeld(s)
  {
    ReachableInv(s);
    if NothingHeld(s) {
      forall f | f in s.fibers ensures s.fibers[f].state == TERM {
        NothingHeldNoTokens(s.tasks, s.timers.entries, f);
        EmptySlotsNoTokens(s.io.fds, f);
        assert WakeSources(s, f) == if IsReady(s.fibers, f) then 1 else 0;
      }
    } else {
      HeldMeansSuspended(s);
    }
  }

  // ---------------------------------------------------------------- timeouts

  // A call that has returned has no timer left, and if one of its timeout callbacks is still
  // to run, it does nothing at all.
  lemma ReturnedCallIsQuiet(s: Sys, info: nat)
    requires Reachable(s) && info !in s.live
    ensures forall e :: e in s.timers.entries && IsTimeout(e.cb) ==> e.cb.value.info != info
    ensures forall f, fd, ev, granted ::
              s.worker == Executing(f) && f in s.fibers
              && s.fibers[f].pc == Fresh(CallbackBody(IoTimeout(info, fd, ev))) ==>
              DoBegin(s, f, granted) == Terminate(s, f)
  {
    ReachableInv(s);
    forall e | e in s.timers.entries && IsTimeout(e.cb) ensures e.cb.value.info != info {
      var owner := s.calls[e.cb.value.info].owner;
      assert CallOf(s.fibers[owner].pc).Some?;
    }
  }

  // And the call stays over: its timer_info never comes back to life.
  lemma {:induction false} ReturnedCallStaysOver(s: Sys, actions: seq<Action>, info: nat)
    requires info < |s.calls| && info !in s.live
    ensures RunAll(s, actions).Next? ==> info < |RunAll(s, actions).s.calls| && info !in RunAll(s, actions).s.live
    decreases |actions|
  {
    if actions != [] {
      if Apply(s, actions[0]).Next? {
        NoRevival(s, actions[0]);
        ReturnedCallStaysOver(Apply(s, actions[0]).s, actions[1..], info);
      }
    }
  }

  // No step brings a released timer_info back.
  ghost predicate NoneRevived(s: Sys, s': Sys) {
    |s.calls| <= |s'.calls| && forall i :: i in s'.live && i < |s.calls| ==> i in s.live
  }

  lemma OthersReviveNone(s: Sys, a: Action)
    requires ApplyAny(s, a).Next?
    ensures NoneRevived(s, ApplyAny(s, a).s)
  {
  }

  lemma WorkerRevivesNone(s: Sys, a: Action)
    requires ApplyWorker(s, a).Next?
    ensures NoneRevived(s, ApplyWorker(s, a).s)
  {
  }

  lemma NoRevival(s: Sys, a: Action)
    requires Apply(s, a).Next?
    ensures NoneRevived(s, Apply(s, a).s)
  {
    if AnyThread(a) {
      OthersReviveNone(s, a);
    } else if OfWorker(a) {
      WorkerRevivesNone(s, a);
    } else if s.worker.Executing? && s.worker.fiber in s.fibers {
      FiberStepFrame(s, s.worker.fiber, a);
    }
  }

  // What a step of the running fiber can do to the other fibers, the idle fiber, the calls and
  // their timer_infos.
  ghost predicate Frame(s: Sys, s': Sys, f: nat) {
    && f in s.fibers && f in s'.fibers && s'.fibers == s.fibers[f := s'.fibers[f]]
    && s'.idle == s.idle && |s.calls| <= |s'.calls|
    && forall i :: i in s'.live && i < |s.calls| ==> i in s.live
  }

  lemma BeginFrame(s: Sys, f: nat, granted: bool)
    requires f in s.fibers && s.fibers[f].pc.Fresh? && DoBegin(s, f, granted).Next?
    ensures Frame(s, DoBegin(s, f, granted).s, f)
  {
  }

  lemma IoWaitFrame(s: Sys, f: nat, c: IoCall, granted: bool)
    requires f in s.fibers && DoIoWait(s, f, c, granted).Next?
    ensures Frame(s, DoIoWait(s, f, c, granted).s, f)
  {
  }

  lemma FiberStepFrame(s: Sys, f: nat, a: Action)
    requires f in s.fibers && ApplyFiber(s, f, a).Next?
    ensures Frame(s, ApplyFiber(s, f, a).s, f)
  {
    if a.Begin? {
      BeginFrame(s, f, a.granted);
    } else if a.IoWait? {
      IoWaitFrame(s, f, s.fibers[f].pc.call, a.granted);
    } else {
      OtherStepFrame(s, f, a);
    }
  }

  lemma OtherStepFrame(s: Sys, f: nat, a: Action)
    requires f in s.fibers && ApplyFiber(s, f, a).Next? && !a.Begin? && !a.IoWait?
    ensures Frame(s, ApplyFiber(s, f, a).s, f)
  {
    if OnFds(a) {
      FdStepShape(s, f, a);
      OnFdsFrame(s, f, a);
    } else if OfParking(a) {
      ParkingFrame(s, f, a);
    } else {
      PlainStepFrame(s, f, a);
    }
  }

  lemma OnFdsFrame(s: Sys, f: nat, a: Action)
    requires f in s.fibers && OnFds(a) && ApplyOnFds(s, a).Next?
    ensures Frame(s, ApplyOnFds(s, a).s, f)
  {
  }

  lemma ParkingFrame(s: Sys, f: nat, a: Action)
    requires f in s.fibers && OfParking(a) && ApplyFiber(s, f, a).Next?
    ensures Frame(s, ApplyFiber(s, f, a).s, f)
  {
  }

  lemma PlainStepFrame(s: Sys, f: nat, a: Action)
    requires f in s.fibers && ApplyFiber(s, f, a).Next? && !a.Begin? && !a.IoWait? && !OnFds(a) && !OfParking(a)
    ensures Frame(s, ApplyFiber(s, f, a).s, f)
  {
  }

  // ---------------------------------------------------------------- fiber life cycle

  predicate Follows(before: FiberState, after: FiberState) {
    after == before || (before == READY && after == RUNNING) || (before == RUNNING && after != before)
  }

  // READY to RUNNING, RUNNING to READY or TERM, and nothing else; TERM is final.
  lemma LifeCycle(s: Sys, a: Action, f: nat)
    requires Inv(s) && Apply(s, a).Next? && f in s.fibers
    ensures f in Apply(s, a).s.fibers && Follows(s.fibers[f].state, Apply(s, a).s.fibers[f].state)
  {
    if AnyThread(a) {
    } else if OfWorker(a) {
      WorkerLifeCycle(s, a, f);
    } else if s.worker.Executing? && s.worker.fiber in s.fibers {
      FiberLifeCycle(s, s.worker.fiber, a, f);
    }
  }

  lemma WorkerLifeCycle(s: Sys, a: Action, f: nat)
    requires Inv(s) && f in s.fibers
    ensures ApplyWorker(s, a).Next? ==>
              f in ApplyWorker(s, a).s.fibers && Follows(s.fibers[f].state, ApplyWorker(s, a).s.fibers[f].state)
  {
    if a.Pick? {
      if s.worker.Picking? { PickLifeCycle(s, f); }
    } else {
      IdleLeavesFibers(s, a);
    }
  }

  lemma PickLifeCycle(s: Sys, f: nat)
    requires f in s.fibers && f < s.nextFiber
    ensures DoPick(s).Next? ==> f in DoPick(s).s.fibers && Follows(s.fibers[f].state, DoPick(s).s.fibers[f].state)
  {
  }

  lemma IdleLeavesFibers(s: Sys, a: Action)
    requires !a.Pick?
    ensures ApplyWorker(s, a).Next? ==> ApplyWorker(s, a).s.fibers == s.fibers
  {
  }

  lemma FiberLifeCycle(s: Sys, g: nat, a: Action, f: nat)
    requires Inv(s) && s.worker == Executing(g) && ApplyFiber(s, g, a).Next? && f in s.fibers
    ensures f in ApplyFiber(s, g, a).s.fibers && Follows(s.fibers[f].state, ApplyFiber(s, g, a).s.fibers[f].state)
  {
    FiberStepFrame(s, g, a);
  }

  // At any moment at most one fiber runs, counting the idle fiber.
  lemma OneFiberRuns(s: Sys, f: nat, g: nat)
    requires Reachable(s) && f in s.fibers && g in s.fibers
    requires s.fibers[f].state == RUNNING
    ensures s.fibers[g].state == RUNNING ==> f == g
    ensures s.idle != RUNNING && s.active == 1 && s.idleCount == 0
  {
    ReachableInv(s);
  }

  // A queued fiber is READY, so run()'s assertion on the tasks it takes never fails.
  lemma QueuedFibersAreReady(s: Sys, i: nat, f: nat)
    requires Reachable(s) && i < |s.tasks| && s.tasks[i].work == FiberWork(f)
    ensures f in s.fibers && s.fibers[f].state == READY
  {
    ReachableInv(s);
    WorkInQueueIsReady(s, i, f);
  }

  // ---------------------------------------------------------------- counters and masks

  lemma BeginKeepsBits(s: Sys, f: nat, granted: bool)
    requires f in s.fibers && s.fibers[f].pc.Fresh? && F.BitsOk(s.io) && DoBegin(s, f, granted).Next?
    ensures F.Kept(s.io, DoBegin(s, f, granted).s.io)
  {
    var body := s.fibers[f].pc.body;
    if body.CallbackBody? && body.cb.IoTimeout? && F.CancelEvent(s.io, body.cb.fd, body.cb.event, granted).Done? {
      F.CancelEventKept(s.io, body.cb.fd, body.cb.event, granted);
    }
  }

  lemma IoWaitKeepsBits(s: Sys, f: nat, c: IoCall, granted: bool)
    requires f in s.fibers && F.BitsOk(s.io) && DoIoWait(s, f, c, granted).Next?
    ensures F.Kept(s.io, DoIoWait(s, f, c, granted).s.io)
  {
    F.AddEventKept(s.io, c.fd, c.ev, FiberWork(f), granted);
  }

  lemma ParkKeepsBits(s: Sys, f: nat, regs: seq<F.Registration>, sleep: Option<Word>)
    requires f in s.fibers && F.BitsOk(s.io) && DoPark(s, f, regs, sleep).Next?
    ensures F.Kept(s.io, DoPark(s, f, regs, sleep).s.io)
  {
    F.AddSelfKept(s.io, f, regs);
  }

  lemma OthersKeepIo(s: Sys, f: nat, a: Action)
    requires f in s.fibers && ApplyFiber(s, f, a).Next? && !OnFds(a) && !a.Begin? && !a.IoWait? && !a.Park?
    ensures ApplyFiber(s, f, a).s.io == s.io
  {
  }

  lemma FiberKeepsBits(s: Sys, f: nat, a: Action)
    requires f in s.fibers && F.BitsOk(s.io) && ApplyFiber(s, f, a).Next?
    ensures F.Kept(s.io, ApplyFiber(s, f, a).s.io)
  {
    if OnFds(a) {
      FdStepShape(s, f, a);
      OnFdsKeepsBits(s, a);
    } else if a.Begin? {
      BeginKeepsBits(s, f, a.granted);
    } else if a.IoWait? {
      IoWaitKeepsBits(s, f, s.fibers[f].pc.call, a.granted);
    } else if a.Park? {
      ParkKeepsBits(s, f, a.regs, a.sleep);
    } else {
      OthersKeepIo(s, f, a);
    }
  }

  lemma OnFdsKeepsBits(s: Sys, a: Action)
    requires F.BitsOk(s.io) && OnFds(a) && ApplyOnFds(s, a).Next?
    ensures F.Kept(s.io, ApplyOnFds(s, a).s.io)
  {
    match a
    case Watch(fd, ev, tag, granted) => F.AddEventKept(s.io, fd, ev, CbWork(UserCb(tag)), granted);
    case CancelAll(fd) => F.CancelAllKept(s.io, fd);
    case CancelEvent(fd, ev, granted) => F.CancelEventKept(s.io, fd, ev, granted);
    case DelEvent(fd, ev, granted) => F.DelEventKept(s.io, fd, ev, granted);
    case Close(fd, known) => F.CloseKept(s.io, fd, known);
  }

  lemma WorkerKeepsBits(s: Sys, a: Action)
    requires F.BitsOk(s.io) && OfWorker(a) && ApplyWorker(s, a).Next?
    ensures F.Kept(s.io, ApplyWorker(s, a).s.io)
  {
    if a.HandleNext? {
      F.HandleReportKept(s.io, s.worker.batch[0].fd, s.worker.batch[0].events, a.granted);
    }
  }

  lemma OthersKeepBits(s: Sys, a: Action)
    requires F.BitsOk(s.io) && ApplyAny(s, a).Next?
    ensures F.Kept(s.io, ApplyAny(s, a).s.io)
  {
    if a.CloseElsewhere? {
      F.CloseKept(s.io, a.fd, false);
    }
  }

  lemma ApplyKeepsBits(s: Sys, a: Action)
    requires F.BitsOk(s.io) && Apply(s, a).Next?
    ensures F.Kept(s.io, Apply(s, a).s.io)
  {
    if AnyThread(a) {
      OthersKeepBits(s, a);
    } else if OfWorker(a) {
      WorkerKeepsBits(s, a);
    } else if s.worker.Boot? && OnFds(a) {
      OnFdsKeepsBits(s, a);
    } else {
      FiberKeepsBits(s, s.worker.fiber, a);
    }
  }

  // Over every run, careful or not: masks and slots agree, and the pending counter is the number of
  // registered events, so it never underflows.
  lemma {:induction false} BitsAgree(s: Sys, actions: seq<Action>)
    requires F.BitsOk(s.io) && RunAll(s, actions).Next?
    ensures F.BitsOk(RunAll(s, actions).s.io) && RunAll(s, actions).s.io.pending >= 0
    decreases |actions|
  {
    if actions != [] {
      ApplyKeepsBits(s, actions[0]);
      BitsAgree(Apply(s, actions[0]).s, actions[1..]);
    }
  }

  // In every reachable state epoll's interest set is the table of masks as well, and every task ever
  // scheduled is queued, active or done.
  lemma BookkeepingAgrees(s: Sys)
    requires Reachable(s)
    ensures s.io.pending == F.CountBits(s.io.fds) >= 0
    ensures forall i :: 0 <= i < |s.io.fds| ==> F.SlotsMatch(s.io.fds[i])
    ensures forall i :: 0 <= i < |s.io.fds| ==>
              if s.io.fds[i].events == {} then i !in s.io.kernel
              else i in s.io.kernel && s.io.kernel[i] == s.io.fds[i].events
    ensures s.scheduled == |s.tasks| + s.active + s.completed
  {
    ReachableInv(s);
  }

  // ---------------------------------------------------------------- delEvent

  lemma SlotToken(s: Sys, fd: nat, ev: Event, g: nat)
    requires IoOk(s.io) && fd < |s.io.fds| && ev in s.io.fds[fd].events && s.io.fds[fd].Get(ev).fiber == Some(g)
    ensures WorksTok(F.SlotWork(s.io.fds[fd].Get(ev)), g) == 1
  {
  }

  function Deleted(s: Sys, fd: nat, ev: Event, granted: bool): Sys {
    s.(io := F.DelEvent(s.io, fd, ev, granted).st)
  }

  lemma DroppedFiberIsLost(s: Sys, fd: nat, ev: Event, granted: bool, g: nat)
    requires Inv(s) && F.DelEvent(s.io, fd, ev, granted).ok && s.io.fds[fd].Get(ev).fiber == Some(g)
    ensures !WakeOk(Deleted(s, fd, ev, granted))
  {
    var s' := Deleted(s, fd, ev, granted);
    SlotToken(s, fd, ev, g);
    DelEventTokens(s.io, fd, ev, granted, g);
    assert WakeSources(s, g) == if IsReady(s.fibers, g) then 1 else 0;
    assert WakeSources(s', g) == WakeSources(s, g) - 1;
    assert IsReady(s'.fibers, g);
  }

  lemma DroppedCallbackIsHarmless(s: Sys, fd: nat, ev: Event, granted: bool)
    requires Inv(s) && F.DelEvent(s.io, fd, ev, granted).ok && s.io.fds[fd].Get(ev).fiber.None?
    ensures WakeOk(Deleted(s, fd, ev, granted))
  {
    var s' := Deleted(s, fd, ev, granted);
    forall f: nat ensures WakeSources(s', f) == if IsReady(s'.fibers, f) then 1 else 0 {
      DelEventTokens(s.io, fd, ev, granted, f);
      NoDroppedToken(s.io, fd, ev, f);
      assert WakeSources(s, f) == if IsReady(s.fibers, f) then 1 else 0;
    }
  }

  // delEvent is the one operation that can lose a waiting fiber: a removal keeps wake-up
  // conservation exactly when the slot does not hold a fiber.
  lemma DelEventKeepsWakeUps(s: Sys, fd: nat, ev: Event, granted: bool)
    requires Inv(s) && F.DelEvent(s.io, fd, ev, granted).ok
    ensures WakeOk(Deleted(s, fd, ev, granted)) <==> s.io.fds[fd].Get(ev).fiber.None?
  {
    if s.io.fds[fd].Get(ev).fiber.Some? {
      DroppedFiberIsLost(s, fd, ev, granted, s.io.fds[fd].Get(ev).fiber.value);
    } else {
      DroppedCallbackIsHarmless(s, fd, ev, granted);
    }
  }
}
