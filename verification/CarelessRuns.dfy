// What happens when programs are not careful: runs that close an fd behind the runtime's back, or
// park a fiber with more than one thing to wake it.
module CarelessRuns {
  import opened Common
  import opened Runtime
  import opened RuntimeInvariant
  import opened FiberSteps
  import opened RuntimeSafety
  import F = FdEvents
  import T = Timers

  // ---------------------------------------------------------------- closing an fd

  // Close keeps the invariant of careful runs exactly when it is careful.
  lemma CloseKeepsInvExactly(s: Sys, fd: nat, known: bool)
    requires Inv(s) && InProgram(s) && WithIo(s, F.Close(s.io, fd, known)).Next?
    ensures Inv(WithIo(s, F.Close(s.io, fd, known)).s) <==> Careful(s, Close(fd, known))
  {
    F.CloseCoherentExactly(s.io, fd, known);
    if CloseHarmless(s.io, fd, known) {
      CloseKeepsInv(s, fd, known);
    }
  }

  lemma StuckCounts(io: F.IoState, fd: nat)
    requires F.BitsOk(io) && F.Stuck(io, fd)
    ensures io.pending > 0
  {
    F.NoBitsNoEvents(io.fds);
  }

  lemma WorkerExits(s: Sys, a: Action)
    requires s.idle != TERM && !s.worker.Exited? && ApplyWorker(s, a).Next?
    ensures !ApplyWorker(s, a).s.worker.Exited?
  {
  }

  lemma DoIoExits(s: Sys, f: nat, a: Action)
    requires s.worker == Executing(f) && f in s.fibers && OfDoIo(a) && ApplyFiber(s, f, a).Next?
    ensures !ApplyFiber(s, f, a).s.worker.Exited?
  {
    DoIoShape(s, f, a);
  }

  lemma ParkingExits(s: Sys, f: nat, a: Action)
    requires s.worker == Executing(f) && f in s.fibers && OfParking(a) && ApplyFiber(s, f, a).Next?
    ensures !ApplyFiber(s, f, a).s.worker.Exited?
  {
    ParkingShape(s, f, a);
  }

  lemma BeginExits(s: Sys, f: nat, granted: bool)
    requires s.worker == Executing(f) && f in s.fibers && s.fibers[f].pc.Fresh? && DoBegin(s, f, granted).Next?
    ensures !DoBegin(s, f, granted).s.worker.Exited?
  {
  }

  lemma FiberExits(s: Sys, f: nat, a: Action)
    requires s.worker == Executing(f) && f in s.fibers && ApplyFiber(s, f, a).Next?
    ensures !ApplyFiber(s, f, a).s.worker.Exited?
  {
    if OnFds(a) {
      FdStepShape(s, f, a);
    } else if OfDoIo(a) {
      DoIoExits(s, f, a);
    } else if OfParking(a) {
      ParkingExits(s, f, a);
    } else if a.Begin? {
      BeginExits(s, f, a.granted);
    }
  }

  lemma ExitNeedsIdleEnd(s: Sys, a: Action)
    requires s.idle != TERM && !s.worker.Exited? && Apply(s, a).Next?
    ensures !Apply(s, a).s.worker.Exited?
  {
    if AnyThread(a) {
    } else if OfWorker(a) {
      WorkerExits(s, a);
    } else if s.worker.Boot? && OnFds(a) {
    } else {
      FiberExits(s, s.worker.fiber, a);
    }
  }

  // Once epoll has forgotten an fd with events registered, no run ever takes them off again: the
  // counter stays up, the idle fiber never ends, and run() does not return.
  lemma {:induction false} StuckNeverStops(s: Sys, actions: seq<Action>, fd: nat)
    requires F.BitsOk(s.io) && F.Stuck(s.io, fd) && s.idle != TERM && !s.worker.Exited?
    requires RunAll(s, actions).Next?
    ensures var s' := RunAll(s, actions).s;
            F.Stuck(s'.io, fd) && s'.io.pending > 0 && s'.idle != TERM && !s'.worker.Exited?
    decreases |actions|
  {
    StuckCounts(s.io, fd);
    if actions != [] {
      ApplyKeepsBits(s, actions[0]);
      IdleEndsAtDecideStop(s, actions[0]);
      ExitNeedsIdleEnd(s, actions[0]);
      StuckNeverStops(Apply(s, actions[0]).s, actions[1..], fd);
    }
  }

  lemma BootStep(s: Sys, a: Action)
    requires s.worker.Boot? && OnFds(a)
    ensures Apply(s, a) == ApplyOnFds(s, a)
  {
  }

  const WATCH_AND_CLOSE: seq<Action> := [Watch(5, Read, 7, true), Close(5, false)]

  lemma WatchedThenForgotten(io: F.IoState, fd: nat, ev: Event, work: Work)
    requires F.Coherent(io) && fd < |io.fds| && io.fds[fd].events == {} && io.pending == 0
    ensures var r := F.AddEvent(io, fd, ev, work, true);
            && r.Done? && F.Close(r.st, fd, false).Done?
            && var io2 := F.Close(r.st, fd, false).st;
               F.Stuck(io2, fd) && io2.pending == 1 && ev in io2.fds[fd].events && F.BitsOk(io2)
  {
    F.AddEventCoherent(io, fd, ev, work, true);
    F.CloseKept(F.AddEvent(io, fd, ev, work, true).st, fd, false);
  }

  lemma ForgottenAtBoot(s: Sys)
    requires s.worker.Boot? && s.idle == READY && F.Coherent(s.io)
    requires 5 < |s.io.fds| && s.io.fds[5].events == {} && s.io.pending == 0
    ensures var run := RunAll(s, WATCH_AND_CLOSE);
            && run.Next? && F.BitsOk(run.s.io) && F.Stuck(run.s.io, 5) && run.s.idle == READY && run.s.worker.Boot?
            && Read in run.s.io.fds[5].events
  {
    WatchedThenForgotten(s.io, 5, Read, CbWork(UserCb(7)));
    var s1 := ApplyOnFds(s, WATCH_AND_CLOSE[0]).s;
    BootStep(s, WATCH_AND_CLOSE[0]);
    FirstStep(s, WATCH_AND_CLOSE, s1);
    BootStep(s1, Close(5, false));
    FirstStep(s1, [Close(5, false)], ApplyOnFds(s1, Close(5, false)).s);
  }

  // Such a run: a callback waits on a pipe, and the pipe is closed. The number 5 can then be any
  // file, and yet registering that event again trips the assertion.
  lemma ForgottenPipe()
    ensures var run := RunAll(Initial(1), WATCH_AND_CLOSE);
            && run.Next? && F.BitsOk(run.s.io) && F.Stuck(run.s.io, 5) && run.s.idle == READY && run.s.worker.Boot?
            && Apply(run.s, Watch(5, Read, 8, true)) == Abort(Io(F.DoubleRegistration))
  {
    F.InitialCoherent();
    assert NO_FDS.fds == seq(F.INITIAL_FDS, _ => F.UNUSED);
    ForgottenAtBoot(Initial(1));
    var s2 := RunAll(Initial(1), WATCH_AND_CLOSE).s;
    F.StuckForGood(s2.io, 5, Read, CbWork(UserCb(8)), true);
    BootStep(s2, Watch(5, Read, 8, true));
  }

  // ---------------------------------------------------------------- parking

  predicate BothRegistered(io: F.IoState, fd: nat, f: nat) {
    && fd < |io.fds| && io.fds[fd].events == {Read, Write} && fd in io.kernel && io.kernel[fd] == {Read, Write}
    && io.fds[fd].read == F.SlotFor(FiberWork(f)) && io.fds[fd].write == F.SlotFor(FiberWork(f))
    && io.pending > 0
  }

  const BOTH: set<F.KernelEvent> := {F.In, F.Out}

  function ForBoth(fd: nat): seq<F.Registration> {
    [F.Registration(fd, Read, true), F.Registration(fd, Write, true)]
  }

  lemma AddsBoth(io: F.IoState, fd: nat, f: nat)
    requires F.AddEvent(io, fd, Read, FiberWork(f), true).Done?
    requires F.AddEvent(F.AddEvent(io, fd, Read, FiberWork(f), true).st, fd, Write, FiberWork(f), true).Done?
    ensures var io1 := F.AddEvent(io, fd, Read, FiberWork(f), true).st;
            F.AddSelf(io, f, ForBoth(fd)) == F.Done(F.AddEvent(io1, fd, Write, FiberWork(f), true).st, [], true)
  {
    var io1 := F.AddEvent(io, fd, Read, FiberWork(f), true).st;
    var io2 := F.AddEvent(io1, fd, Write, FiberWork(f), true).st;
    var last := F.Registration(fd, Write, true);
    assert ForBoth(fd)[1..] == [last] && [last][1..] == [];
    assert F.AddSelf(io1, f, [last]) == F.AddSelf(io2, f, []);
  }

  lemma RegistersBoth(io: F.IoState, fd: nat, f: nat)
    requires F.Coherent(io) && fd < |io.fds| && io.fds[fd].events == {}
    ensures var r := F.AddSelf(io, f, ForBoth(fd));
            r.Done? && BothRegistered(r.st, fd, f)
  {
    F.AddEventCoherent(io, fd, Read, FiberWork(f), true);
    var io1 := F.AddEvent(io, fd, Read, FiberWork(f), true).st;
    F.AddEventCoherent(io1, fd, Write, FiberWork(f), true);
    var io2 := F.AddEvent(io1, fd, Write, FiberWork(f), true).st;
    F.NoBitsNoEvents(io2.fds);
    AddsBoth(io, fd, f);
  }

  lemma BothFire(io: F.IoState, fd: nat, f: nat)
    requires BothRegistered(io, fd, f)
    ensures F.HandleReport(io, fd, BOTH, true).Done?
    ensures F.HandleReport(io, fd, BOTH, true).works == [FiberWork(f), FiberWork(f)]
  {
    var c := io.fds[fd];
    assert F.RealEvents(c.events, BOTH) == {Read, Write};
    assert c.events * {Read, Write} == {Read, Write} && c.events - {Read, Write} == {};
  }

  // One round of the idle fiber, from the queue running empty to the return of epoll_wait, and on.
  const ROUND_BEGINS: seq<Action> := [Pick, ReadTimers, DecideStop]
  const ROUND_ENDS: seq<Action> := [Expire(0), HandleNext(true), IdleYield]

  lemma ReadsTimers(s: Sys)
    requires s.worker.IdleCheck?
    ensures Apply(s, ReadTimers) == Next(DoReadTimers(s))
  {
    WorkerStep(s, ReadTimers);
  }

  lemma GoesOnToPoll(s: Sys)
    requires s.worker.TimersRead? && s.idleCount > 0 && s.io.pending > 0
    ensures Apply(s, DecideStop) == Next(s.(worker := Polling))
  {
    WorkerStep(s, DecideStop);
  }

  lemma RoundBegins(s: Sys)
    requires s.worker.Picking? && s.tasks == [] && s.idle == READY && s.io.pending > 0
    ensures var run := RunAll(s, ROUND_BEGINS);
            && run.Next? && run.s.worker.Polling? && run.s.idle == RUNNING && run.s.idleCount == s.idleCount + 1
            && run.s.fibers == s.fibers && run.s.tasks == [] && run.s.io == s.io
            && run.s.timers.entries == s.timers.entries
  {
    var s1 := s.(idle := RUNNING, idleCount := s.idleCount + 1, worker := IdleCheck);
    var s2 := DoReadTimers(s1);
    IdleStarts(s);
    FirstStep(s, ROUND_BEGINS, s1);
    ReadsTimers(s1);
    FirstStep(s1, [ReadTimers, DecideStop], s2);
    GoesOnToPoll(s2);
    FirstStep(s2, [DecideStop], s2.(worker := Polling));
  }

  lemma Polls(s: Sys, fd: nat, f: nat)
    requires s.worker.Polling? && BothRegistered(s.io, fd, f)
    ensures RunAll(s, [PollReturn([Report(fd, BOTH)])]) == Next(s.(worker := Reported([Report(fd, BOTH)])))
  {
    var batch := [Report(fd, BOTH)];
    assert F.Reportable(s.io, fd, BOTH);
    assert PossibleBatch(s.io, batch);
    WorkerStep(s, PollReturn(batch));
    FirstStep(s, [PollReturn(batch)], s.(worker := Reported(batch)));
  }

  function Twice(f: nat): seq<Task> {
    [Task(FiberWork(f), ANY_THREAD), Task(FiberWork(f), ANY_THREAD)]
  }

  lemma HandlesNext(s: Sys, granted: bool)
    requires s.worker.Handling? && s.worker.batch != []
    ensures Apply(s, HandleNext(granted)) == DoHandleNext(s, granted)
  {
    WorkerStep(s, HandleNext(granted));
  }

  lemma BothAreQueued(s: Sys, fd: nat, f: nat)
    requires s.worker == Handling([Report(fd, BOTH)]) && s.tasks == [] && BothRegistered(s.io, fd, f)
    ensures var r := Apply(s, HandleNext(true));
            && r.Next? && r.s.worker == Handling([]) && r.s.tasks == Twice(f)
            && r.s.fibers == s.fibers && r.s.idle == s.idle && r.s.idleCount == s.idleCount
  {
    HandlesNext(s, true);
    BothFire(s.io, fd, f);
    assert [Report(fd, BOTH)][1..] == [];
    assert TasksOf([FiberWork(f), FiberWork(f)]) == Twice(f);
    assert [] + Twice(f) == Twice(f);
  }

  lemma IdleYields(s: Sys)
    requires s.worker == Handling([]) && s.idle == RUNNING && s.idleCount > 0
    ensures Apply(s, IdleYield) == Next(s.(idle := READY, idleCount := s.idleCount - 1, worker := Picking))
  {
    WorkerStep(s, IdleYield);
  }

  lemma LastTwo(s: Sys, fd: nat, f: nat)
    requires s.worker == Handling([Report(fd, BOTH)]) && s.tasks == [] && s.idle == RUNNING && s.idleCount > 0
    requires BothRegistered(s.io, fd, f)
    ensures var run := RunAll(s, [HandleNext(true), IdleYield]);
            && run.Next? && run.s.worker.Picking? && run.s.fibers == s.fibers && run.s.tasks == Twice(f)
  {
    BothAreQueued(s, fd, f);
    var s2 := Apply(s, HandleNext(true)).s;
    FirstStep(s, [HandleNext(true), IdleYield], s2);
    IdleYields(s2);
    FirstStep(s2, [IdleYield], Apply(s2, IdleYield).s);
  }

  lemma RoundEnds(s: Sys, fd: nat, f: nat)
    requires s.worker == Reported([Report(fd, BOTH)]) && s.tasks == [] && s.idle == RUNNING && s.idleCount > 0
    requires s.timers.entries == [] && BothRegistered(s.io, fd, f)
    ensures var run := RunAll(s, ROUND_ENDS);
            && run.Next? && run.s.worker.Picking? && run.s.fibers == s.fibers && run.s.tasks == Twice(f)
  {
    ExpiresNothing(s, 0);
    WorkerStep(s, Expire(0));
    FirstStep(s, ROUND_ENDS, DoExpire(s, 0));
    LastTwo(DoExpire(s, 0), fd, f);
  }

  lemma ExpiresNothing(s: Sys, address: nat)
    requires s.worker.Reported? && s.timers.entries == []
    ensures var s' := DoExpire(s, address);
            && s'.tasks == s.tasks && s'.io == s.io && s'.fibers == s.fibers && s'.idle == s.idle
            && s'.idleCount == s.idleCount && s'.worker == Handling(s.worker.batch)
  {
    assert T.ListExpired(s.timers, s.now, address).1 == [];
    assert s.tasks + [] == s.tasks;
  }

  const RESUMED_TWICE: seq<Action> := [Pick, WakeUp, Finish, Pick]

  lemma SecondResumeAborts(s: Sys, f: nat)
    requires s.worker.Picking? && f in s.fibers && s.fibers[f] == Fiber(READY, Yielded) && s.tasks == Twice(f)
    ensures RunAll(s, RESUMED_TWICE) == Abort(TaskNotReady)
  {
    var s1 := Taken(s, f);
    TakesFiber(s, f);
    FirstStep(s, RESUMED_TWICE, s1);
    WakesUp(s1, f);
    FirstStep(s1, [WakeUp, Finish, Pick], SetPc(s1, f, User));
    EndedFiberAborts(SetPc(s1, f, User), f);
  }

  lemma WakesUp(s: Sys, f: nat)
    requires s.worker == Executing(f) && f in s.fibers && s.fibers[f].pc.Yielded?
    ensures Apply(s, WakeUp) == Next(SetPc(s, f, User))
  {
    FiberStep(s, f, WakeUp);
  }

  lemma Ends(s: Sys, f: nat)
    requires s.worker == Executing(f) && f in s.fibers && s.fibers[f] == Fiber(RUNNING, User) && s.active > 0
    ensures Apply(s, Finish) == Terminate(s, f) && Terminate(s, f).Next?
  {
    FiberStep(s, f, Finish);
  }

  lemma EndedFiberAborts(s: Sys, f: nat)
    requires s.worker == Executing(f) && f in s.fibers && s.fibers[f] == Fiber(RUNNING, User) && s.active > 0
    requires s.tasks != [] && s.tasks[0] == Task(FiberWork(f), ANY_THREAD)
    ensures RunAll(s, [Finish, Pick]) == Abort(TaskNotReady)
  {
    var s1 := Terminate(s, f).s;
    Ends(s, f);
    FirstStep(s, [Finish, Pick], s1);
    TakesFiber(s1, f);
  }

  function ReportedTwice(fd: nat): seq<Action> {
    ROUND_BEGINS + ([PollReturn([Report(fd, BOTH)])] + ROUND_ENDS)
  }

  lemma QueuedTwice(s: Sys, fd: nat, f: nat)
    requires s.worker.Picking? && s.tasks == [] && s.idle == READY
    requires s.timers.entries == [] && BothRegistered(s.io, fd, f)
    ensures var run := RunAll(s, ReportedTwice(fd));
            && run.Next? && run.s.worker.Picking? && run.s.fibers == s.fibers && run.s.tasks == Twice(f)
  {
    RoundBegins(s);
    var s1 := RunAll(s, ROUND_BEGINS).s;
    Polls(s1, fd, f);
    RoundEnds(s1.(worker := Reported([Report(fd, BOTH)])), fd, f);
    RunConcat(s, ROUND_BEGINS, [PollReturn([Report(fd, BOTH)])] + ROUND_ENDS);
    RunConcat(s1, [PollReturn([Report(fd, BOTH)])], ROUND_ENDS);
  }

  // What the fiber leaves when it parks.
  ghost predicate ParkedForBoth(s: Sys, s': Sys, f: nat, fd: nat) {
    && s'.worker.Picking? && s'.tasks == s.tasks && s'.idle == s.idle && s'.timers == s.timers
    && BothRegistered(s'.io, fd, f) && f in s'.fibers && s'.fibers[f] == Fiber(READY, Yielded)
  }

  lemma ParksForBoth(s: Sys, f: nat, fd: nat)
    requires s.worker == Executing(f) && f in s.fibers && s.fibers[f] == Fiber(RUNNING, User) && s.active > 0
    requires F.Coherent(s.io) && fd < |s.io.fds| && s.io.fds[fd].events == {}
    ensures var run := RunAll(s, [Park(ForBoth(fd), None)]);
            run.Next? && ParkedForBoth(s, run.s, f, fd)
  {
    RegistersBoth(s.io, fd, f);
    ParkShape(s, f, ForBoth(fd), None);
    var s1 := s.(io := F.AddSelf(s.io, f, ForBoth(fd)).st);
    Parks(s, f, fd);
    FirstStep(s, [Park(ForBoth(fd), None)], Suspend(s1, f, Yielded).s);
  }

  lemma Parks(s: Sys, f: nat, fd: nat)
    requires s.worker == Executing(f) && f in s.fibers && s.fibers[f] == Fiber(RUNNING, User) && s.active > 0
    requires F.AddSelf(s.io, f, ForBoth(fd)).Done?
    ensures Apply(s, Park(ForBoth(fd), None)) == Suspend(s.(io := F.AddSelf(s.io, f, ForBoth(fd)).st), f, Yielded)
  {
    FiberStep(s, f, Park(ForBoth(fd), None));
  }

  // A fiber that registers itself for reading and for writing on one fd, and yields: if one report
  // has both, it is queued twice, and having ended after its first resume it trips the assertion on
  // the state of queued fibers.
  lemma ParkedTwiceAborts(s: Sys, f: nat, fd: nat)
    requires Runs(s, f) && s.fibers[f].pc.User? && s.tasks == [] && s.timers.entries == [] && s.idle == READY
    requires fd < |s.io.fds| && s.io.fds[fd].events == {}
    ensures RunAll(s, [Park(ForBoth(fd), None)] + (ReportedTwice(fd) + RESUMED_TWICE)) == Abort(TaskNotReady)
  {
    ParksForBoth(s, f, fd);
    var s1 := RunAll(s, [Park(ForBoth(fd), None)]).s;
    RunConcat(s, [Park(ForBoth(fd), None)], ReportedTwice(fd) + RESUMED_TWICE);
    QueuedTwice(s1, fd, f);
    RunConcat(s1, ReportedTwice(fd), RESUMED_TWICE);
    SecondResumeAborts(RunAll(s1, ReportedTwice(fd)).s, f);
  }

  // From a fresh scheduler.
  lemma ParkedTwiceRun()
    ensures RunAll(Initial(1), ONE_FIBER + ([Park(ForBoth(5), None)] + (ReportedTwice(5) + RESUMED_TWICE)))
         == Abort(TaskNotReady)
  {
    OneFiber();
    ParkedTwiceAborts(RunAll(Initial(1), ONE_FIBER).s, 0, 5);
    RunConcat(Initial(1), ONE_FIBER, [Park(ForBoth(5), None)] + (ReportedTwice(5) + RESUMED_TWICE));
  }
}
