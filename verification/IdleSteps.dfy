// One round of idle() as the runtime's steps and as the method IdleRound: the same thing.
module IdleSteps {
  import opened Common
  import opened Runtime
  import F = FdEvents
  import I = IOManagerObjects
  import Inv = RuntimeInvariant
  import S = Scheduling
  import T = Timers
  import Safety = RuntimeSafety

  // The HandleNext steps with these answers of epoll_ctl.
  function Handle(grants: seq<bool>): seq<Action> {
    if grants == [] then [] else [HandleNext(grants[0])] + Handle(grants[1..])
  }

  // The state after some reports: the fds, the reports left and the tasks queued have moved.
  function Moved(s: Sys, batch: seq<Report>, io: F.IoState, works: seq<Work>): Sys {
    Push(s.(worker := Handling(batch), io := io), works)
  }

  lemma MovedTwice(s: Sys, b1: seq<Report>, io1: F.IoState, w1: seq<Work>,
                   b2: seq<Report>, io2: F.IoState, w2: seq<Work>)
    ensures Moved(Moved(s, b1, io1, w1), b2, io2, w2) == Moved(s, b2, io2, w1 + w2)
  {
  }

  lemma MovedNowhere(s: Sys)
    requires s.worker == Handling([])
    ensures Moved(s, [], s.io, []) == s
  {
  }

  lemma HandleOne(s: Sys, granted: bool)
    requires s.worker.Handling? && s.worker.batch != []
    requires F.HandleReport(s.io, s.worker.batch[0].fd, s.worker.batch[0].events, granted).Done?
    ensures var r := F.HandleReport(s.io, s.worker.batch[0].fd, s.worker.batch[0].events, granted);
            Apply(s, HandleNext(granted)) == Next(Moved(s, s.worker.batch[1..], r.st, r.works))
  {
  }

  lemma {:induction false} HandleRun(s: Sys, grants: seq<bool>)
    requires s.worker.Handling? && |grants| == |s.worker.batch|
    requires F.Coherent(s.io) && PossibleBatch(s.io, s.worker.batch)
    ensures var (io, works) := I.HandleBatch(s.io, s.worker.batch, grants);
            RunAll(s, Handle(grants)) == Next(Moved(s, [], io, works))
    decreases |grants|
  {
    var batch := s.worker.batch;
    if grants == [] {
      MovedNowhere(s);
    } else {
      I.BatchStaysPossible(s.io, batch, grants[0]);
      HandleOne(s, grants[0]);
      var r := F.HandleReport(s.io, batch[0].fd, batch[0].events, grants[0]);
      var (io, works) := I.HandleBatch(r.st, batch[1..], grants[1..]);
      HandleRun(Moved(s, batch[1..], r.st, r.works), grants[1..]);
      MovedTwice(s, batch[1..], r.st, r.works, [], io, works);
      assert Handle(grants)[1..] == Handle(grants[1..]);
    }
  }

  lemma {:induction false} HandleIsPlain(grants: seq<bool>)
    ensures forall a :: a in Handle(grants) ==> Safety.Plain(a)
  {
    if grants != [] {
      HandleIsPlain(grants[1..]);
    }
  }

  lemma RoundKeepsInv(s: Sys, address: nat, grants: seq<bool>)
    requires Inv.Inv(s)
    ensures var run := RunAll(s, [Expire(address)] + Handle(grants)); run.Next? ==> Inv.Inv(run.s)
  {
    HandleIsPlain(grants);
    Safety.PlainRunIsCareful(s, [Expire(address)] + Handle(grants));
    Safety.RunIsSafe(s, [Expire(address)] + Handle(grants));
  }

  // From any reachable state in which epoll_wait has returned, expiring the timers and handling
  // every ready event leads exactly where IOManagerObjects.IdleRound leaves the timers, the fds
  // and the queue.
  lemma RoundIsSteps(s: Sys, address: nat, grants: seq<bool>)
    requires Inv.Inv(s) && s.worker.Reported? && |grants| == |s.worker.batch|
    ensures var run := RunAll(s, [Expire(address)] + Handle(grants));
            var (io, works) := I.HandleBatch(s.io, s.worker.batch, grants);
            && run.Next? && run.s.worker == Handling([]) && Inv.Inv(run.s)
            && run.s.timers == T.ListExpired(s.timers, s.now, address).0
            && run.s.io == io
            && run.s.tasks == s.tasks + S.BatchTasks(T.ListExpired(s.timers, s.now, address).1) + TasksOf(works)
  {
    var s1 := DoExpire(s, address);
    Safety.WorkerStep(s, Expire(address));
    Safety.FirstStep(s, [Expire(address)] + Handle(grants), s1);
    assert ([Expire(address)] + Handle(grants))[1..] == Handle(grants);
    HandleRun(s1, grants);
    RoundKeepsInv(s, address, grants);
  }
}
