// The wake-up protocol between TimerManager and IOManager: other threads call the timer API
// while the one worker sleeps in epoll_wait on a deadline it read from getNextTimer. Each
// mutex-protected region is one step; onTimerInsertedAtFront runs after the lock is released,
// so the wake-up it writes is a step of its own.
module SleepSafety {
  import opened Common
  import opened Timers
  import opened TimerRuns

  // Asleep: the clock when getNextTimer was called, and its answer.
  datatype Worker = Awake | Asleep(start: Word, wait: Word)

  // wake: a front insertion has written the pipe since the worker's last getNextTimer.
  // owed: threads between addTimer's unlock and their call of onTimerInsertedAtFront.
  datatype World = World(ts: TimerState, now: Word, worker: Worker, wake: bool, owed: nat)

  datatype Action =
    | Clock(now: Word)
    | Api(op: Op, at: Word)    // addTimer, cancel, refresh, reset or getNextTimer, by any thread
    | Tickle                   // a thread that inserted at the front now writes the pipe
    | Sleep                    // the worker calls getNextTimer and goes to sleep
    | Wake                     // epoll_wait returns, for whatever reason
    | Expire(address: nat, at: Word)

  // at_front of the insertion a call makes.
  predicate Front(ts: TimerState, c: Call) {
    match c.op
    case OpAdd(ms, cb, recurring) => AddTimer(ts, ms, cb, recurring, c.now).1
    case OpReset(id, ms, fromNow) => Reset(ts, id, IntervalOf(ts, id), ms, fromNow, c.now).2
    case _ => false
  }

  // The timer `id` is before every other of the set.
  ghost predicate First(s: seq<Entry>, id: nat) {
    exists x :: x in s && x.id == id && Foremost(s, x)
  }

  lemma AddClaims(ts: TimerState, c: Call)
    requires Valid(ts) && c.op.OpAdd?
    ensures Front(ts, c) <==> !ts.tickled && First(Step(ts, c).entries, ts.nextId)
  {
    var (ts', front) := AddTimer(ts, c.op.ms, c.op.cb, c.op.recurring, c.now);
    AddTimerExactly(ts, c.op.ms, c.op.cb, c.op.recurring, c.now);
    var x :| && Added(ts.entries, ts'.entries, x) && Describes(x, ts.nextId, c.op.recurring, c.op.cb)
             && ArmedFrom(x, c.now, c.op.ms) && (front <==> !ts.tickled && Foremost(ts'.entries, x));
    assert forall y :: y in ts'.entries && y.id == ts.nextId ==> y == x;
  }

  // A reset with something to do.
  predicate Effective(ts: TimerState, c: Call) {
    c.op.OpReset? && !(c.op.ms == IntervalOf(ts, c.op.id) && !c.op.fromNow)
  }

  lemma ResetClaimsFirst(ts: TimerState, c: Call)
    requires Valid(ts) && Effective(ts, c)
    ensures Front(ts, c) <==>
              && !ts.tickled && First(Step(ts, c).entries, c.op.id)
              && exists d :: d in ts.entries && d.id == c.op.id && d.cb.Some?
  {
    var oldMs := IntervalOf(ts, c.op.id);
    var (ts', ok, front) := Reset(ts, c.op.id, oldMs, c.op.ms, c.op.fromNow, c.now);
    ResetExactly(ts, c.op.id, oldMs, c.op.ms, c.op.fromNow, c.now);
    if ok {
      var e, x :| && Replaced(ts.entries, ts'.entries, e, x) && e.id == c.op.id
                  && ArmedAnew(e, x, if c.op.fromNow then c.now else e.armedAt, c.op.ms)
                  && (front <==> !ts.tickled && Foremost(ts'.entries, x));
      OnlyOneById(ts'.entries, c.op.id);
    }
  }

  // A call claims the wake-up exactly when it adds a timer, or gives an active one a new interval, that
  // timer is then first of all, and no wake-up is outstanding.
  lemma ClaimsExactly(ts: TimerState, c: Call)
    requires Valid(ts)
    ensures Front(ts, c) <==>
              && !ts.tickled
              && ((c.op.OpAdd? && First(Step(ts, c).entries, ts.nextId))
                  || (Effective(ts, c) && First(Step(ts, c).entries, c.op.id)
                      && exists d :: d in ts.entries && d.id == c.op.id && d.cb.Some?))
  {
    if c.op.OpAdd? {
      AddClaims(ts, c);
    } else if Effective(ts, c) {
      ResetClaimsFirst(ts, c);
    }
  }

  // The clock may do anything. addTimer and listExpiredCb read it before they take the lock, the
  // other calls after.
  predicate Enabled(w: World, a: Action) {
    match a
    case Clock(now) => true
    case Api(op, at) => !op.OpExpire? && (op.OpAdd? || at == w.now)
    case Tickle => w.owed > 0
    case Sleep => w.worker.Awake?
    case Wake => w.worker.Asleep?
    case Expire(_, _) => w.worker.Awake?
  }

  // tickle() writes the pipe only when some thread is idle; the single worker is counted idle
  // from before its getNextTimer until after it wakes.
  function Next(w: World, a: Action): World
    requires Enabled(w, a)
  {
    match a
    case Clock(now) => w.(now := now)
    case Api(op, at) =>
      var c := Call(at, op);
      w.(ts := Step(w.ts, c), owed := if Front(w.ts, c) then w.owed + 1 else w.owed)
    case Tickle => w.(owed := w.owed - 1, wake := w.wake || w.worker.Asleep?)
    case Sleep =>
      var r := NextTimer(w.ts, w.now);
      w.(ts := r.0, worker := Asleep(w.now, r.1), wake := false)
    case Wake => w.(worker := Awake, wake := false)
    case Expire(address, at) => w.(ts := Step(w.ts, Call(at, OpExpire(address))))
  }

  // The worker sleeps no longer than it should: it was told not to wait, or every timer is due
  // no earlier than the deadline it observed.
  ghost predicate NoEarlier(ts: TimerState, start: Word, wait: Word) {
    wait == 0 || forall e :: e in ts.entries ==> e.next >= start + wait
  }

  ghost predicate SafeSleep(w: World) {
    w.worker.Asleep? ==> w.wake || w.owed > 0 || NoEarlier(w.ts, w.worker.start, w.worker.wait)
  }

  ghost predicate Inv(w: World) {
    && Valid(w.ts)
    && (w.worker.Asleep? && w.ts.tickled ==> w.wake || w.owed > 0)
    && SafeSleep(w)
  }

  // A sleep that nobody is about to end.
  predicate Undisturbed(w: World) {
    w.worker.Asleep? && !w.wake && w.owed == 0
  }

  // refresh, which never looks at the front of the set, must not bring a timer before the deadline
  // an undisturbed worker observed.
  ghost predicate Guarded(w: World, a: Action) {
    a.Api? && a.op.OpRefresh? && Active(w.ts, a.op.id) && Undisturbed(w) ==>
      w.worker.wait == 0 || Add(a.at, IntervalOf(w.ts, a.op.id)) >= w.worker.start + w.worker.wait
  }

  lemma ObservedDeadline(ts: TimerState, now: Word)
    requires Valid(ts)
    ensures NoEarlier(ts, now, NextTimer(ts, now).1)
  {
  }

  // An insertion that is not first is no earlier than some timer already there.
  lemma InsertedBehind(s: seq<Entry>, e: Entry)
    requires LowerBound(s, e) != 0
    ensures exists x :: x in s && x.next <= e.next
  {
  }

  // With no wake-up outstanding, a call that does not claim one leaves no earlier timer.
  lemma QuietCallKeepsDeadline(w: World, op: Op, at: Word)
    requires Inv(w) && Enabled(w, Api(op, at)) && Guarded(w, Api(op, at)) && Undisturbed(w)
    requires !Front(w.ts, Call(at, op))
    ensures NoEarlier(Step(w.ts, Call(at, op)), w.worker.start, w.worker.wait)
  {
    var ts := w.ts;
    assert !ts.tickled && NoEarlier(ts, w.worker.start, w.worker.wait);
    match op
    case OpAdd(ms, cb, recurring) =>
      AddTimerKeepsValid(ts, ms, cb, recurring, at);
      InsertedBehind(ts.entries, NewEntry(ts.nextId, ms, cb, recurring, at));
    case OpCancel(id) => CancelRemoves(ts, id);
    case OpRefresh(id) =>
      if Active(ts, id) {
        RefreshKeepsDeadlineExactly(ts, id, at, w.worker.start, w.worker.wait);
      }
    case OpReset(id, ms, fromNow) =>
      ResetOutcome(ts, id, IntervalOf(ts, id), ms, fromNow, at);
      if Active(ts, id) && !(ms == IntervalOf(ts, id) && !fromNow) {
        QuietReset(ts, id, ms, fromNow, at, w.worker.start, w.worker.wait);
      }
    case OpNext =>
  }

  lemma QuietReset(ts: TimerState, id: nat, ms: Word, fromNow: bool, now: Word, start: Word, wait: Word)
    requires Valid(ts) && Active(ts, id) && !(ms == IntervalOf(ts, id) && !fromNow)
    requires !ts.tickled && !Reset(ts, id, IntervalOf(ts, id), ms, fromNow, now).2
    requires NoEarlier(ts, start, wait)
    ensures NoEarlier(Reset(ts, id, IntervalOf(ts, id), ms, fromNow, now).0, start, wait)
  {
    var i := IndexOf(ts.entries, id);
    assert ts.entries[i] in ts.entries;
    ResetKeepsValid(ts, id, IntervalOf(ts, id), ms, fromNow, now);
    ResetShape(ts, id, IntervalOf(ts, id), ms, fromNow, now);
    EraseMembers(ts.entries, i);
    InsertedBehind(EraseAt(ts.entries, i), ResetEntry(ts.entries[i], ms, fromNow, now));
  }

  // A call sets the flag only together with a claim on the wake-up.
  lemma FlagNeedsClaim(ts: TimerState, c: Call)
    requires Step(ts, c).tickled && !c.op.OpExpire?
    ensures ts.tickled || Front(ts, c)
  {
  }

  // Under any clock, refresh keeps the observed deadline safe exactly when the new deadline is not
  // before it.
  lemma RefreshKeepsDeadlineExactly(ts: TimerState, id: nat, now: Word, start: Word, wait: Word)
    requires Valid(ts) && Active(ts, id) && NoEarlier(ts, start, wait)
    ensures NoEarlier(Refresh(ts, id, now).0, start, wait)
       <==> wait == 0 || Add(now, IntervalOf(ts, id)) >= start + wait
  {
    RefreshKeepsValid(ts, id, now);
    assert Rearmed(ts.entries[IndexOf(ts.entries, id)], now) in Refresh(ts, id, now).0.entries;
  }

  lemma ApiKeepsInv(w: World, op: Op, at: Word)
    requires Inv(w) && Enabled(w, Api(op, at)) && Guarded(w, Api(op, at))
    ensures Inv(Next(w, Api(op, at)))
  {
    StepMembers(w.ts, Call(at, op));
    if Undisturbed(w) && !Front(w.ts, Call(at, op)) {
      QuietCallKeepsDeadline(w, op, at);
    }
    if Step(w.ts, Call(at, op)).tickled {
      FlagNeedsClaim(w.ts, Call(at, op));
    }
  }

  lemma StepKeepsInv(w: World, a: Action)
    requires Inv(w) && Enabled(w, a) && Guarded(w, a)
    ensures Inv(Next(w, a))
  {
    match a
    case Clock(_) =>
    case Api(op, at) => ApiKeepsInv(w, op, at);
    case Tickle =>
    case Sleep => ObservedDeadline(w.ts, w.now);
    case Wake =>
    case Expire(address, at) => StepMembers(w.ts, Call(at, OpExpire(address)));
  }

  lemma UnguardedStepBreaks(w: World, a: Action)
    requires Inv(w) && Enabled(w, a) && !Guarded(w, a)
    ensures !SafeSleep(Next(w, a))
  {
    RefreshKeepsDeadlineExactly(w.ts, a.op.id, a.at, w.worker.start, w.worker.wait);
  }

  ghost predicate Run(w: World, actions: seq<Action>)
    decreases |actions|
  {
    actions == [] || (Enabled(w, actions[0]) && Run(Next(w, actions[0]), actions[1..]))
  }

  // The sleep is safe now and after every step of the run.
  ghost predicate SafeThroughout(w: World, actions: seq<Action>)
    requires Run(w, actions)
    decreases |actions|
  {
    SafeSleep(w) && (actions == [] || SafeThroughout(Next(w, actions[0]), actions[1..]))
  }

  ghost predicate GuardedThroughout(w: World, actions: seq<Action>)
    requires Run(w, actions)
    decreases |actions|
  {
    actions == [] || (Guarded(w, actions[0]) && GuardedThroughout(Next(w, actions[0]), actions[1..]))
  }

  // Sleep safety over every interleaving and under any clock. All along a run it holds that, while
  // the worker sleeps, the earliest timer is no earlier than the deadline it observed, or a
  // front-insertion wake-up has been written since or is about to be: if and only if no refresh of
  // the run brings a timer before that deadline.
  lemma {:induction false} SleepIsSafeExactly(w: World, actions: seq<Action>)
    requires Inv(w) && Run(w, actions)
    ensures SafeThroughout(w, actions) <==> GuardedThroughout(w, actions)
    decreases |actions|
  {
    if actions != [] {
      if Guarded(w, actions[0]) {
        StepKeepsInv(w, actions[0]);
        SleepIsSafeExactly(Next(w, actions[0]), actions[1..]);
      } else {
        UnguardedStepBreaks(w, actions[0]);
      }
    }
  }

  lemma InitialWorld(start: Word)
    ensures var w := World(TimerState([], false, start, 0), start, Awake, false, 0);
            Inv(w) && (start < HALF ==> Armed(w))
  {
  }

  // ---------------------------------------------------------------- a clock that never steps back

  // No deadline wraps, and no timer was armed later than now.
  ghost predicate Armed(w: World) {
    w.now < HALF && forall e :: e in w.ts.entries ==> EntryOk(e, w.now)
  }

  // The clock goes forward; a reading made before the lock may be an older one.
  predicate Forward(w: World, a: Action) {
    match a
    case Clock(now) => w.now <= now < HALF
    case Api(op, at) => at <= w.now && Bounded(Call(at, op))
    case Expire(_, at) => at <= w.now
    case _ => true
  }

  ghost predicate ForwardThroughout(w: World, actions: seq<Action>)
    requires Run(w, actions)
    decreases |actions|
  {
    actions == [] || (Forward(w, actions[0]) && ForwardThroughout(Next(w, actions[0]), actions[1..]))
  }

  lemma CallKeepsEntries(ts: TimerState, c: Call, now: Word)
    requires Valid(ts) && c.now <= now < HALF && Bounded(c) && forall e :: e in ts.entries ==> EntryOk(e, now)
    ensures forall e :: e in Step(ts, c).entries ==> EntryOk(e, now)
  {
    StepMembers(ts, c);
    forall x | x in Step(ts, c).entries ensures EntryOk(x, now) {
      if x !in ts.entries && !IsNew(ts, x, c) {
        var e :| e in ts.entries && FollowsFrom(e, x, c);
      }
    }
  }

  lemma ForwardKeepsArmed(w: World, a: Action)
    requires Inv(w) && Armed(w) && Enabled(w, a) && Forward(w, a)
    ensures Armed(Next(w, a))
  {
    match a
    case Api(op, at) => CallKeepsEntries(w.ts, Call(at, op), w.now);
    case Expire(address, at) => CallKeepsEntries(w.ts, Call(at, OpExpire(address)), w.now);
    case _ =>
  }

  // A refresh only ever moves a timer's deadline back.
  lemma ForwardIsGuarded(w: World, a: Action)
    requires Inv(w) && Armed(w) && Enabled(w, a) && Forward(w, a)
    ensures Guarded(w, a)
  {
    if a.Api? && a.op.OpRefresh? && Active(w.ts, a.op.id) && Undisturbed(w) {
      var e := w.ts.entries[IndexOf(w.ts.entries, a.op.id)];
      assert e in w.ts.entries && EntryOk(e, w.now);
    }
  }

  // So under a clock that never steps back the sleep is safe throughout every run.
  lemma {:induction false} SleepIsSafe(w: World, actions: seq<Action>)
    requires Inv(w) && Armed(w) && Run(w, actions) && ForwardThroughout(w, actions)
    ensures SafeThroughout(w, actions)
    decreases |actions|
  {
    if actions != [] {
      ForwardIsGuarded(w, actions[0]);
      StepKeepsInv(w, actions[0]);
      ForwardKeepsArmed(w, actions[0]);
      SleepIsSafe(Next(w, actions[0]), actions[1..]);
    }
  }

  // With a clock set back the guard can fail: the first timer, refreshed, is inserted at the front,
  // ahead of the observed deadline, and nobody is woken.
  lemma RefreshAfterClockStepsBack()
    ensures var e := Entry(0, 5000, 1000, false, Some(UserCb(0)), 4000);
            var w := World(TimerState([e], false, 4000, 1), 4000, Asleep(4000, 1000), false, 0);
            var actions := [Clock(2000), Api(OpRefresh(0), 2000)];
            Inv(w) && Armed(w) && Run(w, actions) && !SafeThroughout(w, actions)
  {
    var e := Entry(0, 5000, 1000, false, Some(UserCb(0)), 4000);
    var w := World(TimerState([e], false, 4000, 1), 4000, Asleep(4000, 1000), false, 0);
    var actions := [Clock(2000), Api(OpRefresh(0), 2000)];
    var w1 := Next(w, actions[0]);
    assert actions[1..] == [actions[1]] && [actions[1]][1..] == [];
    assert IndexOf(w.ts.entries, 0) == 0 && Inv(w1) && !Guarded(w1, actions[1]);
    assert Run(w1, [actions[1]]);
    UnguardedStepBreaks(w1, actions[1]);
  }

  // ---------------------------------------------------------------- the epoll_wait timeout

  const MAX_TIMEOUT: int := 3000

  // Conversion of uint64_t to int: the low 32 bits, read as two's complement.
  function ToInt(x: Word): int {
    var low := x % 0x1_0000_0000;
    if low < 0x8000_0000 then low else low - 0x1_0000_0000
  }

  // The timeout idle() hands to epoll_wait for getNextTimer's answer.
  function EpollTimeout(wait: Word): int {
    ToInt(if wait == FOREVER then MAX_TIMEOUT else if ToInt(wait) > MAX_TIMEOUT then MAX_TIMEOUT else wait)
  }

  // The timeout is the answer, at most 3000 ms, exactly for answers below 2^31 and for "no timer". Beyond,
  // only the low half of the answer counts: the 3000 ms cap holds exactly when that is non-negative as an
  // int, otherwise the timeout is negative, which epoll_wait takes as forever. Where the cap holds, the
  // worker is never told to wait past the deadline.
  lemma EpollTimeoutExactly(wait: Word)
    ensures var low := wait % 0x1_0000_0000;
            && (wait == 0xFFFF_FFFF_FFFF_FFFF ==> EpollTimeout(wait) == 3000)
            && (wait != 0xFFFF_FFFF_FFFF_FFFF && low >= 0x8000_0000 ==> EpollTimeout(wait) == low - 0x1_0000_0000 < 0)
            && (low < 0x8000_0000 ==> EpollTimeout(wait) == if low < 3000 then low else 3000)
    ensures EpollTimeout(wait) <= wait
    ensures wait < 0x8000_0000 ==> EpollTimeout(wait) == if wait < 3000 then wait else 3000
  {
  }
}
