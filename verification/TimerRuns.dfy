// Whole runs of a timer manager: any sequence of addTimer, cancel, refresh, reset, getNextTimer
// and listExpiredCb calls, each at its own clock reading, with a log of what fired.
module TimerRuns {
  import opened Common
  import opened Timers

  datatype Op =
    | OpAdd(ms: Word, cb: Option<Callback>, recurring: bool)
    | OpCancel(id: nat)
    | OpRefresh(id: nat)
    | OpReset(id: nat, ms: Word, fromNow: bool)
    | OpNext
    | OpExpire(address: nat)

  datatype Call = Call(now: Word, op: Op)

  // `due` is the deadline the timer had.
  datatype Firing = Firing(id: nat, at: Word, ms: Word, recurring: bool, due: Word)

  function FiringOf(e: Entry, now: Word): Firing {
    Firing(e.id, now, e.ms, e.recurring, e.next)
  }

  ghost function Fired(taken: seq<Entry>, now: Word): (log: seq<Firing>)
    ensures |log| == |taken|
    ensures forall i :: 0 <= i < |taken| ==> log[i] == FiringOf(taken[i], now)
  {
    if taken == [] then [] else [FiringOf(taken[0], now)] + Fired(taken[1..], now)
  }

  function IntervalOf(ts: TimerState, id: nat): Word {
    var i := IndexOf(ts.entries, id);
    if i < |ts.entries| then ts.entries[i].ms else 0
  }

  function Step(ts: TimerState, c: Call): TimerState {
    match c.op
    case OpAdd(ms, cb, recurring) => AddTimer(ts, ms, cb, recurring, c.now).0
    case OpCancel(id) => Cancel(ts, id).0
    case OpRefresh(id) => Refresh(ts, id, c.now).0
    case OpReset(id, ms, fromNow) => Reset(ts, id, IntervalOf(ts, id), ms, fromNow, c.now).0
    case OpNext => NextTimer(ts, c.now).0
    case OpExpire(address) => ListExpired(ts, c.now, address).0
  }

  ghost function StepLog(ts: TimerState, c: Call): seq<Firing> {
    if c.op.OpExpire? then Fired(Taken(ts, c.now), c.now) else []
  }

  function Run(ts: TimerState, calls: seq<Call>): TimerState
    decreases |calls|
  {
    if calls == [] then ts else Run(Step(ts, calls[0]), calls[1..])
  }

  ghost function RunLog(ts: TimerState, calls: seq<Call>): seq<Firing>
    decreases |calls|
  {
    if calls == [] then [] else StepLog(ts, calls[0]) + RunLog(Step(ts, calls[0]), calls[1..])
  }

  // x is the timer e after the call re-armed it.
  ghost predicate FollowsFrom(e: Entry, x: Entry, c: Call) {
    || (c.op.OpReset? && c.op.id == e.id && ArmedAnew(e, x, if c.op.fromNow then c.now else e.armedAt, c.op.ms))
    || (c.op.OpRefresh? && c.op.id == e.id && ArmedAnew(e, x, c.now, e.ms))
    || (c.op.OpExpire? && e.recurring && ArmedAnew(e, x, c.now, e.ms))
  }

  // x is the timer that the call adds.
  ghost predicate IsNew(ts: TimerState, x: Entry, c: Call) {
    c.op.OpAdd? && Describes(x, ts.nextId, c.op.recurring, c.op.cb) && ArmedFrom(x, c.now, c.op.ms)
  }

  ghost predicate Accounted(ts: TimerState, x: Entry, c: Call) {
    x in ts.entries || IsNew(ts, x, c) || exists e :: e in ts.entries && FollowsFrom(e, x, c)
  }

  lemma RefreshMembers(ts: TimerState, c: Call)
    requires Valid(ts) && c.op.OpRefresh?
    ensures Valid(Step(ts, c)) && Step(ts, c).nextId == ts.nextId
    ensures forall x :: x in Step(ts, c).entries ==> Accounted(ts, x, c)
  {
    RefreshExactly(ts, c.op.id, c.now);
    if Refresh(ts, c.op.id, c.now).1 {
      var e, x :| Replaced(ts.entries, Step(ts, c).entries, e, x) && e.id == c.op.id && ArmedAnew(e, x, c.now, e.ms);
      assert FollowsFrom(e, x, c);
    }
  }

  lemma ResetMembers(ts: TimerState, c: Call)
    requires Valid(ts) && c.op.OpReset?
    ensures forall x :: x in Step(ts, c).entries ==> Accounted(ts, x, c)
  {
    var oldMs := IntervalOf(ts, c.op.id);
    if !(c.op.ms == oldMs && !c.op.fromNow) {
      ResetExactly(ts, c.op.id, oldMs, c.op.ms, c.op.fromNow, c.now);
      var (ts', ok, front) := Reset(ts, c.op.id, oldMs, c.op.ms, c.op.fromNow, c.now);
      if ok {
        var e, x :| && Replaced(ts.entries, ts'.entries, e, x) && e.id == c.op.id
                    && ArmedAnew(e, x, if c.op.fromNow then c.now else e.armedAt, c.op.ms)
                    && (front <==> !ts.tickled && Foremost(ts'.entries, x));
        assert FollowsFrom(e, x, c);
      }
    }
  }

  lemma ExpireMembers(ts: TimerState, c: Call)
    requires Valid(ts) && c.op.OpExpire?
    ensures forall x :: x in Step(ts, c).entries ==> Accounted(ts, x, c)
  {
    FiredMembers(ts, c.now, c.op.address);
    TakenMembers(ts, c.now);
    forall x | x in Step(ts, c).entries && x !in ts.entries ensures Accounted(ts, x, c) {
      var e :| e in Taken(ts, c.now) && e.recurring && ArmedAnew(e, x, c.now, e.ms);
      assert e in ts.entries && FollowsFrom(e, x, c);
    }
  }

  lemma ResetValid(ts: TimerState, c: Call)
    requires Valid(ts) && c.op.OpReset?
    ensures Valid(Step(ts, c)) && Step(ts, c).nextId == ts.nextId
  {
    var oldMs := IntervalOf(ts, c.op.id);
    if !(c.op.ms == oldMs && !c.op.fromNow) {
      ResetExactly(ts, c.op.id, oldMs, c.op.ms, c.op.fromNow, c.now);
    }
  }

  lemma ExpireValid(ts: TimerState, c: Call)
    requires Valid(ts) && c.op.OpExpire?
    ensures Valid(Step(ts, c)) && Step(ts, c).nextId == ts.nextId
  {
    ListExpiredInFull(ts, c.now, c.op.address);
  }

  // What one call may leave in the set: an entry it found there, one it added, or one it armed anew.
  lemma StepMembers(ts: TimerState, c: Call)
    requires Valid(ts)
    ensures Valid(Step(ts, c)) && Step(ts, c).nextId >= ts.nextId
    ensures forall x :: x in Step(ts, c).entries ==>
              x in ts.entries || IsNew(ts, x, c) || exists e :: e in ts.entries && FollowsFrom(e, x, c)
  {
    match c.op
    case OpAdd(ms, cb, recurring) => AddTimerExactly(ts, ms, cb, recurring, c.now);
    case OpCancel(id) => CancelRemoves(ts, id);
    case OpRefresh(id) => RefreshMembers(ts, c);
    case OpReset(id, ms, fromNow) =>
      ResetValid(ts, c);
      ResetMembers(ts, c);
    case OpNext =>
    case OpExpire(address) =>
      ExpireValid(ts, c);
      ExpireMembers(ts, c);
  }

  // ---------------------------------------------------------------- gone for good

  ghost predicate Absent(ts: TimerState, id: nat) {
    id < ts.nextId && forall e :: e in ts.entries ==> e.id != id
  }

  // A timer that has left the set never fires again, whatever is called afterwards.
  lemma {:induction false} GoneNeverFires(ts: TimerState, calls: seq<Call>, id: nat)
    requires Valid(ts) && Absent(ts, id)
    ensures Absent(Run(ts, calls), id)
    ensures forall f :: f in RunLog(ts, calls) ==> f.id != id
    decreases |calls|
  {
    if calls == [] {
    } else {
      StepMembers(ts, calls[0]);
      TakenMembers(ts, calls[0].now);
      GoneNeverFires(Step(ts, calls[0]), calls[1..], id);
    }
  }

  // After a successful cancel no later listExpiredCb returns the timer.
  lemma CancelledNeverFires(ts: TimerState, id: nat, calls: seq<Call>)
    requires Valid(ts) && Cancel(ts, id).1
    ensures forall f :: f in RunLog(Cancel(ts, id).0, calls) ==> f.id != id
  {
    CancelRemoves(ts, id);
    GoneNeverFires(Cancel(ts, id).0, calls, id);
  }

  // ---------------------------------------------------------------- spacing

  const HALF: Word := 0x8000_0000_0000_0000

  // Clock readings and intervals far enough from 2^64 that no deadline wraps.
  predicate Bounded(c: Call) {
    c.now < HALF && (c.op.OpAdd? || c.op.OpReset? ==> c.op.ms < HALF)
  }

  ghost predicate Monotone(now: Word, calls: seq<Call>) {
    && (forall i :: 0 <= i < |calls| ==> now <= calls[i].now && Bounded(calls[i]))
    && (forall i, j :: 0 <= i < j < |calls| ==> calls[i].now <= calls[j].now)
  }

  ghost predicate EntryOk(e: Entry, now: Word) {
    e.ms < HALF && e.armedAt <= now && e.next == e.armedAt + e.ms
  }

  // A valid set under a clock that has not stepped back.
  ghost predicate Settled(ts: TimerState, now: Word) {
    && Valid(ts) && ts.previous <= now < HALF
    && forall e :: e in ts.entries ==> EntryOk(e, now)
  }

  ghost predicate History(ts: TimerState, log: seq<Firing>, now: Word) {
    && Settled(ts, now)
    && (forall f :: f in log ==> f.id < ts.nextId && f.at <= now)
    && (forall f, e :: f in log && e in ts.entries && f.id == e.id ==> e.recurring && f.at <= e.armedAt)
  }

  // Two firings of one timer: it is recurring, and the second comes at least the interval it
  // then had after the first.
  ghost predicate Spaced(log: seq<Firing>) {
    forall i, j :: 0 <= i < j < |log| && log[i].id == log[j].id ==>
      log[j].recurring && log[i].at + log[j].ms <= log[j].at
  }

  lemma StepKeepsSettled(ts: TimerState, now: Word, c: Call)
    requires Settled(ts, now) && now <= c.now && Bounded(c)
    ensures Settled(Step(ts, c), c.now)
  {
    StepMembers(ts, c);
    StepPrevious(ts, c);
    forall x | x in Step(ts, c).entries ensures EntryOk(x, c.now) {
      if x !in ts.entries && !IsNew(ts, x, c) {
        var e :| e in ts.entries && FollowsFrom(e, x, c);
      }
    }
  }

  lemma StepKeepsEntries(ts: TimerState, log: seq<Firing>, now: Word, c: Call)
    requires History(ts, log, now) && now <= c.now && Bounded(c)
    ensures forall f, e :: f in log && e in Step(ts, c).entries && f.id == e.id ==> e.recurring && f.at <= e.armedAt
  {
    StepMembers(ts, c);
    forall x | x in Step(ts, c).entries
      ensures forall f :: f in log && f.id == x.id ==> x.recurring && f.at <= x.armedAt
    {
      if x !in ts.entries && !IsNew(ts, x, c) {
        var e :| e in ts.entries && FollowsFrom(e, x, c);
      }
    }
  }

  ghost predicate Firable(e: Entry, f: Firing, now: Word) {
    e.next <= now && f == FiringOf(e, now)
  }

  // Without rollover, what one call fires: due entries, each once.
  lemma StepLogOrigin(ts: TimerState, c: Call)
    requires Valid(ts) && ts.previous <= c.now
    ensures forall f :: f in StepLog(ts, c) ==> exists e :: e in ts.entries && Firable(e, f, c.now)
    ensures forall i, j :: 0 <= i < j < |StepLog(ts, c)| ==> StepLog(ts, c)[i].id != StepLog(ts, c)[j].id
  {
    if c.op.OpExpire? {
      var taken := Taken(ts, c.now);
      RolloverExactly(ts.previous, c.now);
      TakenMembers(ts, c.now);
      ListExpiredShape(ts, c.now, c.op.address);
      PartitionOrdered(ts.entries, taken, Kept(ts, c.now));
      forall f | f in Fired(taken, c.now) ensures exists e :: e in ts.entries && Firable(e, f, c.now) {
        var j :| 0 <= j < |taken| && Fired(taken, c.now)[j] == f;
        assert taken[j] in taken && Firable(taken[j], f, c.now);
      }
    }
  }

  lemma SpacedConcat(log: seq<Firing>, added: seq<Firing>)
    requires Spaced(log)
    requires forall i, j :: 0 <= i < j < |added| ==> added[i].id != added[j].id
    requires forall f, g :: f in log && g in added && f.id == g.id ==> g.recurring && f.at + g.ms <= g.at
    ensures Spaced(log + added)
  {
  }

  lemma StepKeepsSpacing(ts: TimerState, log: seq<Firing>, now: Word, c: Call)
    requires History(ts, log, now) && Spaced(log) && now <= c.now && Bounded(c)
    ensures Spaced(log + StepLog(ts, c))
  {
    StepLogOrigin(ts, c);
    forall f, g | f in log && g in StepLog(ts, c) && f.id == g.id ensures g.recurring && f.at + g.ms <= g.at {
      var e :| e in ts.entries && Firable(e, g, c.now);
    }
    SpacedConcat(log, StepLog(ts, c));
  }

  // A timer that has just fired is in the set only if recurring, and armed anew.
  lemma FiredEntries(ts: TimerState, c: Call, f: Firing, x: Entry)
    requires Valid(ts) && ts.previous <= c.now
    requires f in StepLog(ts, c) && x in Step(ts, c).entries && f.id == x.id
    ensures x.recurring && x.armedAt == c.now
  {
    StepLogOrigin(ts, c);
    var e :| e in ts.entries && Firable(e, f, c.now);
    ListExpiredMembers(ts, c.now, c.op.address);
    if x in ts.entries && x.next > c.now {
      OnlyOneById(ts.entries, x.id);
      assert false;
    }
  }

  lemma StepKeepsLog(ts: TimerState, log: seq<Firing>, now: Word, c: Call)
    requires History(ts, log, now) && now <= c.now && Bounded(c)
    ensures forall f :: f in log + StepLog(ts, c) ==> f.id < Step(ts, c).nextId && f.at <= c.now
    ensures forall f, e :: f in log + StepLog(ts, c) && e in Step(ts, c).entries && f.id == e.id ==>
              e.recurring && f.at <= e.armedAt
  {
    StepMembers(ts, c);
    StepLogOrigin(ts, c);
    StepKeepsEntries(ts, log, now, c);
    forall f | f in StepLog(ts, c) ensures f.id < ts.nextId && f.at == c.now {
      var e :| e in ts.entries && Firable(e, f, c.now);
    }
    forall f, x | f in StepLog(ts, c) && x in Step(ts, c).entries && f.id == x.id
      ensures x.recurring && f.at <= x.armedAt
    {
      FiredEntries(ts, c, f, x);
    }
  }

  lemma StepPrevious(ts: TimerState, c: Call)
    requires ts.previous <= c.now
    ensures Step(ts, c).previous <= c.now
  {
  }

  lemma StepKeepsHistory(ts: TimerState, log: seq<Firing>, now: Word, c: Call)
    requires History(ts, log, now) && Spaced(log) && now <= c.now && Bounded(c)
    ensures History(Step(ts, c), log + StepLog(ts, c), c.now) && Spaced(log + StepLog(ts, c))
  {
    StepKeepsSettled(ts, now, c);
    StepKeepsLog(ts, log, now, c);
    StepKeepsSpacing(ts, log, now, c);
  }

  lemma MonotoneTail(now: Word, calls: seq<Call>)
    requires Monotone(now, calls) && calls != []
    ensures Monotone(calls[0].now, calls[1..]) && now <= calls[0].now && Bounded(calls[0])
  {
  }

  lemma RunLogUnfold(ts: TimerState, calls: seq<Call>, log: seq<Firing>)
    requires calls != []
    ensures log + RunLog(ts, calls) == log + StepLog(ts, calls[0]) + RunLog(Step(ts, calls[0]), calls[1..])
  {
  }

  lemma {:induction false} RunKeepsHistory(ts: TimerState, log: seq<Firing>, now: Word, calls: seq<Call>)
    requires History(ts, log, now) && Spaced(log) && Monotone(now, calls)
    ensures Spaced(log + RunLog(ts, calls))
    decreases |calls|
  {
    if calls == [] {
      assert log + [] == log;
    } else {
      MonotoneTail(now, calls);
      StepKeepsHistory(ts, log, now, calls[0]);
      RunLogUnfold(ts, calls, log);
      RunKeepsHistory(Step(ts, calls[0]), log + StepLog(ts, calls[0]), calls[0].now, calls[1..]);
    }
  }

  // Under a clock that never steps back: a one-shot timer fires at most once, and successive
  // firings of a recurring one are at least its interval apart, through any cancels, refreshes
  // and resets in between.
  lemma FiringsSpaced(start: Word, calls: seq<Call>)
    requires Monotone(start, calls) && start < HALF
    ensures Spaced(RunLog(TimerState([], false, start, 0), calls))
  {
    RunKeepsHistory(TimerState([], false, start, 0), [], start, calls);
    assert [] + RunLog(TimerState([], false, start, 0), calls) == RunLog(TimerState([], false, start, 0), calls);
  }

  // ---------------------------------------------------------------- one timer, from its addTimer on

  // The timer `id` has the interval ms and was armed at t or later.
  ghost predicate ArmedSince(ts: TimerState, id: nat, t: Word, ms: Word) {
    id < ts.nextId && forall e :: e in ts.entries && e.id == id ==> e.ms == ms && e.armedAt >= t
  }

  predicate Resets(c: Call, id: nat) {
    c.op.OpReset? && c.op.id == id
  }

  lemma StepKeepsArmedSince(ts: TimerState, now: Word, c: Call, id: nat, t: Word, ms: Word)
    requires Settled(ts, now) && now <= c.now && t <= now && ArmedSince(ts, id, t, ms) && !Resets(c, id)
    ensures ArmedSince(Step(ts, c), id, t, ms)
  {
    StepMembers(ts, c);
    forall x | x in Step(ts, c).entries && x.id == id ensures x.ms == ms && x.armedAt >= t {
      if x !in ts.entries {
        assert !IsNew(ts, x, c);
        var e :| e in ts.entries && FollowsFrom(e, x, c);
        assert e.id == id && x.ms == e.ms && x.armedAt == c.now;
      }
    }
  }

  lemma {:induction false} ArmedSinceNeverEarly(ts: TimerState, now: Word, calls: seq<Call>, id: nat, t: Word, ms: Word)
    requires Settled(ts, now) && Monotone(now, calls) && t <= now && ArmedSince(ts, id, t, ms)
    requires forall c :: c in calls ==> !Resets(c, id)
    ensures forall f :: f in RunLog(ts, calls) && f.id == id ==> f.at >= t + ms
    decreases |calls|
  {
    if calls != [] {
      var c := calls[0];
      MonotoneTail(now, calls);
      StepLogOrigin(ts, c);
      assert forall f :: f in StepLog(ts, c) && f.id == id ==> f.at >= t + ms;
      StepKeepsSettled(ts, now, c);
      StepKeepsArmedSince(ts, now, c, id, t, ms);
      ArmedSinceNeverEarly(Step(ts, c), c.now, calls[1..], id, t, ms);
    }
  }

  // Over every run under a clock that never steps back: a timer added at the clock reading t for ms
  // never fires before t + ms, through any refreshes and firings, unless it is given another interval.
  lemma NeverEarly(ts: TimerState, t: Word, ms: Word, cb: Option<Callback>, recurring: bool, calls: seq<Call>)
    requires Settled(ts, t) && Bounded(Call(t, OpAdd(ms, cb, recurring))) && Monotone(t, calls)
    requires forall c :: c in calls ==> !Resets(c, ts.nextId)
    ensures var ts' := Step(ts, Call(t, OpAdd(ms, cb, recurring)));
            forall f :: f in RunLog(ts', calls) && f.id == ts.nextId ==> f.at >= t + ms
  {
    var ts' := Step(ts, Call(t, OpAdd(ms, cb, recurring)));
    StepKeepsSettled(ts, t, Call(t, OpAdd(ms, cb, recurring)));
    AddTimerExactly(ts, ms, cb, recurring, t);
    assert ArmedSince(ts', ts.nextId, t, ms);
    ArmedSinceNeverEarly(ts', t, calls, ts.nextId, t, ms);
  }

  // The clock reading of the first listExpiredCb at or after `due`.
  function FirstDue(calls: seq<Call>, due: int): Option<Word> {
    if calls == [] then None
    else if calls[0].op.OpExpire? && calls[0].now >= due then Some(calls[0].now)
    else FirstDue(calls[1..], due)
  }

  function FiringsOf(log: seq<Firing>, id: nat): seq<Firing> {
    if log == [] then [] else (if log[0].id == id then [log[0]] else []) + FiringsOf(log[1..], id)
  }

  lemma {:induction false} FiringsOfConcat(a: seq<Firing>, b: seq<Firing>, id: nat)
    ensures FiringsOf(a + b, id) == FiringsOf(a, id) + FiringsOf(b, id)
  {
    if a == [] {
      assert a + b == b;
    } else {
      FiringsOfConcat(a[1..], b, id);
      assert (a + b)[1..] == a[1..] + b;
    }
  }

  lemma {:induction false} FiringsOfNone(log: seq<Firing>, id: nat)
    requires forall f :: f in log ==> f.id != id
    ensures FiringsOf(log, id) == []
  {
    if log != [] {
      FiringsOfNone(log[1..], id);
    }
  }

  lemma {:induction false} FiringsOfTaken(taken: seq<Entry>, now: Word, e: Entry)
    requires UniqueIds(taken) && e in taken
    ensures FiringsOf(Fired(taken, now), e.id) == [FiringOf(e, now)]
  {
    var rest := taken[1..];
    if taken[0] == e {
      FiringsOfNone(Fired(rest, now), e.id);
    } else {
      FiringsOfTaken(rest, now, e);
    }
  }

  predicate Touches(c: Call, id: nat) {
    (c.op.OpCancel? || c.op.OpRefresh? || c.op.OpReset?) && c.op.id == id
  }

  predicate DueAt(e: Entry, c: Call) {
    c.op.OpExpire? && e.next <= c.now
  }

  // A one-shot timer that a call is not about stays as it is until listExpiredCb finds it due.
  lemma UntouchedStays(ts: TimerState, now: Word, c: Call, e: Entry)
    requires Settled(ts, now) && now <= c.now && e in ts.entries && !e.recurring && !Touches(c, e.id)
    ensures DueAt(e, c) ==> FiringsOf(StepLog(ts, c), e.id) == [FiringOf(e, c.now)] && Absent(Step(ts, c), e.id)
    ensures !DueAt(e, c) ==> FiringsOf(StepLog(ts, c), e.id) == [] && e in Step(ts, c).entries
  {
    StepMembers(ts, c);
    match c.op
    case OpAdd(ms, cb, recurring) => AddTimerKeepsValid(ts, ms, cb, recurring, c.now);
    case OpCancel(id) => CancelRemoves(ts, id);
    case OpRefresh(id) => RefreshExactly(ts, id, c.now);
    case OpReset(id, ms, fromNow) =>
      if !(ms == IntervalOf(ts, id) && !fromNow) { ResetExactly(ts, id, IntervalOf(ts, id), ms, fromNow, c.now); }
    case OpNext =>
    case OpExpire(address) => ExpireOne(ts, c, e);
  }

  lemma ExpireOne(ts: TimerState, c: Call, e: Entry)
    requires Valid(ts) && ts.previous <= c.now && e in ts.entries && !e.recurring && c.op.OpExpire?
    ensures DueAt(e, c) ==> FiringsOf(StepLog(ts, c), e.id) == [FiringOf(e, c.now)] && Absent(Step(ts, c), e.id)
    ensures !DueAt(e, c) ==> FiringsOf(StepLog(ts, c), e.id) == [] && e in Step(ts, c).entries
  {
    RolloverExactly(ts.previous, c.now);
    TakenMembers(ts, c.now);
    if DueAt(e, c) {
      ListExpiredShape(ts, c.now, c.op.address);
      PartitionOrdered(ts.entries, Taken(ts, c.now), Kept(ts, c.now));
      FiringsOfTaken(Taken(ts, c.now), c.now, e);
      TakenIsGone(ts, c, e);
    } else {
      ListExpiredMembers(ts, c.now, c.op.address);
      NotTakenNotFired(Taken(ts, c.now), c.now, ts.entries, e);
    }
  }

  lemma TakenIsGone(ts: TimerState, c: Call, e: Entry)
    requires Valid(ts) && ts.previous <= c.now && e in ts.entries && !e.recurring && DueAt(e, c)
    ensures Absent(Step(ts, c), e.id)
  {
    RolloverExactly(ts.previous, c.now);
    TakenMembers(ts, c.now);
    StepMembers(ts, c);
    forall x | x in Step(ts, c).entries ensures x.id != e.id {
      OnlyOneById(ts.entries, e.id);
      ListExpiredMembers(ts, c.now, c.op.address);
    }
  }

  lemma NotTakenNotFired(taken: seq<Entry>, now: Word, s: seq<Entry>, e: Entry)
    requires UniqueIds(s) && e in s && e !in taken && forall x :: x in taken ==> x in s
    ensures FiringsOf(Fired(taken, now), e.id) == []
  {
    OnlyOneById(s, e.id);
    forall f | f in Fired(taken, now) ensures f.id != e.id {
      var j :| 0 <= j < |taken| && Fired(taken, now)[j] == f;
      assert taken[j] in taken;
    }
    FiringsOfNone(Fired(taken, now), e.id);
  }

  lemma {:induction false} UntouchedFires(ts: TimerState, now: Word, calls: seq<Call>, e: Entry)
    requires Settled(ts, now) && Monotone(now, calls) && e in ts.entries && !e.recurring
    requires forall c :: c in calls ==> !Touches(c, e.id)
    ensures FiringsOf(RunLog(ts, calls), e.id)
         == match FirstDue(calls, e.next) case None => [] case Some(at) => [FiringOf(e, at)]
    decreases |calls|
  {
    if calls != [] {
      var c := calls[0];
      MonotoneTail(now, calls);
      assert c in calls;
      StepKeepsSettled(ts, now, c);
      UntouchedStays(ts, now, c, e);
      FiringsOfConcat(StepLog(ts, c), RunLog(Step(ts, c), calls[1..]), e.id);
      if DueAt(e, c) {
        GoneNeverFires(Step(ts, c), calls[1..], e.id);
        FiringsOfNone(RunLog(Step(ts, c), calls[1..]), e.id);
      } else {
        UntouchedFires(Step(ts, c), c.now, calls[1..], e);
      }
    }
  }

  // A one-shot timer added at t for ms and left alone fires exactly once, at the first listExpiredCb
  // whose clock reading has come to t + ms, and not at all before there is one.
  lemma OneShotFiresExactly(ts: TimerState, t: Word, ms: Word, cb: Option<Callback>, calls: seq<Call>)
    requires Settled(ts, t) && Bounded(Call(t, OpAdd(ms, cb, false))) && Monotone(t, calls)
    requires forall c :: c in calls ==> !Touches(c, ts.nextId)
    ensures var ts' := Step(ts, Call(t, OpAdd(ms, cb, false)));
            FiringsOf(RunLog(ts', calls), ts.nextId)
            == match FirstDue(calls, t + ms) case None => [] case Some(at) => [Firing(ts.nextId, at, ms, false, t + ms)]
  {
    var ts' := Step(ts, Call(t, OpAdd(ms, cb, false)));
    StepKeepsSettled(ts, t, Call(t, OpAdd(ms, cb, false)));
    AddTimerExactly(ts, ms, cb, false, t);
    var x :| Added(ts.entries, ts'.entries, x) && Describes(x, ts.nextId, false, cb) && ArmedFrom(x, t, ms);
    UntouchedFires(ts', t, calls, x);
  }

  // ---------------------------------------------------------------- deadlines under any clock

  ghost predicate OnTime(log: seq<Firing>) {
    forall f :: f in log ==> f.due <= f.at
  }

  // A listExpiredCb that takes the clock to have rolled over must find no timer still to come.
  ghost predicate HarmlessCall(ts: TimerState, c: Call) {
    c.op.OpExpire? && Rollover(ts.previous, c.now) ==> forall e :: e in ts.entries ==> e.next <= c.now
  }

  ghost predicate HarmlessCalls(ts: TimerState, calls: seq<Call>)
    decreases |calls|
  {
    calls == [] || (HarmlessCall(ts, calls[0]) && HarmlessCalls(Step(ts, calls[0]), calls[1..]))
  }

  lemma StepOnTime(ts: TimerState, c: Call)
    ensures OnTime(StepLog(ts, c)) <==> HarmlessCall(ts, c)
  {
    if c.op.OpExpire? {
      var taken, log := Taken(ts, c.now), StepLog(ts, c);
      TakenMembers(ts, c.now);
      forall f | f in log ensures exists e :: e in taken && f == FiringOf(e, c.now) {
        var j :| 0 <= j < |log| && log[j] == f;
        assert taken[j] in taken;
      }
      forall e | e in taken ensures FiringOf(e, c.now) in log {
        var j :| 0 <= j < |taken| && taken[j] == e;
        assert log[j] == FiringOf(e, c.now);
      }
    }
  }

  // Over every run and under any clock: no timer ever fires before its deadline, if and only if every
  // rollover of the run comes when all timers in the set are due anyway.
  lemma {:induction false} OnTimeExactly(ts: TimerState, calls: seq<Call>)
    ensures OnTime(RunLog(ts, calls)) <==> HarmlessCalls(ts, calls)
    decreases |calls|
  {
    if calls != [] {
      StepOnTime(ts, calls[0]);
      OnTimeExactly(Step(ts, calls[0]), calls[1..]);
      OnTimeConcat(StepLog(ts, calls[0]), RunLog(Step(ts, calls[0]), calls[1..]));
    }
  }

  lemma OnTimeConcat(a: seq<Firing>, b: seq<Firing>)
    ensures OnTime(a + b) <==> OnTime(a) && OnTime(b)
  {
    assert forall f :: f in a ==> f in a + b;
    assert forall f :: f in b ==> f in a + b;
  }

  lemma OneTimerFires(ts: TimerState, e: Entry, at: Word, address: nat)
    requires ts.entries == [e] && e.recurring && (Rollover(ts.previous, at) || e.next <= at)
    ensures var c := Call(at, OpExpire(address));
            && StepLog(ts, c) == [FiringOf(e, at)]
            && Step(ts, c).entries == [Rearmed(e, at)] && Step(ts, c).previous == at
  {
    if !Rollover(ts.previous, at) {
      SplitAtDeadline([e], at, 1);
    }
    assert Taken(ts, at) == [e] && Kept(ts, at) == [];
    ListExpiredShape(ts, at, address);
    assert Insert([], Rearmed(e, at)) == [Rearmed(e, at)];
    assert Rearm([], [e], at) == Rearm([Rearmed(e, at)], [], at);
    assert Fired([e], at) == [FiringOf(e, at)];
  }

  // Without the clock condition the spacing fails: a clock set back by more than an hour makes
  // listExpiredCb fire a timer whose interval has not passed.
  lemma RolloverFiresEarly()
    ensures var calls := [Call(10_000_000, OpAdd(50_000, Some(UserCb(0)), true)),
                          Call(10_050_000, OpExpire(9)),
                          Call(1000, OpExpire(9))];
            RunLog(TimerState([], false, 10_000_000, 0), calls)
            == [Firing(0, 10_050_000, 50_000, true, 10_050_000), Firing(0, 1000, 50_000, true, 10_100_000)]
  {
    var t0 := TimerState([], false, 10_000_000, 0);
    var e0 := NewEntry(0, 50_000, Some(UserCb(0)), true, 10_000_000);
    var c0, c1 := Call(10_000_000, OpAdd(50_000, Some(UserCb(0)), true)), Call(10_050_000, OpExpire(9));
    var c2 := Call(1000, OpExpire(9));
    var t1 := Step(t0, c0);
    assert t1.entries == [e0] && t1.previous == 10_000_000;
    OneTimerFires(t1, e0, 10_050_000, 9);
    var t2 := Step(t1, c1);
    OneTimerFires(t2, Rearmed(e0, 10_050_000), 1000, 9);
    RunLogUnfold(t0, [c0, c1, c2], []);
    RunLogUnfold(t1, [c1, c2], []);
    RunLogUnfold(t2, [c2], []);
    assert [c0, c1, c2][1..] == [c1, c2] && [c1, c2][1..] == [c2] && [c2][1..] == [];
  }
}
