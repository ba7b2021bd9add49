// Wake sources, counted. A token for fiber f stands for one thing that will resume f: a queued
// task, an fd-event slot, a sleep timer, or sleep's callback on its way. Every operation of the
// scheduler, the timers and the fd table moves tokens without making or losing any.
module WakeTokens {
  import opened Common
  import T = Timers
  import F = FdEvents
  import S = Scheduling
  import R = Runtime

  function CbTok(cb: Option<Callback>, f: nat): nat {
    if cb == Some(WakeFiber(f)) then 1 else 0
  }

  function WorkTok(w: Work, f: nat): nat {
    match w case FiberWork(g) => (if g == f then 1 else 0) case CbWork(cb) => CbTok(Some(cb), f)
  }

  function WorksTok(ws: seq<Work>, f: nat): nat {
    if ws == [] then 0 else WorkTok(ws[0], f) + WorksTok(ws[1..], f)
  }

  function TasksTok(ts: seq<Task>, f: nat): nat {
    if ts == [] then 0 else WorkTok(ts[0].work, f) + TasksTok(ts[1..], f)
  }

  function FdTok(c: F.FdContext, f: nat): nat {
    WorksTok(F.SlotWork(c.read), f) + WorksTok(F.SlotWork(c.write), f)
  }

  function FdsTok(fds: seq<F.FdContext>, f: nat): nat {
    if fds == [] then 0 else FdTok(fds[0], f) + FdsTok(fds[1..], f)
  }

  function TimersTok(es: seq<T.Entry>, f: nat): nat {
    if es == [] then 0 else CbTok(es[0].cb, f) + TimersTok(es[1..], f)
  }

  // ---------------------------------------------------------------- tasks

  lemma {:induction false} TasksTokAppend(a: seq<Task>, b: seq<Task>, f: nat)
    ensures TasksTok(a + b, f) == TasksTok(a, f) + TasksTok(b, f)
  {
    if a == [] {
      assert [] + b == b;
    } else {
      TasksTokAppend(a[1..], b, f);
      assert (a + b)[1..] == a[1..] + b;
    }
  }

  lemma TasksTokWithout(ts: seq<Task>, i: nat, f: nat)
    requires i < |ts|
    ensures TasksTok(ts, f) == TasksTok(S.Without(ts, i), f) + WorkTok(ts[i].work, f)
  {
    var before, t, after := ts[..i], [ts[i]], ts[i + 1..];
    assert ts == before + (t + after);
    TasksTokAppend(before, t + after, f);
    TasksTokAppend(t, after, f);
    TasksTokAppend(before, after, f);
    assert t[1..] == [];
    assert TasksTok(t, f) == WorkTok(ts[i].work, f);
  }

  lemma {:induction false} TasksOfTok(ws: seq<Work>, f: nat)
    ensures TasksTok(R.TasksOf(ws), f) == WorksTok(ws, f)
  {
    if ws != [] {
      TasksOfTok(ws[1..], f);
      assert R.TasksOf(ws)[1..] == R.TasksOf(ws[1..]);
    }
  }

  lemma {:induction false} BatchTok(es: seq<T.Entry>, f: nat)
    ensures TasksTok(S.BatchTasks(T.Callbacks(es)), f) == TimersTok(es, f)
  {
    if es != [] {
      BatchTok(es[1..], f);
      assert T.Callbacks(es)[1..] == T.Callbacks(es[1..]);
      var head := if es[0].cb.Some? then [Task(CbWork(es[0].cb.value), ANY_THREAD)] else [];
      assert S.BatchTasks(T.Callbacks(es)) == head + S.BatchTasks(T.Callbacks(es[1..]));
      TasksTokAppend(head, S.BatchTasks(T.Callbacks(es[1..])), f);
      if head != [] { assert head[1..] == []; }
    }
  }

  // ---------------------------------------------------------------- fd events

  lemma {:induction false} FdsTokUpdate(fds: seq<F.FdContext>, i: nat, c: F.FdContext, f: nat)
    requires i < |fds|
    ensures FdsTok(fds[i := c], f) + FdTok(fds[i], f) == FdsTok(fds, f) + FdTok(c, f)
  {
    if i > 0 {
      FdsTokUpdate(fds[1..], i - 1, c, f);
      assert fds[i := c][1..] == fds[1..][i - 1 := c];
    } else {
      assert fds[0 := c][1..] == fds[1..];
    }
  }

  lemma {:induction false} FdsTokUnused(fds: seq<F.FdContext>, n: nat, f: nat)
    ensures FdsTok(fds + seq(n, _ => F.UNUSED), f) == FdsTok(fds, f)
  {
    if fds != [] {
      FdsTokUnused(fds[1..], n, f);
      assert (fds + seq(n, _ => F.UNUSED))[1..] == fds[1..] + seq(n, _ => F.UNUSED);
    } else if n > 0 {
      FdsTokUnused([], n - 1, f);
      assert (fds + seq(n, _ => F.UNUSED))[1..] == [] + seq(n - 1, _ => F.UNUSED);
      assert (fds + seq(n, _ => F.UNUSED))[0] == F.UNUSED;
    } else {
      assert fds + seq(n, _ => F.UNUSED) == [];
    }
  }

  lemma GrownTok(st: F.IoState, fd: nat, f: nat)
    requires F.Coherent(st)
    ensures FdsTok(F.Grown(st.fds, fd), f) == FdsTok(st.fds, f)
  {
    if |st.fds| <= fd {
      FdsTokUnused(st.fds, fd * 3 / 2 - |st.fds|, f);
    }
  }

  lemma RegisteredTok(c: F.FdContext, ev: Event, work: Work, f: nat)
    requires F.SlotsMatch(c) && ev !in c.events
    ensures FdTok(F.Registered(c, ev, work), f) == FdTok(c, f) + WorkTok(work, f)
  {
    assert c.Get(ev) == F.EMPTY;
    assert F.SlotWork(F.SlotFor(work)) == [work] && [work][1..] == [];
    assert WorksTok([work], f) == WorkTok(work, f);
  }

  // addEvent puts one token of the work into the slot.
  lemma AddEventTokens(st: F.IoState, fd: nat, ev: Event, work: Work, granted: bool, f: nat)
    requires F.Coherent(st) && F.AddEvent(st, fd, ev, work, granted).Done?
    ensures var r := F.AddEvent(st, fd, ev, work, granted);
            FdsTok(r.st.fds, f) == FdsTok(st.fds, f) + if r.ok then WorkTok(work, f) else 0
  {
    F.AddEventCoherent(st, fd, ev, work, granted);
    F.GrownCoherent(st, fd);
    GrownTok(st, fd, f);
    var fds := F.Grown(st.fds, fd);
    if granted {
      RegisteredTok(fds[fd], ev, work, f);
      FdsTokUpdate(fds, fd, F.Registered(fds[fd], ev, work), f);
    }
  }

  lemma WorksTokConcat(a: seq<Work>, b: seq<Work>, f: nat)
    requires |a| <= 1
    ensures WorksTok(a + b, f) == WorksTok(a, f) + WorksTok(b, f)
  {
    if a == [] {
      assert a + b == b;
    } else {
      assert (a + b)[1..] == b && a[1..] == [];
    }
  }

  lemma WorkOfTok(c: F.FdContext, c': F.FdContext, gone: set<Event>, f: nat)
    requires forall ev: Event :: c'.Get(ev) == if ev in gone then F.EMPTY else c.Get(ev)
    ensures FdTok(c', f) + WorksTok(F.WorkOf(c, gone), f) == FdTok(c, f)
  {
    assert c'.Get(Read) == if Read in gone then F.EMPTY else c.Get(Read);
    assert c'.Get(Write) == if Write in gone then F.EMPTY else c.Get(Write);
    WorksTokConcat(if Read in gone then F.SlotWork(c.read) else [],
                   if Write in gone then F.SlotWork(c.write) else [], f);
  }

  // When events leave an fd, the tokens of their slots are the tokens of the work handed out.
  lemma RemovedTokens(st: F.IoState, st': F.IoState, fd: nat, gone: set<Event>, f: nat)
    requires F.Removed(st, st', fd, gone)
    ensures FdsTok(st'.fds, f) + WorksTok(F.WorkOf(st.fds[fd], gone), f) == FdsTok(st.fds, f)
  {
    assert st'.fds == st.fds[fd := st'.fds[fd]];
    FdsTokUpdate(st.fds, fd, st'.fds[fd], f);
    WorkOfTok(st.fds[fd], st'.fds[fd], gone, f);
  }

  // cancelEvent, cancelAll and the ready-event loop move tokens from slots to work.
  lemma CancelEventTokens(st: F.IoState, fd: nat, ev: Event, granted: bool, f: nat)
    requires F.Coherent(st)
    ensures var r := F.CancelEvent(st, fd, ev, granted);
            r.Done? && FdsTok(r.st.fds, f) + WorksTok(r.works, f) == FdsTok(st.fds, f)
  {
    F.CancelEventCoherent(st, fd, ev, granted);
    var r := F.CancelEvent(st, fd, ev, granted);
    if r.ok {
      RemovedTokens(st, r.st, fd, {ev}, f);
      F.SingleWork(st.fds[fd], ev);
    }
  }

  lemma CancelAllTokens(st: F.IoState, fd: nat, f: nat)
    requires F.Coherent(st)
    ensures var r := F.CancelAll(st, fd);
            r.Done? && FdsTok(r.st.fds, f) + WorksTok(r.works, f) == FdsTok(st.fds, f)
  {
    F.CancelAllCoherent(st, fd);
    var r := F.CancelAll(st, fd);
    if r.ok {
      RemovedTokens(st, r.st, fd, st.fds[fd].events, f);
    }
  }

  lemma HandleReportTokens(st: F.IoState, fd: nat, report: set<F.KernelEvent>, granted: bool, f: nat)
    requires F.Coherent(st) && F.Reportable(st, fd, report)
    ensures var r := F.HandleReport(st, fd, report, granted);
            r.Done? && FdsTok(r.st.fds, f) + WorksTok(r.works, f) == FdsTok(st.fds, f)
  {
    F.HandleReportCoherent(st, fd, report, granted);
    var r := F.HandleReport(st, fd, report, granted);
    if r.ok {
      RemovedTokens(st, r.st, fd, F.RealEvents(st.fds[fd].events, report), f);
    }
  }

  // delEvent is the exception: the slot's token is dropped.
  lemma DelEventTokens(st: F.IoState, fd: nat, ev: Event, granted: bool, f: nat)
    requires F.Coherent(st)
    ensures var r := F.DelEvent(st, fd, ev, granted);
            && r.Done?
            && FdsTok(st.fds, f)
               == FdsTok(r.st.fds, f) + if r.ok then WorksTok(F.SlotWork(st.fds[fd].Get(ev)), f) else 0
  {
    F.DelEventCoherent(st, fd, ev, granted);
    var r := F.DelEvent(st, fd, ev, granted);
    if r.ok {
      RemovedTokens(st, r.st, fd, {ev}, f);
      F.SingleWork(st.fds[fd], ev);
    }
  }

  // ---------------------------------------------------------------- timers

  lemma {:induction false} TimersTokAppend(a: seq<T.Entry>, b: seq<T.Entry>, f: nat)
    ensures TimersTok(a + b, f) == TimersTok(a, f) + TimersTok(b, f)
  {
    if a == [] {
      assert [] + b == b;
    } else {
      TimersTokAppend(a[1..], b, f);
      assert (a + b)[1..] == a[1..] + b;
    }
  }

  lemma SingleTimer(e: T.Entry, f: nat)
    ensures TimersTok([e], f) == CbTok(e.cb, f)
  {
  }

  lemma InsertTok(s: seq<T.Entry>, e: T.Entry, f: nat)
    ensures TimersTok(T.Insert(s, e), f) == TimersTok(s, f) + CbTok(e.cb, f)
  {
    var i := T.LowerBound(s, e);
    assert s == s[..i] + s[i..] && s[..i] + [e] + s[i..] == s[..i] + ([e] + s[i..]);
    TimersTokAppend(s[..i], s[i..], f);
    TimersTokAppend(s[..i], [e] + s[i..], f);
    TimersTokAppend([e], s[i..], f);
    SingleTimer(e, f);
  }

  lemma EraseTok(s: seq<T.Entry>, i: nat, f: nat)
    requires i < |s|
    ensures TimersTok(s, f) == TimersTok(T.EraseAt(s, i), f) + CbTok(s[i].cb, f)
  {
    assert s == s[..i] + ([s[i]] + s[i + 1..]);
    TimersTokAppend(s[..i], [s[i]] + s[i + 1..], f);
    TimersTokAppend([s[i]], s[i + 1..], f);
    TimersTokAppend(s[..i], s[i + 1..], f);
    SingleTimer(s[i], f);
  }

  lemma AddTimerTokens(ts: T.TimerState, ms: Word, cb: Option<Callback>, recurring: bool, now: Word, f: nat)
    ensures TimersTok(T.AddTimer(ts, ms, cb, recurring, now).0.entries, f) == TimersTok(ts.entries, f) + CbTok(cb, f)
  {
    InsertTok(ts.entries, T.NewEntry(ts.nextId, ms, cb, recurring, now), f);
  }

  ghost predicate NotSleep(ts: T.TimerState, id: nat, f: nat) {
    var i := T.IndexOf(ts.entries, id);
    i < |ts.entries| ==> CbTok(ts.entries[i].cb, f) == 0
  }

  lemma TimerCallTokens(ts: T.TimerState, id: nat, oldMs: Word, ms: Word, fromNow: bool, now: Word, f: nat)
    requires NotSleep(ts, id, f)
    ensures TimersTok(T.Cancel(ts, id).0.entries, f) == TimersTok(ts.entries, f)
    ensures TimersTok(T.Refresh(ts, id, now).0.entries, f) == TimersTok(ts.entries, f)
    ensures TimersTok(T.Reset(ts, id, oldMs, ms, fromNow, now).0.entries, f) == TimersTok(ts.entries, f)
  {
    if T.Active(ts, id) {
      var i := T.IndexOf(ts.entries, id);
      var e := ts.entries[i];
      EraseTok(ts.entries, i, f);
      InsertTok(T.EraseAt(ts.entries, i), T.Rearmed(e, now), f);
      InsertTok(T.EraseAt(ts.entries, i), T.Restarted(e, if fromNow then now else Sub(e.next, e.ms), ms), f);
    }
  }

  // Sleep timers are one-shot, so re-arming never duplicates a token.
  ghost predicate WakesOneShot(es: seq<T.Entry>, f: nat) {
    forall e :: e in es && e.recurring ==> CbTok(e.cb, f) == 0
  }

  lemma {:induction false} RearmTok(s: seq<T.Entry>, expired: seq<T.Entry>, now: Word, f: nat)
    requires WakesOneShot(expired, f)
    ensures TimersTok(T.Rearm(s, expired, now), f) == TimersTok(s, f)
    decreases |expired|
  {
    if expired != [] {
      var e := expired[0];
      if e.recurring {
        InsertTok(s, T.Rearmed(e, now), f);
      }
      RearmTok(if e.recurring then T.Insert(s, T.Rearmed(e, now)) else s, expired[1..], now, f);
    }
  }

  // listExpiredCb moves the tokens of the timers it takes to the callbacks it returns.
  lemma ListExpiredTokens(ts: T.TimerState, now: Word, address: nat, f: nat)
    requires T.Valid(ts) && WakesOneShot(ts.entries, f)
    ensures var r := T.ListExpired(ts, now, address);
            TimersTok(r.0.entries, f) + TasksTok(S.BatchTasks(r.1), f) == TimersTok(ts.entries, f)
  {
    T.ListExpiredShape(ts, now, address);
    T.TakenMembers(ts, now);
    TimersTokAppend(T.Taken(ts, now), T.Kept(ts, now), f);
    RearmTok(T.Kept(ts, now), T.Taken(ts, now), now, f);
    BatchTok(T.Taken(ts, now), f);
  }
}
