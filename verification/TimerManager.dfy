// Timer and TimerManager of Timer.cpp as the mutable objects they are. Every method is tied to
// the operation of module Timers on the abstract value View(). A clock reading is a parameter;
// onTimerInsertedAtFront becomes the out-parameter `front`, which the caller acts on.
module TimerObjects {
  import opened Common
  import T = Timers

  class Timer {
    const id: nat
    const recurring: bool
    const manager: TimerManager
    var ms: Word
    var next: Word
    var cb: Option<Callback>
    // The clock reading `next` was last computed from.
    ghost var armedAt: Word
    // Whether the timer was created with a callback.
    ghost const armed: bool

    constructor (id: nat, ms: Word, cb: Option<Callback>, recurring: bool, manager: TimerManager, now: Word)
      ensures this.id == id && this.recurring == recurring && this.manager == manager
      ensures this.armed == cb.Some?
      ensures ToEntry() == T.NewEntry(id, ms, cb, recurring, now)
      ensures T.Describes(ToEntry(), id, recurring, cb) && T.ArmedFrom(ToEntry(), now, ms)
    {
      this.id, this.recurring, this.manager := id, recurring, manager;
      this.ms, this.next, this.cb := ms, Add(now, ms), cb;
      this.armedAt, this.armed := now, cb.Some?;
    }

    ghost function ToEntry(): T.Entry
      reads this
    {
      T.Entry(id, next, ms, recurring, cb, armedAt)
    }

    method Cancel() returns (ok: bool)
      requires manager.Valid() && this in manager.all
      modifies this`cb, manager`timers, manager`entries
      ensures manager.Valid() && manager.all == old(manager.all)
      ensures manager.View() == T.Cancel(old(manager.View()), id).0
      ensures ok == T.Cancel(old(manager.View()), id).1 == old(cb).Some?
      ensures cb == None
    {
      if cb.None? {
        manager.InactiveEntry(this);
        return false;
      }
      Erase();
      cb := None;
      return true;
    }

    // m_timers.erase(m_timers.find(shared_from_this()))
    method Erase()
      requires manager.Owned() && this in manager.timers && this in manager.all
      modifies manager`timers, manager`entries
      ensures manager.Owned()
      ensures forall t :: t in manager.timers <==> t in old(manager.timers) && t != this
      ensures var es := old(manager.entries);
              var i := T.IndexOf(es, id);
              && i < |es| && es[i] == ToEntry() && manager.entries == T.EraseAt(es, i)
    {
      var i := manager.Find(this);
      manager.RemoveAt(i);
    }

    // The first half of refresh and reset: erase, then change the key.
    method Rekey(newMs: Word, start: Word)
      requires manager.Valid() && this in manager.all && cb.Some?
      modifies this`next, this`ms, this`armedAt, manager`timers, manager`entries
      ensures manager.ValidExcept([this])
      ensures forall t :: t in manager.timers <==> t in old(manager.timers) && t != this
      ensures var es := old(manager.entries);
              var i := T.IndexOf(es, id);
              && i < |es| && es[i] == old(ToEntry())
              && manager.entries == T.EraseAt(es, i)
              && ToEntry() == T.Restarted(es[i], start, newMs)
    {
      Erase();
      ms, next, armedAt := newMs, Add(start, newMs), start;
    }

    method Refresh(now: Word) returns (ok: bool)
      requires manager.Valid() && this in manager.all
      modifies this`next, this`ms, this`armedAt, manager`timers, manager`entries
      ensures manager.Valid() && manager.all == old(manager.all)
      ensures (manager.View(), ok) == T.Refresh(old(manager.View()), id, now)
    {
      if cb.None? {
        manager.InactiveEntry(this);
        return false;
      }
      Rekey(ms, now);
      var _ := manager.InsertTimer(this);
      return true;
    }

    // Erase, change interval and deadline, insert again.
    method Restart(newMs: Word, start: Word) returns (front: bool)
      requires manager.Valid() && this in manager.all && cb.Some?
      modifies this`next, this`ms, this`armedAt, manager`timers, manager`entries, manager`tickled
      ensures manager.Valid() && manager.all == old(manager.all)
      ensures var ts := old(manager.View());
              var i := T.IndexOf(ts.entries, id);
              && T.Active(ts, id) && ts.entries[i] == old(ToEntry())
              && var r := T.AddEntry(ts.(entries := T.EraseAt(ts.entries, i)),
                                     T.Restarted(old(ToEntry()), start, newMs));
                 manager.View() == r.0 && front == r.1
    {
      ghost var ts := manager.View();
      Rekey(newMs, start);
      assert manager.View() == ts.(entries := T.EraseAt(ts.entries, T.IndexOf(ts.entries, id)));
      front := manager.Reinsert(this);
    }

    method Reset(newMs: Word, fromNow: bool, now: Word) returns (ok: bool, front: bool)
      requires manager.Valid() && this in manager.all
      modifies this`next, this`ms, this`armedAt, manager`timers, manager`entries, manager`tickled
      ensures manager.Valid() && manager.all == old(manager.all)
      ensures (manager.View(), ok, front) == T.Reset(old(manager.View()), id, old(ms), newMs, fromNow, now)
    {
      if newMs == ms && !fromNow {
        return true, false;
      }
      if cb.None? {
        manager.InactiveEntry(this);
        return false, false;
      }
      var start := if fromNow then now else Sub(next, ms);
      front := Restart(newMs, start);
      ok := true;
    }
  }

  class TimerManager {
    var timers: seq<Timer>
    var tickled: bool
    var previous: Word
    var nextId: nat
    // The abstract value of `timers`, and every timer this manager ever created.
    ghost var entries: seq<T.Entry>
    ghost var all: set<Timer>
    ghost var ids: map<nat, Timer>

    constructor (now: Word)
      ensures Valid() && View() == T.TimerState([], false, now, 0) && all == {}
    {
      timers, tickled, previous, nextId := [], false, now, 0;
      entries, all, ids := [], {}, map[];
    }

    ghost function View(): T.TimerState
      reads this
    {
      T.TimerState(entries, tickled, previous, nextId)
    }

    ghost predicate Represents()
      reads this, timers
    {
      |entries| == |timers| && forall i :: 0 <= i < |timers| ==> entries[i] == timers[i].ToEntry()
    }

    // Strictly ordered by (deadline, address), one entry per timer, deadlines in step with
    // arming times.
    ghost predicate Owned()
      reads this, timers, all
    {
      && Represents()
      && T.Valid(View())
      && (forall t :: t in all ==> t.manager == this && t.id < nextId && t.id in ids && ids[t.id] == t)
      && (forall i :: 0 <= i < |timers| ==> timers[i] in all)
    }

    // A timer that still has its callback is in the set, and for timers created with a
    // callback the two are the same thing.
    ghost predicate Valid()
      reads this, timers, all
    {
      && Owned()
      && (forall t :: t in all && t.cb.Some? ==> t.armed && t in timers)
      && (forall t :: t in timers && t.armed ==> t.cb.Some?)
    }

    lemma InactiveEntry(t: Timer)
      requires Valid() && t in all && t.cb.None?
      ensures !T.Active(View(), t.id)
    {
    }

    // lower_bound by the comparator: the first timer not before the key (next, id).
    method LowerBound(next: Word, id: nat) returns (i: nat)
      requires Represents() && T.Sorted(entries)
      ensures i <= |timers|
      ensures forall e: T.Entry :: e.next == next && e.id == id ==> T.LowerBound(entries, e) == i
    {
      i := 0;
      while i < |timers| && (timers[i].next < next || (timers[i].next == next && timers[i].id < id))
        invariant i <= |timers|
        invariant forall j :: 0 <= j < i ==>
                    entries[j].next < next || (entries[j].next == next && entries[j].id < id)
      {
        i := i + 1;
      }
      forall e: T.Entry | e.next == next && e.id == id ensures T.LowerBound(entries, e) == i {
        T.LowerBoundUnique(entries, e, i);
      }
    }

    // m_timers.find(shared_from_this())
    method Find(t: Timer) returns (i: nat)
      requires Owned() && t in timers
      ensures i < |timers| && timers[i] == t && entries[i] == t.ToEntry()
      ensures i == T.IndexOf(entries, t.id) == T.LowerBound(entries, t.ToEntry())
    {
      i := LowerBound(t.next, t.id);
      ghost var k :| 0 <= k < |timers| && timers[k] == t;
      T.FindByKeyFindsTimer(entries, k);
    }

    method RemoveAt(i: nat)
      requires Owned() && i < |timers|
      modifies this`timers, this`entries
      ensures Owned() && entries == T.EraseAt(old(entries), i)
      ensures forall t :: t in timers <==> t in old(timers) && t != old(timers[i])
    {
      ErasedMembers(i);
      timers := timers[..i] + timers[i + 1..];
      entries := T.EraseAt(entries, i);
    }

    lemma ErasedMembers(i: nat)
      requires Owned() && i < |timers|
      ensures T.Valid(View().(entries := T.EraseAt(entries, i)))
      ensures var us := timers[..i] + timers[i + 1..];
              && (forall k :: 0 <= k < |us| ==> us[k] in all && us[k].ToEntry() == T.EraseAt(entries, i)[k])
              && forall t :: t in us <==> t in timers && t != timers[i]
    {
    }

    lemma InsertedValid(t: Timer)
      requires Owned() && t in all && t !in timers && t.next == Add(t.armedAt, t.ms)
      ensures T.Valid(View().(entries := T.Insert(entries, t.ToEntry())))
    {
      forall k | 0 <= k < |entries| ensures entries[k].id != t.id {
        assert timers[k] in all && timers[k] in timers;
      }
      T.InsertKeepsOrder(entries, t.ToEntry());
    }

    lemma InsertedMembers(t: Timer, i: nat)
      requires Owned() && t in all && i <= |timers|
      ensures var us := timers[..i] + [t] + timers[i..];
              var es := entries[..i] + [t.ToEntry()] + entries[i..];
              && (forall k :: 0 <= k < |us| ==> us[k] in all && es[k] == us[k].ToEntry())
              && (forall u :: u in us <==> u in timers || u == t)
    {
    }

    // m_timers.insert(t) of a timer the set does not hold.
    method InsertTimer(t: Timer) returns (i: nat)
      requires Owned() && t in all && t !in timers && t.next == Add(t.armedAt, t.ms)
      modifies this`timers, this`entries
      ensures Owned() && forall u :: u in timers <==> u in old(timers) || u == t
      ensures i == T.LowerBound(old(entries), t.ToEntry())
      ensures entries == T.Insert(old(entries), t.ToEntry())
    {
      i := LowerBound(t.next, t.id);
      InsertedValid(t);
      InsertedMembers(t, i);
      timers, entries := timers[..i] + [t] + timers[i..], T.Insert(entries, t.ToEntry());
    }

    // The private addTimer.
    method AddEntry(t: Timer) returns (front: bool)
      requires Owned() && t in all && t !in timers && t.next == Add(t.armedAt, t.ms)
      modifies this`timers, this`entries, this`tickled
      ensures Owned() && forall u :: u in timers <==> u in old(timers) || u == t
      ensures View() == T.AddEntry(old(View()), t.ToEntry()).0
      ensures front == T.AddEntry(old(View()), t.ToEntry()).1
    {
      var i := InsertTimer(t);
      front := i == 0 && !tickled;
      if front {
        tickled := true;
      }
    }

    // The same of a timer that is new, or has been taken out.
    method Reinsert(t: Timer) returns (front: bool)
      requires ValidExcept([t]) && t.next == Add(t.armedAt, t.ms)
      modifies this`timers, this`entries, this`tickled
      ensures Valid()
      ensures View() == T.AddEntry(old(View()), t.ToEntry()).0 && front == T.AddEntry(old(View()), t.ToEntry()).1
    {
      assert t in [t];
      front := AddEntry(t);
    }

    method AddTimer(ms: Word, cb: Option<Callback>, recurring: bool, now: Word) returns (t: Timer, front: bool)
      requires Valid()
      modifies this
      ensures Valid() && fresh(t) && all == old(all) + {t}
      ensures T.Describes(t.ToEntry(), old(nextId), recurring, cb) && T.ArmedFrom(t.ToEntry(), now, ms)
      ensures View() == T.AddTimer(old(View()), ms, cb, recurring, now).0
      ensures front == T.AddTimer(old(View()), ms, cb, recurring, now).1
    {
      t := new Timer(nextId, ms, cb, recurring, this, now);
      nextId := nextId + 1;
      all, ids := all + {t}, ids[t.id := t];
      front := Reinsert(t);
    }

    method GetNextTimer(now: Word) returns (wait: Word)
      requires Valid()
      modifies this`tickled
      ensures Valid()
      ensures (View(), wait) == T.NextTimer(old(View()), now)
    {
      tickled := false;
      if |timers| == 0 {
        return FOREVER;
      }
      if now >= timers[0].next {
        return 0;
      }
      return timers[0].next - now;
    }

    method DetectClockRollover(now: Word) returns (rollover: bool)
      modifies this`previous
      ensures rollover == T.Rollover(old(previous), now) && previous == now
    {
      rollover := now < previous && now < Sub(previous, T.ROLLOVER_MS);
      previous := now;
    }

    // What is left of Valid() while the expired timers wait for their turn.
    ghost predicate ValidExcept(waiting: seq<Timer>)
      reads this, timers, all
    {
      && Owned()
      && (forall t :: t in all && t.cb.Some? ==> t.armed && (t in timers || t in waiting))
      && (forall t :: t in timers && t.armed ==> t.cb.Some?)
      && (forall t :: t in waiting ==> t in all && t !in timers && (t.armed ==> t.cb.Some?))
    }

    lemma Distinct()
      requires Owned()
      ensures forall j, k :: 0 <= j < k < |timers| ==> timers[j] != timers[k]
    {
    }

    lemma SuffixValid(n: nat)
      requires Owned() && n <= |entries|
      ensures T.Valid(View().(entries := entries[n..]))
    {
    }

    // Copy the first n timers out, then m_timers.erase(begin, begin + n).
    method TakePrefix(n: nat) returns (expired: seq<Timer>)
      requires Valid() && n <= |timers|
      modifies this`timers, this`entries
      ensures ValidExcept(expired) && entries == old(entries)[n..] && |expired| == n
      ensures forall j :: 0 <= j < n ==> expired[j] in old(timers) && expired[j].ToEntry() == old(entries)[j]
      ensures forall j, k :: 0 <= j < k < n ==> expired[j] != expired[k]
    {
      Distinct();
      SuffixValid(n);
      expired := timers[..n];
      assert timers == expired + timers[n..];
      timers, entries := timers[n..], entries[n..];
    }

    // One round of the loop over the expired timers.
    method Fire(t: Timer, ghost waiting: seq<Timer>, ghost rest: seq<Timer>, now: Word) returns (cb: Option<Callback>)
      requires ValidExcept(waiting) && t in waiting && t !in rest
      requires forall u :: u in waiting <==> u == t || u in rest
      modifies t`next, t`armedAt, t`cb, this`timers, this`entries
      ensures ValidExcept(rest) && cb == old(t.cb)
      ensures entries == if t.recurring then T.Insert(old(entries), T.Rearmed(old(t.ToEntry()), now)) else old(entries)
    {
      cb := t.cb;
      if t.recurring {
        ghost var e := t.ToEntry();
        t.next, t.armedAt := Add(now, t.ms), now;
        assert t.ToEntry() == T.Rearmed(e, now);
        var _ := InsertTimer(t);
      } else {
        t.cb := None;
      }
    }

    // The iterator search of listExpiredCb: lower_bound of the sentinel, then past the equal
    // deadlines. `address` is where the sentinel happens to live.
    method CutPoint(rollover: bool, now: Word, address: nat) returns (n: nat)
      requires Owned()
      ensures n == T.Cut(entries, rollover, now, address) && n <= |timers|
    {
      if rollover {
        n := |timers|;
      } else {
        n := LowerBound(now, address);
      }
      ghost var from := n;
      while n < |timers| && timers[n].next == now
        invariant from <= n <= |timers|
        invariant T.SkipDue(entries, from, now) == T.SkipDue(entries, n, now)
      {
        n := n + 1;
      }
    }

    // expired[k..] are still to be fired, each as `es` says.
    ghost predicate Unfired(expired: seq<Timer>, es: seq<T.Entry>, k: nat)
      reads this, timers, all, expired
    {
      && k <= |expired| == |es| && ValidExcept(expired[k..])
      && (forall j :: k <= j < |expired| ==> expired[j].ToEntry() == es[j])
      && (forall i, j :: 0 <= i < j < |expired| ==> expired[i] != expired[j])
    }

    lemma HeadAndTail(ts: seq<Timer>, k: nat)
      requires k < |ts| && forall i, j :: 0 <= i < j < |ts| ==> ts[i] != ts[j]
      ensures forall t :: t in ts[k..] <==> t == ts[k] || t in ts[k + 1..]
      ensures ts[k] !in ts[k + 1..]
    {
      assert ts[k..] == [ts[k]] + ts[k + 1..];
    }

    method FireNext(t: Timer, ghost expired: seq<Timer>, ghost es: seq<T.Entry>, ghost k: nat, now: Word)
      returns (cb: Option<Callback>)
      requires Unfired(expired, es, k) && k < |expired| && t == expired[k]
      modifies t`next, t`armedAt, t`cb, this`timers, this`entries
      ensures Unfired(expired, es, k + 1) && cb == es[k].cb
      ensures T.Rearm(entries, es[k + 1..], now) == old(T.Rearm(entries, es[k..], now))
    {
      HeadAndTail(expired, k);
      T.RearmStep(entries, es, k, now);
      cb := Fire(t, expired[k..], expired[k + 1..], now);
    }

    method FireAll(expired: seq<Timer>, ghost es: seq<T.Entry>, now: Word) returns (cbs: seq<Option<Callback>>)
      requires Unfired(expired, es, 0)
      modifies this`timers, this`entries, expired
      ensures Valid()
      ensures entries == T.Rearm(old(entries), es, now) && cbs == T.Callbacks(es)
    {
      cbs := [];
      ghost var goal := T.Rearm(entries, es, now);
      var k := 0;
      while k < |expired|
        invariant Unfired(expired, es, k)
        invariant T.Rearm(entries, es[k..], now) == goal
        invariant |cbs| == k && forall j :: 0 <= j < k ==> cbs[j] == es[j].cb
      {
        var cb := FireNext(expired[k], expired, es, k, now);
        cbs := cbs + [cb];
        k := k + 1;
      }
    }

    // Erase the first n timers and fire them.
    method FireFirst(n: nat, now: Word) returns (cbs: seq<Option<Callback>>)
      requires Valid() && n <= |timers|
      modifies this`timers, this`entries, timers
      ensures Valid()
      ensures entries == T.Rearm(old(entries)[n..], old(entries)[..n], now) && cbs == T.Callbacks(old(entries)[..n])
    {
      ghost var es := entries[..n];
      var expired := TakePrefix(n);
      cbs := FireAll(expired, es, now);
    }

    method ListExpiredCb(now: Word, address: nat) returns (cbs: seq<Option<Callback>>)
      requires Valid()
      modifies this`timers, this`entries, this`previous, timers
      ensures Valid()
      ensures View() == T.ListExpired(old(View()), now, address).0
      ensures cbs == T.ListExpired(old(View()), now, address).1
    {
      if |timers| == 0 {
        return [];
      }
      var rollover := DetectClockRollover(now);
      if !rollover && timers[0].next > now {
        return [];
      }
      var n := CutPoint(rollover, now, address);
      cbs := FireFirst(n, now);
    }
  }
}
