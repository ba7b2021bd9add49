// The timer set of Timer.cpp as values: what each operation does to the ordered set,
// the tickled flag and the last clock reading.
module Timers {
  import opened Common

  // One armed timer. `id` stands for the address std::set breaks ties with, `armedAt` is
  // the clock reading the deadline was last computed from.
  datatype Entry = Entry(id: nat, next: Word, ms: Word, recurring: bool,
                         cb: Option<Callback>, armedAt: Word)

  datatype TimerState = TimerState(entries: seq<Entry>, tickled: bool, previous: Word, nextId: nat)

  const ROLLOVER_MS: Word := 3600000

  // Timer::Comparator, null pointers included.
  predicate Less(lhs: Option<Entry>, rhs: Option<Entry>) {
    if lhs.None? && rhs.None? then false
    else if lhs.None? then true
    else if rhs.None? then false
    else Before(lhs.value, rhs.value)
  }

  predicate Before(a: Entry, b: Entry) {
    if a.next < b.next then true
    else if b.next < a.next then false
    else a.id < b.id
  }

  // What std::set needs of its comparator: a strict order in which only identical (deadline, address)
  // keys are equivalent. Null comes first, then the earlier deadline, then the lower address.
  lemma ComparatorIsStrictTotalOrder(a: Option<Entry>, b: Option<Entry>, c: Option<Entry>)
    ensures !Less(a, a)
    ensures Less(a, b) && Less(b, c) ==> Less(a, c)
    ensures Less(a, b) <==>
            b.Some? && (a.None? || a.value.next < b.value.next
                        || (a.value.next == b.value.next && a.value.id < b.value.id))
    ensures !Less(a, b) && !Less(b, a) <==>
            (a.None? && b.None?) || (a.Some? && b.Some? && a.value.next == b.value.next && a.value.id == b.value.id)
  {
  }

  ghost predicate Sorted(s: seq<Entry>) {
    forall i, j :: 0 <= i < j < |s| ==> Before(s[i], s[j])
  }

  ghost predicate UniqueIds(s: seq<Entry>) {
    forall i, j :: 0 <= i < j < |s| ==> s[i].id != s[j].id
  }

  ghost predicate Fresh(s: seq<Entry>, id: nat) {
    forall i :: 0 <= i < |s| ==> s[i].id != id
  }

  ghost predicate Valid(ts: TimerState) {
    && Sorted(ts.entries)
    && UniqueIds(ts.entries)
    && forall e :: e in ts.entries ==> e.id < ts.nextId && e.next == Add(e.armedAt, e.ms)
  }

  // ---------------------------------------------------------------- the ordered set

  // std::set::lower_bound
  function LowerBound(s: seq<Entry>, key: Entry): (i: nat)
    ensures i <= |s|
    ensures forall j :: 0 <= j < i ==> Before(s[j], key)
    ensures i < |s| ==> !Before(s[i], key)
  {
    if s == [] || !Before(s[0], key) then 0 else 1 + LowerBound(s[1..], key)
  }

  lemma LowerBoundUnique(s: seq<Entry>, key: Entry, i: nat)
    requires Sorted(s) && i <= |s|
    requires forall j :: 0 <= j < i ==> Before(s[j], key)
    requires i < |s| ==> !Before(s[i], key)
    ensures LowerBound(s, key) == i
  {
  }

  function IndexOf(s: seq<Entry>, id: nat): (i: nat)
    ensures i <= |s|
    ensures forall j :: 0 <= j < i ==> s[j].id != id
    ensures i < |s| ==> s[i].id == id
  {
    if s == [] || s[0].id == id then 0 else 1 + IndexOf(s[1..], id)
  }

  // std::set::insert of a key the set does not hold.
  function Insert(s: seq<Entry>, e: Entry): seq<Entry> {
    var i := LowerBound(s, e);
    s[..i] + [e] + s[i..]
  }

  function EraseAt(s: seq<Entry>, i: nat): seq<Entry>
    requires i < |s|
  {
    s[..i] + s[i + 1..]
  }

  lemma InsertMembers(s: seq<Entry>, e: Entry)
    ensures multiset(Insert(s, e)) == multiset(s) + multiset{e}
    ensures forall x :: x in Insert(s, e) <==> x == e || x in s
  {
    var i := LowerBound(s, e);
    assert s == s[..i] + s[i..];
    forall x ensures x in Insert(s, e) <==> x == e || x in s {
      assert x in s <==> x in s[..i] || x in s[i..];
    }
  }

  lemma InsertSorted(s: seq<Entry>, e: Entry)
    requires Sorted(s) && Fresh(s, e.id)
    ensures Sorted(Insert(s, e))
  {
  }

  lemma InsertUnique(s: seq<Entry>, e: Entry)
    requires UniqueIds(s) && Fresh(s, e.id)
    ensures UniqueIds(Insert(s, e))
  {
  }

  lemma InsertKeepsOrder(s: seq<Entry>, e: Entry)
    requires Sorted(s) && UniqueIds(s) && Fresh(s, e.id)
    ensures Sorted(Insert(s, e)) && UniqueIds(Insert(s, e))
    ensures multiset(Insert(s, e)) == multiset(s) + multiset{e}
    ensures forall x :: x in Insert(s, e) <==> x == e || x in s
  {
    InsertSorted(s, e);
    InsertUnique(s, e);
    InsertMembers(s, e);
  }

  lemma EraseKeepsOrder(s: seq<Entry>, i: nat)
    requires Sorted(s) && UniqueIds(s) && i < |s|
    ensures Sorted(EraseAt(s, i)) && UniqueIds(EraseAt(s, i))
    ensures Fresh(EraseAt(s, i), s[i].id)
  {
  }

  lemma EraseMembers(s: seq<Entry>, i: nat)
    requires UniqueIds(s) && i < |s|
    ensures multiset(EraseAt(s, i)) == multiset(s) - multiset{s[i]}
    ensures forall x :: x in EraseAt(s, i) <==> x in s && x.id != s[i].id
  {
    var t := EraseAt(s, i);
    assert s == s[..i] + [s[i]] + s[i + 1..];
    forall x ensures x in t <==> x in s && x.id != s[i].id {
      assert x in s <==> x in s[..i] || x == s[i] || x in s[i + 1..];
      if x in s[..i] {
        var k :| 0 <= k < i && s[k] == x;
      }
      if x in s[i + 1..] {
        var k :| i < k < |s| && s[k] == x;
      }
    }
  }

  // find() by key reaches exactly the timer it was asked for, as long as keys in the set
  // are never changed in place.
  lemma FindByKeyFindsTimer(s: seq<Entry>, i: nat)
    requires Sorted(s) && UniqueIds(s) && i < |s|
    ensures LowerBound(s, s[i]) == i
    ensures IndexOf(s, s[i].id) == i
  {
  }

  // ---------------------------------------------------------------- the operations

  // The private addTimer: insert, and claim the wake-up when the new timer is first and no
  // wake-up is outstanding. The flag returned is at_front.
  function AddEntry(ts: TimerState, e: Entry): (TimerState, bool) {
    var front := LowerBound(ts.entries, e) == 0 && !ts.tickled;
    (ts.(entries := Insert(ts.entries, e), tickled := ts.tickled || front), front)
  }

  function NewEntry(id: nat, ms: Word, cb: Option<Callback>, recurring: bool, now: Word): Entry {
    Entry(id, Add(now, ms), ms, recurring, cb, now)
  }

  // The public addTimer; the new timer gets the id ts.nextId.
  function AddTimer(ts: TimerState, ms: Word, cb: Option<Callback>, recurring: bool, now: Word): (TimerState, bool) {
    AddEntry(ts.(nextId := ts.nextId + 1), NewEntry(ts.nextId, ms, cb, recurring, now))
  }

  predicate Active(ts: TimerState, id: nat) {
    var i := IndexOf(ts.entries, id);
    i < |ts.entries| && ts.entries[i].cb.Some?
  }

  function Cancel(ts: TimerState, id: nat): (TimerState, bool) {
    if Active(ts, id)
    then (ts.(entries := EraseAt(ts.entries, IndexOf(ts.entries, id))), true)
    else (ts, false)
  }

  function Restarted(e: Entry, start: Word, ms: Word): Entry {
    e.(ms := ms, next := Add(start, ms), armedAt := start)
  }

  function Rearmed(e: Entry, now: Word): Entry {
    Restarted(e, now, e.ms)
  }

  // refresh() re-inserts without looking at the front.
  function Refresh(ts: TimerState, id: nat, now: Word): (TimerState, bool) {
    if !Active(ts, id) then (ts, false) else
    var i := IndexOf(ts.entries, id);
    (ts.(entries := Insert(EraseAt(ts.entries, i), Rearmed(ts.entries[i], now))), true)
  }

  // reset() of the timer `id` whose interval is currently `oldMs`: (state, result, at_front).
  function Reset(ts: TimerState, id: nat, oldMs: Word, ms: Word, fromNow: bool, now: Word): (TimerState, bool, bool) {
    if ms == oldMs && !fromNow then (ts, true, false)
    else if !Active(ts, id) then (ts, false, false) else
    var i := IndexOf(ts.entries, id);
    var e := ts.entries[i];
    var start := if fromNow then now else Sub(e.next, e.ms);
    var r := AddEntry(ts.(entries := EraseAt(ts.entries, i)), Restarted(e, start, ms));
    (r.0, true, r.1)
  }

  // getNextTimer: clears the flag and reports the time to the first deadline.
  function NextTimer(ts: TimerState, now: Word): (TimerState, Word) {
    (ts.(tickled := false),
     if ts.entries == [] then FOREVER
     else if now >= ts.entries[0].next then 0
     else ts.entries[0].next - now)
  }

  // detectClockRollover, with the subtraction in unsigned arithmetic as written.
  predicate Rollover(previous: Word, now: Word) {
    now < previous && now < Sub(previous, ROLLOVER_MS)
  }

  // The wrapped threshold makes every backward step a rollover while the previous reading is
  // below one hour; from one hour on only steps of more than an hour count.
  lemma RolloverExactly(previous: Word, now: Word)
    ensures Rollover(previous, now) <==>
            if previous < 3_600_000 then now < previous else now + 3_600_000 < previous
  {
  }

  // The loop after lower_bound: step over timers due exactly now.
  function SkipDue(s: seq<Entry>, i: nat, now: Word): (j: nat)
    requires i <= |s|
    ensures i <= j <= |s|
    ensures forall k :: i <= k < j ==> s[k].next == now
    ensures j < |s| ==> s[j].next != now
    decreases |s| - i
  {
    if i < |s| && s[i].next == now then SkipDue(s, i + 1, now) else i
  }

  function Sentinel(now: Word, id: nat): Entry {
    Entry(id, now, 0, false, None, now)
  }

  // How many entries listExpiredCb takes off the front; `address` is the sentinel's address.
  function Cut(s: seq<Entry>, rollover: bool, now: Word, address: nat): (n: nat)
    ensures n <= |s|
  {
    SkipDue(s, if rollover then |s| else LowerBound(s, Sentinel(now, address)), now)
  }

  function Callbacks(s: seq<Entry>): (cbs: seq<Option<Callback>>)
    ensures |cbs| == |s|
    ensures forall i :: 0 <= i < |s| ==> cbs[i] == s[i].cb
  {
    if s == [] then [] else [s[0].cb] + Callbacks(s[1..])
  }

  function Rearm(s: seq<Entry>, expired: seq<Entry>, now: Word): seq<Entry>
    decreases |expired|
  {
    if expired == [] then s
    else Rearm(if expired[0].recurring then Insert(s, Rearmed(expired[0], now)) else s, expired[1..], now)
  }

  lemma RearmStep(s: seq<Entry>, expired: seq<Entry>, k: nat, now: Word)
    requires k < |expired|
    ensures Rearm(s, expired[k..], now)
         == Rearm(if expired[k].recurring then Insert(s, Rearmed(expired[k], now)) else s, expired[k + 1..], now)
  {
  }

  // listExpiredCb at the clock reading `now`.
  function ListExpired(ts: TimerState, now: Word, address: nat): (TimerState, seq<Option<Callback>>) {
    var s := ts.entries;
    if s == [] then (ts, [])
    else
      var rollover := Rollover(ts.previous, now);
      if !rollover && s[0].next > now then (ts.(previous := now), [])
      else
        var n := Cut(s, rollover, now, address);
        (ts.(previous := now, entries := Rearm(s[n..], s[..n], now)), Callbacks(s[..n]))
  }

  // ---------------------------------------------------------------- what they promise

  // The reference reading of listExpiredCb: the timers whose deadline has come, in set order.
  function Due(s: seq<Entry>, now: Word): seq<Entry> {
    if s == [] then [] else (if s[0].next <= now then [s[0]] else []) + Due(s[1..], now)
  }

  function Later(s: seq<Entry>, now: Word): seq<Entry> {
    if s == [] then [] else (if s[0].next <= now then [] else [s[0]]) + Later(s[1..], now)
  }

  function RearmedOf(expired: seq<Entry>, now: Word): seq<Entry> {
    if expired == [] then []
    else (if expired[0].recurring then [Rearmed(expired[0], now)] else []) + RearmedOf(expired[1..], now)
  }

  ghost function Taken(ts: TimerState, now: Word): seq<Entry> {
    if Rollover(ts.previous, now) then ts.entries else Due(ts.entries, now)
  }

  ghost function Kept(ts: TimerState, now: Word): seq<Entry> {
    if Rollover(ts.previous, now) then [] else Later(ts.entries, now)
  }

  lemma {:induction false} SplitAtDeadline(s: seq<Entry>, now: Word, n: nat)
    requires n <= |s|
    requires forall i :: 0 <= i < n ==> s[i].next <= now
    requires forall i :: n <= i < |s| ==> s[i].next > now
    ensures Due(s, now) == s[..n] && Later(s, now) == s[n..]
  {
    if s == [] {
    } else if n == 0 {
      SplitAtDeadline(s[1..], now, 0);
      assert s == [s[0]] + s[1..];
    } else {
      SplitAtDeadline(s[1..], now, n - 1);
      assert s[1..][..n - 1] == s[1..n] && s[..n] == [s[0]] + s[1..n];
      assert s[1..][n - 1..] == s[n..];
    }
  }

  // Wherever the sentinel's address falls among equal deadlines, the cut is the same.
  lemma CutIsDeadline(s: seq<Entry>, now: Word, address: nat)
    requires Sorted(s)
    ensures s[..Cut(s, false, now, address)] == Due(s, now)
    ensures s[Cut(s, false, now, address)..] == Later(s, now)
  {
    var key := Sentinel(now, address);
    var l := LowerBound(s, key);
    var n := Cut(s, false, now, address);
    forall i | n <= i < |s| ensures s[i].next > now {
      assert !Before(s[l], key);
      assert s[n].next > now by {
        if l < n { assert Before(s[l], s[n]); }
      }
      if n < i { assert Before(s[n], s[i]); }
    }
    SplitAtDeadline(s, now, n);
  }

  lemma InsertKeepsFresh(s: seq<Entry>, e: Entry, id: nat)
    requires Fresh(s, id) && e.id != id
    ensures Fresh(Insert(s, e), id)
  {
  }

  lemma {:induction false} RearmKeepsOrder(s: seq<Entry>, expired: seq<Entry>, now: Word)
    requires Sorted(s) && UniqueIds(s) && UniqueIds(expired)
    requires forall i :: 0 <= i < |expired| ==> Fresh(s, expired[i].id)
    ensures Sorted(Rearm(s, expired, now)) && UniqueIds(Rearm(s, expired, now))
    ensures multiset(Rearm(s, expired, now)) == multiset(s) + multiset(RearmedOf(expired, now))
    decreases |expired|
  {
    if expired == [] {
    } else {
      var rest := expired[1..];
      var t := s;
      if expired[0].recurring {
        t := Insert(s, Rearmed(expired[0], now));
        InsertKeepsOrder(s, Rearmed(expired[0], now));
        forall i | 0 <= i < |rest| ensures Fresh(t, rest[i].id) {
          InsertKeepsFresh(s, Rearmed(expired[0], now), expired[i + 1].id);
        }
      }
      RearmKeepsOrder(t, rest, now);
    }
  }

  lemma {:induction false} RearmedFrom(expired: seq<Entry>, now: Word)
    ensures forall x :: x in RearmedOf(expired, now) <==>
            exists e :: e in expired && e.recurring && x == Rearmed(e, now)
  {
    if expired == [] {
    } else {
      RearmedFrom(expired[1..], now);
      forall x ensures x in RearmedOf(expired, now) <==>
                       exists e :: e in expired && e.recurring && x == Rearmed(e, now) {
        if exists e :: e in expired && e.recurring && x == Rearmed(e, now) {
          var e :| e in expired && e.recurring && x == Rearmed(e, now);
          assert e == expired[0] || e in expired[1..];
        }
      }
    }
  }

  lemma {:induction false} DuePointwise(s: seq<Entry>, now: Word)
    ensures forall e :: e in Due(s, now) <==> e in s && e.next <= now
    ensures forall e :: e in Later(s, now) <==> e in s && e.next > now
  {
    if s == [] {
    } else {
      DuePointwise(s[1..], now);
      assert s == [s[0]] + s[1..];
    }
  }

  lemma NothingDue(s: seq<Entry>, now: Word)
    requires Sorted(s) && (s != [] ==> s[0].next > now)
    ensures Due(s, now) == [] && Later(s, now) == s
  {
  }

  // Both early returns and the sentinel search come to the same: take what is due, keep the rest.
  lemma ListExpiredShape(ts: TimerState, now: Word, address: nat)
    requires Sorted(ts.entries)
    ensures ts.entries == Taken(ts, now) + Kept(ts, now)
    ensures ListExpired(ts, now, address)
         == (ts.(previous := if ts.entries == [] then ts.previous else now,
                 entries := Rearm(Kept(ts, now), Taken(ts, now), now)),
             Callbacks(Taken(ts, now)))
  {
    var s := ts.entries;
    if Rollover(ts.previous, now) {
      assert s[..|s|] == s && s[|s|..] == [];
    } else if s == [] || s[0].next > now {
      NothingDue(s, now);
    } else {
      CutIsDeadline(s, now, address);
    }
  }

  lemma TakenMembers(ts: TimerState, now: Word)
    ensures forall e :: e in Taken(ts, now) <==> e in ts.entries && (Rollover(ts.previous, now) || e.next <= now)
    ensures forall e :: e in Kept(ts, now) <==> e in ts.entries && !Rollover(ts.previous, now) && e.next > now
  {
    DuePointwise(ts.entries, now);
  }

  lemma PartitionOrdered(s: seq<Entry>, a: seq<Entry>, b: seq<Entry>)
    requires Sorted(s) && UniqueIds(s) && s == a + b
    ensures Sorted(b) && UniqueIds(b) && UniqueIds(a)
    ensures forall i :: 0 <= i < |a| ==> Fresh(b, a[i].id)
  {
    assert forall i :: 0 <= i < |a| ==> a[i] == s[i];
    assert forall k :: 0 <= k < |b| ==> b[k] == s[|a| + k];
  }

  // listExpiredCb takes exactly the due timers (all of them after a rollover), returns their
  // callbacks in (deadline, address) order, keeps the rest and the re-armed recurring ones;
  // the sentinel's address never shows.
  lemma ListExpiredExactly(ts: TimerState, now: Word, address: nat)
    requires Sorted(ts.entries) && UniqueIds(ts.entries)
    ensures var r := ListExpired(ts, now, address);
            && Sorted(r.0.entries) && UniqueIds(r.0.entries)
            && r.1 == Callbacks(Taken(ts, now))
            && multiset(r.0.entries) == multiset(Kept(ts, now)) + multiset(RearmedOf(Taken(ts, now), now))
            && r.0.nextId == ts.nextId && r.0.tickled == ts.tickled
  {
    ListExpiredShape(ts, now, address);
    PartitionOrdered(ts.entries, Taken(ts, now), Kept(ts, now));
    RearmKeepsOrder(Kept(ts, now), Taken(ts, now), now);
  }

  lemma ListExpiredMembers(ts: TimerState, now: Word, address: nat)
    requires Sorted(ts.entries) && UniqueIds(ts.entries)
    ensures forall x :: x in ListExpired(ts, now, address).0.entries <==>
                        || (x in ts.entries && !Rollover(ts.previous, now) && x.next > now)
                        || exists e :: e in Taken(ts, now) && e.recurring && x == Rearmed(e, now)
  {
    ListExpiredExactly(ts, now, address);
    TakenMembers(ts, now);
    RearmedFrom(Taken(ts, now), now);
    var t := ListExpired(ts, now, address).0.entries;
    forall x ensures x in t <==> x in Kept(ts, now) || x in RearmedOf(Taken(ts, now), now) {
      assert x in t <==> x in multiset(t);
    }
  }

  lemma ListExpiredKeepsValid(ts: TimerState, now: Word, address: nat)
    requires Valid(ts)
    ensures Valid(ListExpired(ts, now, address).0)
  {
    ListExpiredExactly(ts, now, address);
    var t := ListExpired(ts, now, address).0.entries;
    forall x | x in t ensures x.id < ts.nextId && x.next == Add(x.armedAt, x.ms) {
      ListExpiredMembers(ts, now, address);
      if !(x in ts.entries) {
        var e :| e in Taken(ts, now) && e.recurring && x == Rearmed(e, now);
        TakenMembers(ts, now);
      }
    }
  }

  // getNextTimer's answer is the time to the earliest deadline of all, and forever exactly when
  // there is none; it touches nothing but the flag.
  lemma NextTimerIsEarliest(ts: TimerState, now: Word)
    requires Valid(ts)
    ensures var (ts', wait) := NextTimer(ts, now);
            && ts' == ts.(tickled := false)
            && (ts.entries == [] ==> wait == FOREVER)
            && (ts.entries != [] ==>
                  exists e :: e in ts.entries && wait == (if e.next <= now then 0 else e.next - now)
                    && forall x :: x in ts.entries ==> e.next <= x.next)
  {
    if ts.entries != [] {
      var e := ts.entries[0];
      forall x | x in ts.entries ensures e.next <= x.next {
        var i :| 0 <= i < |ts.entries| && ts.entries[i] == x;
        assert i > 0 ==> Before(e, ts.entries[i]);
      }
      assert e in ts.entries;
    }
  }

  // Every operation preserves the representation: erase, change, insert again.
  lemma AddTimerKeepsValid(ts: TimerState, ms: Word, cb: Option<Callback>, recurring: bool, now: Word)
    requires Valid(ts)
    ensures Valid(AddTimer(ts, ms, cb, recurring, now).0)
    ensures multiset(AddTimer(ts, ms, cb, recurring, now).0.entries)
         == multiset(ts.entries) + multiset{NewEntry(ts.nextId, ms, cb, recurring, now)}
    ensures forall x :: x in AddTimer(ts, ms, cb, recurring, now).0.entries <==>
                        x in ts.entries || x == NewEntry(ts.nextId, ms, cb, recurring, now)
  {
    var e := NewEntry(ts.nextId, ms, cb, recurring, now);
    assert Fresh(ts.entries, e.id) by {
      forall i | 0 <= i < |ts.entries| ensures ts.entries[i].id != e.id {
        assert ts.entries[i] in ts.entries;
      }
    }
    InsertKeepsOrder(ts.entries, e);
  }

  lemma OnlyOneById(s: seq<Entry>, id: nat)
    requires UniqueIds(s)
    ensures forall e :: e in s && e.id == id ==> IndexOf(s, id) < |s| && e == s[IndexOf(s, id)]
  {
  }

  // cancel succeeds exactly on a timer that still has its callback, and that timer is gone.
  lemma CancelRemoves(ts: TimerState, id: nat)
    requires Valid(ts)
    ensures Valid(Cancel(ts, id).0) && Cancel(ts, id).0.nextId == ts.nextId
    ensures Cancel(ts, id).1 <==> exists e :: e in ts.entries && e.id == id && e.cb.Some?
    ensures Cancel(ts, id).1 ==>
              multiset(ts.entries) == multiset(Cancel(ts, id).0.entries) + multiset{ts.entries[IndexOf(ts.entries, id)]}
    ensures forall x :: x in Cancel(ts, id).0.entries <==> x in ts.entries && !(Cancel(ts, id).1 && x.id == id)
  {
    OnlyOneById(ts.entries, id);
    if Active(ts, id) {
      var i := IndexOf(ts.entries, id);
      assert ts.entries[i] in ts.entries;
      EraseKeepsOrder(ts.entries, i);
      EraseMembers(ts.entries, i);
    }
  }

  lemma ReplaceKeepsValid(ts: TimerState, i: nat, e: Entry)
    requires Valid(ts) && i < |ts.entries|
    requires e.id == ts.entries[i].id && e.next == Add(e.armedAt, e.ms)
    ensures Valid(ts.(entries := Insert(EraseAt(ts.entries, i), e)))
    ensures multiset(Insert(EraseAt(ts.entries, i), e)) == multiset(ts.entries) - multiset{ts.entries[i]} + multiset{e}
    ensures forall x :: x in Insert(EraseAt(ts.entries, i), e) <==> (x in ts.entries && x.id != e.id) || x == e
  {
    assert ts.entries[i] in ts.entries;
    EraseKeepsOrder(ts.entries, i);
    EraseMembers(ts.entries, i);
    InsertKeepsOrder(EraseAt(ts.entries, i), e);
  }

  lemma RefreshKeepsValid(ts: TimerState, id: nat, now: Word)
    requires Valid(ts)
    ensures Valid(Refresh(ts, id, now).0) && Refresh(ts, id, now).0.nextId == ts.nextId
    ensures Refresh(ts, id, now).1 == Active(ts, id)
    ensures Active(ts, id) ==>
              var e := Rearmed(ts.entries[IndexOf(ts.entries, id)], now);
              forall x :: x in Refresh(ts, id, now).0.entries <==> (x in ts.entries && x.id != e.id) || x == e
    ensures !Active(ts, id) ==> Refresh(ts, id, now).0 == ts
  {
    if Active(ts, id) {
      var i := IndexOf(ts.entries, id);
      var e := Rearmed(ts.entries[i], now);
      assert Refresh(ts, id, now).0.entries == Insert(EraseAt(ts.entries, i), e);
      ReplaceKeepsValid(ts, i, e);
    }
  }

  function ResetEntry(e: Entry, ms: Word, fromNow: bool, now: Word): Entry {
    Restarted(e, if fromNow then now else e.armedAt, ms)
  }

  // Asking for the current interval without fromNow reports success whatever state the timer
  // is in; otherwise reset succeeds exactly on a timer that still has its callback.
  lemma ResetOutcome(ts: TimerState, id: nat, oldMs: Word, ms: Word, fromNow: bool, now: Word)
    ensures var r := Reset(ts, id, oldMs, ms, fromNow, now);
            && (r.1 <==> (ms == oldMs && !fromNow) || Active(ts, id))
            && (!Active(ts, id) || (ms == oldMs && !fromNow) ==> r.0 == ts && !r.2)
            && (r.2 ==> r.0.tickled && !ts.tickled)
  {
  }

  lemma ArmingTimeRecovered(at: Word, ms: Word)
    ensures Sub(Add(at, ms), ms) == at
  {
  }

  lemma ResetShape(ts: TimerState, id: nat, oldMs: Word, ms: Word, fromNow: bool, now: Word)
    requires Active(ts, id) && !(ms == oldMs && !fromNow)
    requires var e := ts.entries[IndexOf(ts.entries, id)]; e.next == Add(e.armedAt, e.ms)
    ensures var i := IndexOf(ts.entries, id);
            Reset(ts, id, oldMs, ms, fromNow, now).0
            == AddEntry(ts.(entries := EraseAt(ts.entries, i)), ResetEntry(ts.entries[i], ms, fromNow, now)).0
  {
    var e := ts.entries[IndexOf(ts.entries, id)];
    ArmingTimeRecovered(e.armedAt, e.ms);
  }

  // Both modes of reset keep deadline = arming time + interval; without fromNow the arming
  // time recovered by subtraction is the true one.
  lemma ResetKeepsValid(ts: TimerState, id: nat, oldMs: Word, ms: Word, fromNow: bool, now: Word)
    requires Valid(ts) && Active(ts, id) && !(ms == oldMs && !fromNow)
    ensures Valid(Reset(ts, id, oldMs, ms, fromNow, now).0)
    ensures var e := ResetEntry(ts.entries[IndexOf(ts.entries, id)], ms, fromNow, now);
            forall x :: x in Reset(ts, id, oldMs, ms, fromNow, now).0.entries <==>
                        (x in ts.entries && x.id != e.id) || x == e
  {
    var i := IndexOf(ts.entries, id);
    assert ts.entries[i] in ts.entries;
    ResetShape(ts, id, oldMs, ms, fromNow, now);
    ReplaceKeepsValid(ts, i, ResetEntry(ts.entries[i], ms, fromNow, now));
    ValidIgnoresFlag(ts.(entries := Insert(EraseAt(ts.entries, i), ResetEntry(ts.entries[i], ms, fromNow, now))),
                     Reset(ts, id, oldMs, ms, fromNow, now).0);
  }

  lemma ValidIgnoresFlag(a: TimerState, b: TimerState)
    requires Valid(a) && b.entries == a.entries && b.nextId >= a.nextId
    ensures Valid(b)
  {
  }

  // ---------------------------------------------------------------- the operations, entry by entry

  // `x` comes before every other timer of the set.
  ghost predicate Foremost(s: seq<Entry>, x: Entry) {
    forall y :: y in s && y != x ==> x.next < y.next || (x.next == y.next && x.id < y.id)
  }

  lemma InsertedForemost(s: seq<Entry>, e: Entry)
    requires Sorted(s) && Fresh(s, e.id)
    ensures LowerBound(s, e) == 0 <==> Foremost(Insert(s, e), e)
  {
    InsertMembers(s, e);
    if LowerBound(s, e) == 0 {
      forall y | y in s ensures e.next < y.next || (e.next == y.next && e.id < y.id) {
        var i :| 0 <= i < |s| && s[i] == y;
        if i > 0 { assert Before(s[0], s[i]); }
      }
    } else {
      assert Before(s[0], e) && s[0] in s;
    }
  }

  lemma NewIdIsFresh(ts: TimerState)
    requires Valid(ts)
    ensures Fresh(ts.entries, ts.nextId)
  {
    forall i | 0 <= i < |ts.entries| ensures ts.entries[i].id != ts.nextId {
      assert ts.entries[i] in ts.entries;
    }
  }

  // The deadline lies `ms` after `start`, in 64 bits.
  predicate ArmedFrom(x: Entry, start: Word, ms: Word) {
    && x.armedAt == start && x.ms == ms
    && (x.next == start + ms || x.next == start + ms - 0x1_0000_0000_0000_0000)
  }

  predicate Describes(x: Entry, id: nat, recurring: bool, cb: Option<Callback>) {
    x.id == id && x.recurring == recurring && x.cb == cb
  }

  // `x` is the timer `e` armed anew.
  predicate ArmedAnew(e: Entry, x: Entry, start: Word, ms: Word) {
    Describes(x, e.id, e.recurring, e.cb) && ArmedFrom(x, start, ms)
  }

  ghost predicate Added(s: seq<Entry>, s': seq<Entry>, x: Entry) {
    && x !in s && multiset(s') == multiset(s) + multiset{x}
    && forall y :: y in s' <==> y in s || y == x
  }

  // The timer `e` has become `x`, and the others are as before.
  ghost predicate Replaced(s: seq<Entry>, s': seq<Entry>, e: Entry, x: Entry) {
    e in s && forall y :: y in s' <==> (y in s && y != e) || y == x
  }

  // addTimer adds one timer, due its interval after the clock reading of the call. It claims the
  // wake-up exactly when that timer is first of all and no wake-up is outstanding.
  lemma AddTimerExactly(ts: TimerState, ms: Word, cb: Option<Callback>, recurring: bool, now: Word)
    requires Valid(ts)
    ensures var (ts', front) := AddTimer(ts, ms, cb, recurring, now);
            && Valid(ts')
            && ts' == ts.(entries := ts'.entries, tickled := ts.tickled || front, nextId := ts.nextId + 1)
            && exists x ::
                 && Added(ts.entries, ts'.entries, x)
                 && Describes(x, ts.nextId, recurring, cb) && ArmedFrom(x, now, ms)
                 && (front <==> !ts.tickled && Foremost(ts'.entries, x))
  {
    var x := NewEntry(ts.nextId, ms, cb, recurring, now);
    NewIdIsFresh(ts);
    AddTimerKeepsValid(ts, ms, cb, recurring, now);
    InsertedForemost(ts.entries, x);
    assert Added(ts.entries, AddTimer(ts, ms, cb, recurring, now).0.entries, x);
  }

  lemma InactiveExactly(ts: TimerState, id: nat)
    requires Valid(ts)
    ensures Active(ts, id) <==> exists e :: e in ts.entries && e.id == id && e.cb.Some?
    ensures Active(ts, id) ==> ts.entries[IndexOf(ts.entries, id)] in ts.entries
  {
    OnlyOneById(ts.entries, id);
  }

  // refresh re-arms exactly the timer asked for, from the clock reading of the call, if it still has
  // its callback, and never claims a wake-up.
  lemma RefreshExactly(ts: TimerState, id: nat, now: Word)
    requires Valid(ts)
    ensures var (ts', ok) := Refresh(ts, id, now);
            && (ok <==> exists d :: d in ts.entries && d.id == id && d.cb.Some?)
            && Valid(ts') && ts' == ts.(entries := ts'.entries) && (!ok ==> ts' == ts)
            && (ok ==> exists e, x ::
                  Replaced(ts.entries, ts'.entries, e, x) && e.id == id && ArmedAnew(e, x, now, e.ms))
  {
    InactiveExactly(ts, id);
    RefreshKeepsValid(ts, id, now);
    if Active(ts, id) {
      var e := ts.entries[IndexOf(ts.entries, id)];
      OnlyOneById(ts.entries, id);
      assert Replaced(ts.entries, Refresh(ts, id, now).0.entries, e, Rearmed(e, now));
    }
  }

  // reset gives exactly the timer asked for the new interval, from the clock reading of the call or
  // from its last arming, if it still has its callback. It claims the wake-up exactly when that timer is
  // then first and no wake-up is outstanding.
  lemma ResetExactly(ts: TimerState, id: nat, oldMs: Word, ms: Word, fromNow: bool, now: Word)
    requires Valid(ts) && !(ms == oldMs && !fromNow)
    ensures var (ts', ok, front) := Reset(ts, id, oldMs, ms, fromNow, now);
            && (ok <==> exists d :: d in ts.entries && d.id == id && d.cb.Some?)
            && Valid(ts') && ts' == ts.(entries := ts'.entries, tickled := ts.tickled || front)
            && (!ok ==> ts' == ts && !front)
            && (ok ==> exists e, x ::
                  && Replaced(ts.entries, ts'.entries, e, x) && e.id == id
                  && ArmedAnew(e, x, if fromNow then now else e.armedAt, ms)
                  && (front <==> !ts.tickled && Foremost(ts'.entries, x)))
  {
    InactiveExactly(ts, id);
    if Active(ts, id) {
      var e := ts.entries[IndexOf(ts.entries, id)];
      ResetKeepsValid(ts, id, oldMs, ms, fromNow, now);
      OnlyOneById(ts.entries, id);
      ResetClaims(ts, id, oldMs, ms, fromNow, now);
      assert Replaced(ts.entries, Reset(ts, id, oldMs, ms, fromNow, now).0.entries, e,
                      ResetEntry(e, ms, fromNow, now));
    }
  }

  lemma ResetClaims(ts: TimerState, id: nat, oldMs: Word, ms: Word, fromNow: bool, now: Word)
    requires Valid(ts) && Active(ts, id) && !(ms == oldMs && !fromNow)
    ensures var (ts', ok, front) := Reset(ts, id, oldMs, ms, fromNow, now);
            var x := ResetEntry(ts.entries[IndexOf(ts.entries, id)], ms, fromNow, now);
            && (front <==> !ts.tickled && Foremost(ts'.entries, x))
            && ts' == ts.(entries := ts'.entries, tickled := ts.tickled || front)
  {
    var i := IndexOf(ts.entries, id);
    var e := ts.entries[i];
    assert e in ts.entries;
    ArmingTimeRecovered(e.armedAt, e.ms);
    EraseKeepsOrder(ts.entries, i);
    InsertedForemost(EraseAt(ts.entries, i), ResetEntry(e, ms, fromNow, now));
  }

  // The timers whose deadline has come, or all of them after the clock has been set back by more than an
  // hour (or at all, within its first hour), in the order of their deadlines and addresses.
  ghost predicate DueInOrder(taken: seq<Entry>, ts: TimerState, now: Word) {
    var rollover := if ts.previous < 3_600_000 then now < ts.previous else now + 3_600_000 < ts.previous;
    && (forall e :: e in taken <==> e in ts.entries && (rollover || e.next <= now))
    && (forall i, j :: 0 <= i < j < |taken| ==>
          taken[i].next < taken[j].next || (taken[i].next == taken[j].next && taken[i].id < taken[j].id))
  }

  // What becomes of the set when `taken` fire: they leave, but the recurring ones, armed anew.
  ghost predicate FiredFrom(s: seq<Entry>, s': seq<Entry>, taken: seq<Entry>, now: Word) {
    forall y :: y in s' <==> (y in s && y !in taken)
                             || exists e :: e in taken && e.recurring && ArmedAnew(e, y, now, e.ms)
  }

  lemma RearmedIsArmedAnew(e: Entry, y: Entry, now: Word)
    ensures y == Rearmed(e, now) <==> ArmedAnew(e, y, now, e.ms)
  {
  }

  ghost predicate CallbacksOf(cbs: seq<Option<Callback>>, taken: seq<Entry>) {
    |cbs| == |taken| && forall i :: 0 <= i < |cbs| ==> cbs[i] == taken[i].cb
  }

  // listExpiredCb returns the callbacks of exactly the timers that are due, in order.
  lemma ListExpiredInFull(ts: TimerState, now: Word, address: nat)
    requires Valid(ts)
    ensures var (ts', cbs) := ListExpired(ts, now, address);
            && Valid(ts')
            && ts' == ts.(entries := ts'.entries, previous := if ts.entries == [] then ts.previous else now)
            && exists taken :: DueInOrder(taken, ts, now) && FiredFrom(ts.entries, ts'.entries, taken, now)
                               && CallbacksOf(cbs, taken)
  {
    ListExpiredKeepsValid(ts, now, address);
    FiredMembers(ts, now, address);
    TakenInOrder(ts, now);
    TakenCallbacks(ts, now, address);
  }

  lemma TakenInOrder(ts: TimerState, now: Word)
    requires Valid(ts)
    ensures DueInOrder(Taken(ts, now), ts, now)
  {
    RolloverExactly(ts.previous, now);
    TakenMembers(ts, now);
    ListExpiredShape(ts, now, 0);
    assert forall i :: 0 <= i < |Taken(ts, now)| ==> Taken(ts, now)[i] == ts.entries[i];
  }

  lemma TakenCallbacks(ts: TimerState, now: Word, address: nat)
    requires Valid(ts)
    ensures var (ts', cbs) := ListExpired(ts, now, address);
            && CallbacksOf(cbs, Taken(ts, now))
            && ts' == ts.(entries := ts'.entries, previous := if ts.entries == [] then ts.previous else now)
  {
    ListExpiredShape(ts, now, address);
  }

  lemma FiredMembers(ts: TimerState, now: Word, address: nat)
    requires Valid(ts)
    ensures FiredFrom(ts.entries, ListExpired(ts, now, address).0.entries, Taken(ts, now), now)
  {
    ListExpiredMembers(ts, now, address);
    TakenMembers(ts, now);
    var taken, s' := Taken(ts, now), ListExpired(ts, now, address).0.entries;
    forall y ensures y in s' <==> (y in ts.entries && y !in taken)
                                  || exists e :: e in taken && e.recurring && ArmedAnew(e, y, now, e.ms)
    {
      forall e ensures y == Rearmed(e, now) <==> ArmedAnew(e, y, now, e.ms) {
        RearmedIsArmedAnew(e, y, now);
      }
    }
  }
}
