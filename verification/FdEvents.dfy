// The fd bookkeeping of IOManager.cpp as values: per-fd event masks and slots, epoll's interest
// set and the pending counter, and what each operation does to them.
module FdEvents {
  import opened Common

  // EventContext. The scheduler pointer is either this scheduler or null.
  datatype Slot = Slot(scheduler: bool, fiber: Option<nat>, cb: Option<Callback>)

  const EMPTY: Slot := Slot(false, None, None)

  // FdContext: the mask of registered events and one slot per event.
  datatype FdContext = FdContext(events: set<Event>, read: Slot, write: Slot) {
    function Get(ev: Event): Slot {
      match ev case Read => read case Write => write
    }

    function Put(ev: Event, slot: Slot): FdContext {
      match ev case Read => this.(read := slot) case Write => this.(write := slot)
    }
  }

  const UNUSED: FdContext := FdContext({}, EMPTY, EMPTY)

  // kernel is epoll's interest set; EPOLLET is always on and not recorded.
  datatype IoState = IoState(fds: seq<FdContext>, kernel: map<nat, set<Event>>, pending: int)

  const INITIAL_FDS: nat := 32

  datatype Assertion = DoubleRegistration | SlotBusy | NoContext | TriggerUnset | EventsLeft

  datatype Outcome = Done(st: IoState, works: seq<Work>, ok: bool) | Fails(assertion: Assertion)

  // ---------------------------------------------------------------- epoll_ctl

  datatype CtlOp = CtlAdd | CtlMod | CtlDel

  predicate Legal(kernel: map<nat, set<Event>>, op: CtlOp, fd: nat) {
    op.CtlAdd? <==> fd !in kernel
  }

  // Adding a registered fd, or changing or deleting an unregistered one, is refused. A legal
  // ADD or MOD may still be refused for want of resources (granted = false); a legal DEL is not.
  // A refused call changes nothing.
  function EpollCtl(kernel: map<nat, set<Event>>, op: CtlOp, fd: nat, mask: set<Event>, granted: bool)
    : (map<nat, set<Event>>, bool)
  {
    if !Legal(kernel, op, fd) then (kernel, false)
    else match op
      case CtlDel => (kernel - {fd}, true)
      case _ => if granted then (kernel[fd := mask], true) else (kernel, false)
  }

  // ---------------------------------------------------------------- the operations

  // contextResize, and the size addEvent asks for: fd * 1.5 cut to an integer.
  function Resize(fds: seq<FdContext>, size: nat): seq<FdContext> {
    if size <= |fds| then fds[..size] else fds + seq(size - |fds|, _ => UNUSED)
  }

  function Grown(fds: seq<FdContext>, fd: nat): seq<FdContext> {
    if |fds| > fd then fds else Resize(fds, fd * 3 / 2)
  }

  // What triggerEvent hands to the scheduler; scheduling a null fiber queues nothing.
  function SlotWork(s: Slot): seq<Work> {
    if s.cb.Some? then [CbWork(s.cb.value)] else if s.fiber.Some? then [FiberWork(s.fiber.value)] else []
  }

  // triggerEvent: clear the bit, swap the callback or the fiber out, drop the scheduler.
  function Trigger(c: FdContext, ev: Event): (FdContext, seq<Work>) {
    var s := c.Get(ev);
    var swapped := if s.cb.Some? then s.(scheduler := false, cb := None) else s.(scheduler := false, fiber := None);
    (c.(events := c.events - {ev}).Put(ev, swapped), SlotWork(s))
  }

  function SlotFor(work: Work): Slot {
    match work
    case CbWork(cb) => Slot(true, None, Some(cb))
    case FiberWork(f) => Slot(true, Some(f), None)
  }

  function Registered(c: FdContext, ev: Event, work: Work): FdContext {
    c.(events := c.events + {ev}).Put(ev, SlotFor(work))
  }

  // addEvent: find or create the context, then register under its lock.
  function AddEvent(st: IoState, fd: nat, ev: Event, work: Work, granted: bool): Outcome {
    Register(st.(fds := Grown(st.fds, fd)), fd, ev, work, granted)
  }

  function Register(st: IoState, fd: nat, ev: Event, work: Work, granted: bool): Outcome {
    if fd >= |st.fds| then Fails(NoContext) else
    var c := st.fds[fd];
    if ev in c.events then Fails(DoubleRegistration) else
    var (kernel, ok) := EpollCtl(st.kernel, if c.events != {} then CtlMod else CtlAdd, fd, c.events + {ev}, granted);
    if !ok then Done(st, [], false) else
    if c.Get(ev) != EMPTY then Fails(SlotBusy) else
    Done(IoState(st.fds[fd := Registered(c, ev, work)], kernel, st.pending + 1), [], true)
  }

  function DelEvent(st: IoState, fd: nat, ev: Event, granted: bool): Outcome {
    if fd >= |st.fds| || ev !in st.fds[fd].events then Done(st, [], false) else
    var c := st.fds[fd];
    var left := c.events - {ev};
    var (kernel, ok) := EpollCtl(st.kernel, if left != {} then CtlMod else CtlDel, fd, left, granted);
    if !ok then Done(st, [], false)
    else Done(IoState(st.fds[fd := c.(events := left).Put(ev, EMPTY)], kernel, st.pending - 1), [], true)
  }

  function CancelEvent(st: IoState, fd: nat, ev: Event, granted: bool): Outcome {
    if fd >= |st.fds| || ev !in st.fds[fd].events then Done(st, [], false) else
    var c := st.fds[fd];
    var left := c.events - {ev};
    var (kernel, ok) := EpollCtl(st.kernel, if left != {} then CtlMod else CtlDel, fd, left, granted);
    if !ok then Done(st, [], false) else
    var (c', works) := Trigger(c, ev);
    Done(IoState(st.fds[fd := c'], kernel, st.pending - 1), works, true)
  }

  // Trigger the events of `which`, READ first. A bit of `which` that is not registered trips
  // triggerEvent's assertion.
  function TriggerBoth(c: FdContext, which: set<Event>): (FdContext, seq<Work>, bool) {
    if !(which <= c.events) then (c, [], false) else
    var (c1, w1) := if Read in which then Trigger(c, Read) else (c, []);
    var (c2, w2) := if Write in which then Trigger(c1, Write) else (c1, []);
    (c2, w1 + w2, true)
  }

  function CancelAll(st: IoState, fd: nat): Outcome {
    if fd >= |st.fds| || st.fds[fd].events == {} then Done(st, [], false) else
    var c := st.fds[fd];
    var (kernel, ok) := EpollCtl(st.kernel, CtlDel, fd, {}, true);
    if !ok then Done(st, [], false) else
    var (c', works, clean) := TriggerBoth(c, c.events);
    if c'.events != {} then Fails(EventsLeft)
    else Done(IoState(st.fds[fd := c'], kernel, st.pending - |c.events|), works, true)
  }

  // close(fd). The hook calls cancelAll first if the fd is known to it and the thread runs an
  // IOManager; epoll forgets a closed fd either way.
  function Close(st: IoState, fd: nat, known: bool): Outcome {
    if !known then Done(st.(kernel := st.kernel - {fd}), [], true)
    else match CancelAll(st, fd)
      case Done(st1, works, ok) => Done(st1.(kernel := st1.kernel - {fd}), works, ok)
      case r => r
  }

  // A fiber may register itself, addEvent without a callback, for several events one after the other.
  datatype Registration = Registration(fd: nat, ev: Event, granted: bool)

  function AddSelf(st: IoState, fiber: nat, regs: seq<Registration>): Outcome
    decreases |regs|
  {
    if regs == [] then Done(st, [], true)
    else match AddEvent(st, regs[0].fd, regs[0].ev, FiberWork(fiber), regs[0].granted)
      case Done(st1, _, _) => AddSelf(st1, fiber, regs[1..])
      case r => r
  }

  function GrantedOf(regs: seq<Registration>): nat {
    if regs == [] then 0 else (if regs[0].granted then 1 else 0) + GrantedOf(regs[1..])
  }

  // What epoll_wait reports for an fd.
  datatype KernelEvent = In | Out | Err | Hup

  // Error and hang-up stand for every registered event.
  function RealEvents(events: set<Event>, report: set<KernelEvent>): set<Event> {
    (if In in report then {Read} else {})
    + (if Out in report then {Write} else {})
    + (if Err in report || Hup in report then events else {})
  }

  // One round of idle()'s loop over the ready events.
  function HandleReport(st: IoState, fd: nat, report: set<KernelEvent>, granted: bool): Outcome {
    if fd >= |st.fds| then Fails(NoContext) else
    var c := st.fds[fd];
    var hit := RealEvents(c.events, report);
    if c.events * hit == {} then Done(st, [], false) else
    var left := c.events - hit;
    var (kernel, ok) := EpollCtl(st.kernel, if left != {} then CtlMod else CtlDel, fd, left, granted);
    if !ok then Done(st, [], false) else
    var (c', works, clean) := TriggerBoth(c, hit);
    if !clean then Fails(TriggerUnset)
    else Done(IoState(st.fds[fd := c'], kernel, st.pending - |hit|), works, true)
  }

  // ---------------------------------------------------------------- coherence

  predicate Full(s: Slot) {
    s.scheduler && (s.fiber.Some? != s.cb.Some?)
  }

  // A bit of the mask is set iff the slot is in use, and clear iff the slot is empty.
  ghost predicate SlotsMatch(c: FdContext) {
    forall ev: Event :: if ev in c.events then Full(c.Get(ev)) else c.Get(ev) == EMPTY
  }

  function CountBits(fds: seq<FdContext>): (n: nat)
  {
    if fds == [] then 0 else |fds[0].events| + CountBits(fds[1..])
  }

  // Masks, slots and the pending counter tell the same story,
  ghost predicate BitsOk(st: IoState) {
    && |st.fds| >= INITIAL_FDS
    && (forall i :: 0 <= i < |st.fds| ==> SlotsMatch(st.fds[i]))
    && st.pending == CountBits(st.fds)
  }

  // and epoll's interest set does too.
  ghost predicate Coherent(st: IoState) {
    && BitsOk(st)
    && (forall i :: 0 <= i < |st.fds| ==>
          if st.fds[i].events == {} then i !in st.kernel
          else i in st.kernel && st.kernel[i] == st.fds[i].events)
    && (forall i :: i in st.kernel ==> i < |st.fds|)
  }

  lemma {:induction false} CountBitsUpdate(fds: seq<FdContext>, i: nat, c: FdContext)
    requires i < |fds|
    ensures CountBits(fds[i := c]) == CountBits(fds) - |fds[i].events| + |c.events|
  {
    if i > 0 {
      CountBitsUpdate(fds[1..], i - 1, c);
      assert fds[i := c][1..] == fds[1..][i - 1 := c];
    } else {
      assert fds[0 := c][1..] == fds[1..];
    }
  }

  lemma {:induction false} CountBitsAppend(a: seq<FdContext>, b: seq<FdContext>)
    ensures CountBits(a + b) == CountBits(a) + CountBits(b)
  {
    if a == [] {
      assert [] + b == b;
    } else {
      CountBitsAppend(a[1..], b);
      assert (a + b)[1..] == a[1..] + b;
    }
  }

  lemma {:induction false} CountBitsUnused(n: nat)
    ensures CountBits(seq(n, _ => UNUSED)) == 0
  {
    if n > 0 {
      CountBitsUnused(n - 1);
      assert seq(n, _ => UNUSED)[1..] == seq(n - 1, _ => UNUSED);
    }
  }

  // The counter is zero exactly when no event is registered.
  lemma {:induction false} NoBitsNoEvents(fds: seq<FdContext>)
    ensures CountBits(fds) == 0 <==> forall i :: 0 <= i < |fds| ==> fds[i].events == {}
  {
    if fds != [] {
      NoBitsNoEvents(fds[1..]);
      if CountBits(fds) == 0 {
        forall i | 0 <= i < |fds| ensures fds[i].events == {} {
          if i > 0 { assert fds[i] == fds[1..][i - 1]; }
        }
      }
    }
  }

  // Growing the table adds unused contexts only, and always reaches the fd asked for.
  lemma GrownBits(st: IoState, fd: nat)
    requires BitsOk(st)
    ensures BitsOk(st.(fds := Grown(st.fds, fd))) && fd < |Grown(st.fds, fd)|
    ensures |st.fds| <= |Grown(st.fds, fd)|
    ensures forall i :: 0 <= i < |Grown(st.fds, fd)| ==>
              Grown(st.fds, fd)[i] == if i < |st.fds| then st.fds[i] else UNUSED
  {
    if |st.fds| <= fd {
      var n := fd * 3 / 2 - |st.fds|;
      CountBitsAppend(st.fds, seq(n, _ => UNUSED));
      CountBitsUnused(n);
    }
  }

  lemma GrownCoherent(st: IoState, fd: nat)
    requires Coherent(st)
    ensures Coherent(st.(fds := Grown(st.fds, fd)))
    ensures fd < |Grown(st.fds, fd)| == if fd < |st.fds| then |st.fds| else fd * 3 / 2
    ensures forall i :: 0 <= i < |Grown(st.fds, fd)| ==>
              Grown(st.fds, fd)[i] == if i < |st.fds| then st.fds[i] else UNUSED
  {
    GrownBits(st, fd);
  }

  // Replacing one context together with its share of the counter,
  lemma UpdateBits(st: IoState, fd: nat, c: FdContext, kernel: map<nat, set<Event>>, pending: int)
    requires BitsOk(st) && fd < |st.fds| && SlotsMatch(c)
    requires pending == st.pending - |st.fds[fd].events| + |c.events|
    ensures BitsOk(IoState(st.fds[fd := c], kernel, pending))
  {
    CountBitsUpdate(st.fds, fd, c);
  }

  // and its registration.
  lemma UpdateCoherent(st: IoState, fd: nat, c: FdContext, kernel: map<nat, set<Event>>, pending: int)
    requires Coherent(st) && fd < |st.fds| && SlotsMatch(c)
    requires kernel == if c.events == {} then st.kernel - {fd} else st.kernel[fd := c.events]
    requires pending == st.pending - |st.fds[fd].events| + |c.events|
    ensures Coherent(IoState(st.fds[fd := c], kernel, pending))
  {
    UpdateBits(st, fd, c, kernel, pending);
  }

  // Other fds are registered with the kernel as before.
  ghost predicate SameElsewhere(kernel: map<nat, set<Event>>, kernel': map<nat, set<Event>>, fd: nat) {
    forall k :: k != fd ==> (k in kernel' <==> k in kernel) && (k in kernel ==> kernel'[k] == kernel[k])
  }

  // Exactly the events `gone` have left fd; every other event and slot is as before.
  ghost predicate Removed(st: IoState, st': IoState, fd: nat, gone: set<Event>) {
    && fd < |st.fds| && gone <= st.fds[fd].events
    && |st'.fds| == |st.fds|
    && (forall i :: 0 <= i < |st.fds| && i != fd ==> st'.fds[i] == st.fds[i])
    && st'.fds[fd].events == st.fds[fd].events - gone
    && (forall ev: Event :: st'.fds[fd].Get(ev) == if ev in gone then EMPTY else st.fds[fd].Get(ev))
    && st'.pending == st.pending - |gone|
    && SameElsewhere(st.kernel, st'.kernel, fd)
  }

  lemma EventsLeave(st: IoState, fd: nat, gone: set<Event>, c: FdContext, kernel: map<nat, set<Event>>)
    requires Coherent(st) && fd < |st.fds| && gone <= st.fds[fd].events
    requires c.events == st.fds[fd].events - gone
    requires forall ev: Event :: c.Get(ev) == if ev in gone then EMPTY else st.fds[fd].Get(ev)
    requires kernel == if c.events == {} then st.kernel - {fd} else st.kernel[fd := c.events]
    ensures var st' := IoState(st.fds[fd := c], kernel, st.pending - |gone|);
            Coherent(st') && Removed(st, st', fd, gone)
  {
    assert SlotsMatch(c);
    assert |c.events| == |st.fds[fd].events| - |gone|;
    UpdateCoherent(st, fd, c, kernel, st.pending - |gone|);
  }

  lemma RegisteredMatches(c: FdContext, ev: Event, work: Work)
    requires SlotsMatch(c) && ev !in c.events
    ensures SlotsMatch(Registered(c, ev, work)) && Registered(c, ev, work).events == c.events + {ev}
    ensures |c.events + {ev}| == |c.events| + 1 && c.Get(ev) == EMPTY
  {
  }

  lemma RegisterCoherent(st: IoState, fd: nat, ev: Event, work: Work, granted: bool)
    requires Coherent(st) && fd < |st.fds|
    ensures var r := Register(st, fd, ev, work, granted);
            if ev in st.fds[fd].events then r == Fails(DoubleRegistration)
            else r.Done? && r.ok == granted && r.works == [] && Coherent(r.st)
                 && r.st.fds == if granted then st.fds[fd := Registered(st.fds[fd], ev, work)] else st.fds
  {
    var c := st.fds[fd];
    if ev !in c.events && granted {
      RegisteredMatches(c, ev, work);
      UpdateCoherent(st, fd, Registered(c, ev, work), st.kernel[fd := c.events + {ev}], st.pending + 1);
    }
  }

  // addEvent keeps coherence, picks the legal epoll_ctl operation and trips no assertion except
  // the one against registering an event twice, which it trips exactly then. On success the
  // event's slot holds the work and nothing else has changed.
  lemma AddEventCoherent(st: IoState, fd: nat, ev: Event, work: Work, granted: bool)
    requires Coherent(st)
    ensures var r := AddEvent(st, fd, ev, work, granted);
            var fds := Grown(st.fds, fd);
            if fd < |st.fds| && ev in st.fds[fd].events then r == Fails(DoubleRegistration)
            else r.Done? && r.ok == granted && r.works == [] && Coherent(r.st) && fd < |fds|
                 && r.st.fds == if granted then fds[fd := Registered(fds[fd], ev, work)] else fds
  {
    GrownCoherent(st, fd);
    RegisterCoherent(st.(fds := Grown(st.fds, fd)), fd, ev, work, granted);
  }

  // Which operation epoll_ctl is asked for when events leave an fd, and that it is legal.
  lemma RemovalLegal(st: IoState, fd: nat, left: set<Event>)
    requires Coherent(st) && fd < |st.fds| && st.fds[fd].events != {}
    ensures Legal(st.kernel, if left != {} then CtlMod else CtlDel, fd)
  {
  }

  lemma DelEventCoherent(st: IoState, fd: nat, ev: Event, granted: bool)
    requires Coherent(st)
    ensures var r := DelEvent(st, fd, ev, granted);
            && r.Done? && Coherent(r.st) && r.works == []
            && (r.ok ==> Removed(st, r.st, fd, {ev}))
            && (r.ok <== fd < |st.fds| && ev in st.fds[fd].events && (granted || st.fds[fd].events == {ev}))
            && (!r.ok ==> r.st == st)
  {
    if fd < |st.fds| && ev in st.fds[fd].events {
      var c := st.fds[fd];
      var r := DelEvent(st, fd, ev, granted);
      RemovalLegal(st, fd, c.events - {ev});
      if r.ok {
        EventsLeave(st, fd, {ev}, c.(events := c.events - {ev}).Put(ev, EMPTY), r.st.kernel);
      }
    }
  }

  lemma TriggerMatches(c: FdContext, ev: Event)
    requires SlotsMatch(c) && ev in c.events
    ensures var (c', works) := Trigger(c, ev);
            && SlotsMatch(c') && c'.events == c.events - {ev} && c'.Get(ev) == EMPTY
            && works == SlotWork(c.Get(ev)) && |works| == 1
            && forall e: Event :: e != ev ==> c'.Get(e) == c.Get(e)
  {
  }

  lemma CancelEventCoherent(st: IoState, fd: nat, ev: Event, granted: bool)
    requires Coherent(st)
    ensures var r := CancelEvent(st, fd, ev, granted);
            && r.Done? && Coherent(r.st)
            && (r.ok ==> Removed(st, r.st, fd, {ev}) && r.works == SlotWork(st.fds[fd].Get(ev)) && |r.works| == 1)
            && (r.ok <== fd < |st.fds| && ev in st.fds[fd].events && (granted || st.fds[fd].events == {ev}))
            && (!r.ok ==> r.st == st && r.works == [])
  {
    if fd < |st.fds| && ev in st.fds[fd].events {
      var c := st.fds[fd];
      var r := CancelEvent(st, fd, ev, granted);
      RemovalLegal(st, fd, c.events - {ev});
      if r.ok {
        TriggerMatches(c, ev);
        EventsLeave(st, fd, {ev}, Trigger(c, ev).0, r.st.kernel);
      }
    }
  }

  // The work taken out when the events of `which` fire, READ first.
  function WorkOf(c: FdContext, which: set<Event>): seq<Work> {
    (if Read in which then SlotWork(c.read) else []) + (if Write in which then SlotWork(c.write) else [])
  }

  lemma SingleWork(c: FdContext, ev: Event)
    ensures WorkOf(c, {ev}) == SlotWork(c.Get(ev))
  {
  }

  lemma TriggerBothMatches(c: FdContext, which: set<Event>)
    requires SlotsMatch(c) && which <= c.events
    ensures var (c', works, clean) := TriggerBoth(c, which);
            && clean && SlotsMatch(c') && c'.events == c.events - which
            && works == WorkOf(c, which)
            && forall e: Event :: c'.Get(e) == if e in which then EMPTY else c.Get(e)
  {
  }

  // cancelAll fires every registered event once, leaves the fd unregistered with the kernel and
  // never trips its final assertion; closing the fd afterwards takes nothing from epoll.
  lemma CancelAllCoherent(st: IoState, fd: nat)
    requires Coherent(st)
    ensures var r := CancelAll(st, fd);
            && r.Done? && Coherent(r.st) && fd !in r.st.kernel
            && (r.ok <==> fd < |st.fds| && st.fds[fd].events != {})
            && (r.ok ==> Removed(st, r.st, fd, st.fds[fd].events) && r.works == WorkOf(st.fds[fd], st.fds[fd].events))
            && (!r.ok ==> r.st == st && r.works == [])
  {
    if fd < |st.fds| && st.fds[fd].events != {} {
      var c := st.fds[fd];
      RemovalLegal(st, fd, {});
      TriggerBothMatches(c, c.events);
      EventsLeave(st, fd, c.events, TriggerBoth(c, c.events).0, st.kernel - {fd});
    }
  }

  // What the kernel can report: a subset of the interest mask, plus error and hang-up.
  ghost predicate Reportable(st: IoState, fd: nat, report: set<KernelEvent>) {
    && fd in st.kernel
    && (In in report ==> Read in st.kernel[fd])
    && (Out in report ==> Write in st.kernel[fd])
  }

  lemma RealEventsRegistered(st: IoState, fd: nat, report: set<KernelEvent>)
    requires Coherent(st) && Reportable(st, fd, report)
    ensures fd < |st.fds| && st.fds[fd].events != {} && RealEvents(st.fds[fd].events, report) <= st.fds[fd].events
    ensures In in report || Out in report || Err in report || Hup in report ==>
              RealEvents(st.fds[fd].events, report) != {}
  {
  }

  // A report the kernel can make never trips triggerEvent's assertion; exactly the reported
  // events fire, all registered ones on error or hang-up, and the rest stay registered.
  lemma HandleReportCoherent(st: IoState, fd: nat, report: set<KernelEvent>, granted: bool)
    requires Coherent(st) && Reportable(st, fd, report)
    ensures var r := HandleReport(st, fd, report, granted);
            var hit := RealEvents(st.fds[fd].events, report);
            && r.Done? && Coherent(r.st)
            && (r.ok ==> Removed(st, r.st, fd, hit) && r.works == WorkOf(st.fds[fd], hit))
            && (!r.ok ==> r.st == st && r.works == [])
  {
    RealEventsRegistered(st, fd, report);
    var c := st.fds[fd];
    var hit := RealEvents(c.events, report);
    assert c.events * hit == hit;
    if hit != {} {
      RemovalLegal(st, fd, c.events - hit);
      TriggerBothMatches(c, hit);
      var r := HandleReport(st, fd, report, granted);
      if r.ok {
        EventsLeave(st, fd, hit, TriggerBoth(c, hit).0, r.st.kernel);
      }
    }
  }

  // What a report means for one event: its own bit, or an error or hang-up.
  predicate Hits(report: set<KernelEvent>, ev: Event) {
    || (ev == Read && In in report)
    || (ev == Write && Out in report)
    || Err in report
    || Hup in report
  }

  // Event by event: what is registered and hit leaves mask, slot and epoll, what is registered and not
  // hit stays in all three, and other fds are left alone. Nothing happens if nothing registered is hit, or
  // if the rest cannot be re-armed.
  lemma HandleReportExactly(st: IoState, fd: nat, report: set<KernelEvent>, granted: bool)
    requires Coherent(st) && Reportable(st, fd, report)
    ensures fd < |st.fds|
    ensures var r := HandleReport(st, fd, report, granted);
            var c := st.fds[fd];
            && r.Done? && Coherent(r.st) && (!r.ok ==> r.st == st && r.works == [])
            && (r.ok <==> && (exists ev :: ev in c.events && Hits(report, ev))
                          && (granted || forall ev :: ev in c.events ==> Hits(report, ev)))
            && (r.ok ==>
                  && |r.st.fds| == |st.fds| && (forall i :: 0 <= i < |st.fds| && i != fd ==> r.st.fds[i] == st.fds[i])
                  && SameElsewhere(st.kernel, r.st.kernel, fd)
                  && forall ev ::
                       && (ev in r.st.fds[fd].events <==> ev in c.events && !Hits(report, ev))
                       && (fd in r.st.kernel && ev in r.st.kernel[fd] <==> ev in c.events && !Hits(report, ev))
                       && r.st.fds[fd].Get(ev) == if Hits(report, ev) then EMPTY else c.Get(ev))
  {
    RealEventsRegistered(st, fd, report);
    HandleReportCoherent(st, fd, report, granted);
    HitsAreReal(st, fd, report);
    ReportSucceeds(st, fd, report, granted);
  }

  lemma ReportSucceeds(st: IoState, fd: nat, report: set<KernelEvent>, granted: bool)
    requires Coherent(st) && Reportable(st, fd, report)
    ensures fd < |st.fds|
    ensures var r := HandleReport(st, fd, report, granted);
            var c := st.fds[fd];
            r.Done? && (r.ok <==> && (exists ev :: ev in c.events && Hits(report, ev))
                                  && (granted || forall ev :: ev in c.events ==> Hits(report, ev)))
  {
    RealEventsRegistered(st, fd, report);
    HitsAreReal(st, fd, report);
    ReportIsHandled(st, fd, report, granted);
    var c, hit := st.fds[fd], RealEvents(st.fds[fd].events, report);
    RemovalLegal(st, fd, c.events - hit);
    assert c.events - hit == {} <==> forall ev :: ev in c.events ==> Hits(report, ev);
  }

  lemma HitsAreReal(st: IoState, fd: nat, report: set<KernelEvent>)
    requires Coherent(st) && Reportable(st, fd, report)
    ensures fd < |st.fds|
    ensures forall ev :: ev in RealEvents(st.fds[fd].events, report) <==> ev in st.fds[fd].events && Hits(report, ev)
  {
  }

  // Re-arm what is left of the interest in fd, and fire the events `hit` if that succeeds.
  function Handled(st: IoState, fd: nat, hit: set<Event>, granted: bool): (r: Outcome)
    requires fd < |st.fds|
    ensures r.Done?
  {
    var c := st.fds[fd];
    var left := c.events - hit;
    var (kernel, ok) := EpollCtl(st.kernel, if left != {} then CtlMod else CtlDel, fd, left, granted);
    if hit == {} || !ok then Done(st, [], false)
    else Done(IoState(st.fds[fd := TriggerBoth(c, hit).0], kernel, st.pending - |hit|), WorkOf(c, hit), true)
  }

  lemma ReportIsHandled(st: IoState, fd: nat, report: set<KernelEvent>, granted: bool)
    requires Coherent(st) && Reportable(st, fd, report)
    ensures fd < |st.fds| && SlotsMatch(st.fds[fd])
    ensures var hit := RealEvents(st.fds[fd].events, report);
            && hit <= st.fds[fd].events
            && HandleReport(st, fd, report, granted) == Handled(st, fd, hit, granted)
  {
    RealEventsRegistered(st, fd, report);
    var c := st.fds[fd];
    var hit := RealEvents(c.events, report);
    assert c.events * hit == hit;
    TriggerBothMatches(c, hit);
  }

  lemma SomeEvent(report: set<KernelEvent>)
    requires report != {}
    ensures In in report || Out in report || Err in report || Hup in report
  {
    var k :| k in report;
    match k case In => case Out => case Err => case Hup =>
  }

  // A non-empty report fires unless re-arming the remaining events is refused.
  lemma ReportFires(st: IoState, fd: nat, report: set<KernelEvent>, granted: bool)
    requires Coherent(st) && Reportable(st, fd, report) && report != {}
    requires granted || RealEvents(st.fds[fd].events, report) == st.fds[fd].events
    ensures HandleReport(st, fd, report, granted).Done? && HandleReport(st, fd, report, granted).ok
  {
    SomeEvent(report);
    RealEventsRegistered(st, fd, report);
    var c := st.fds[fd];
    var hit := RealEvents(c.events, report);
    RemovalLegal(st, fd, c.events - hit);
    assert c.events * hit == hit;
    assert EpollCtl(st.kernel, if c.events - hit != {} then CtlMod else CtlDel, fd, c.events - hit, granted).1;
    TriggerBothMatches(c, hit);
  }

  lemma InitialCoherent()
    ensures Coherent(IoState(Resize([], INITIAL_FDS), map[], 0)) && |Resize([], INITIAL_FDS)| == 32
  {
    CountBitsUnused(INITIAL_FDS);
    assert [] + seq(INITIAL_FDS, _ => UNUSED) == seq(INITIAL_FDS, _ => UNUSED);
  }

  // ---------------------------------------------------------------- closing an fd

  lemma KnownCloseIsCancelAll(st: IoState, fd: nat)
    requires Coherent(st)
    ensures Close(st, fd, true) == CancelAll(st, fd) && CancelAll(st, fd).Done?
  {
    CancelAllCoherent(st, fd);
    var r := CancelAll(st, fd);
    assert r.st.kernel - {fd} == r.st.kernel;
  }

  lemma HarmlessCloseIsNothing(st: IoState, fd: nat)
    requires Coherent(st) && (fd >= |st.fds| || st.fds[fd].events == {})
    ensures Close(st, fd, false) == Done(st, [], true)
  {
    assert st.kernel - {fd} == st.kernel;
  }

  // close keeps coherence exactly when the fd is known to the closing thread or has no event
  // registered; then it is cancelAll, or nothing at all.
  lemma CloseCoherentExactly(st: IoState, fd: nat, known: bool)
    requires Coherent(st)
    ensures Close(st, fd, known).Done?
    ensures Coherent(Close(st, fd, known).st) <==> known || fd >= |st.fds| || st.fds[fd].events == {}
    ensures known ==> Close(st, fd, known) == CancelAll(st, fd)
    ensures !known && (fd >= |st.fds| || st.fds[fd].events == {}) ==> Close(st, fd, known) == Done(st, [], true)
  {
    if known {
      KnownCloseIsCancelAll(st, fd);
      CancelAllCoherent(st, fd);
    } else if fd >= |st.fds| || st.fds[fd].events == {} {
      HarmlessCloseIsNothing(st, fd);
    }
  }

  // An fd that epoll has forgotten while events of it are registered.
  predicate Stuck(st: IoState, fd: nat) {
    fd < |st.fds| && st.fds[fd].events != {} && fd !in st.kernel
  }

  // No operation on such an fd has any effect, whatever file the number stands for by then; another
  // registration of an event it holds trips the assertion in addEvent.
  lemma StuckForGood(st: IoState, fd: nat, ev: Event, work: Work, granted: bool)
    requires Stuck(st, fd)
    ensures AddEvent(st, fd, ev, work, granted)
         == if ev in st.fds[fd].events then Fails(DoubleRegistration) else Done(st, [], false)
    ensures DelEvent(st, fd, ev, granted) == Done(st, [], false)
    ensures CancelEvent(st, fd, ev, granted) == Done(st, [], false)
    ensures CancelAll(st, fd) == Done(st, [], false)
  {
  }

  // ---------------------------------------------------------------- whatever epoll knows

  // What holds after every operation, epoll in step or not: bits, slots and counter agree, and an
  // fd that is stuck stays so.
  ghost predicate Kept(st: IoState, st': IoState) {
    BitsOk(st') && forall fd :: Stuck(st, fd) ==> Stuck(st', fd)
  }

  lemma ChangeKept(st: IoState, fd: nat, c: FdContext, kernel: map<nat, set<Event>>, pending: int)
    requires BitsOk(st) && fd < |st.fds| && !Stuck(st, fd) && SlotsMatch(c)
    requires pending == st.pending - |st.fds[fd].events| + |c.events|
    requires forall k :: k != fd && k !in st.kernel ==> k !in kernel
    ensures Kept(st, IoState(st.fds[fd := c], kernel, pending))
  {
    UpdateBits(st, fd, c, kernel, pending);
  }

  lemma AddEventKept(st: IoState, fd: nat, ev: Event, work: Work, granted: bool)
    requires BitsOk(st) && AddEvent(st, fd, ev, work, granted).Done?
    ensures Kept(st, AddEvent(st, fd, ev, work, granted).st)
  {
    var st0 := st.(fds := Grown(st.fds, fd));
    GrownBits(st, fd);
    var r := AddEvent(st, fd, ev, work, granted);
    if r.ok {
      RegisteredMatches(st0.fds[fd], ev, work);
      ChangeKept(st0, fd, Registered(st0.fds[fd], ev, work), r.st.kernel, r.st.pending);
    }
  }

  lemma {:induction false} AddSelfKept(st: IoState, fiber: nat, regs: seq<Registration>)
    requires BitsOk(st) && AddSelf(st, fiber, regs).Done?
    ensures Kept(st, AddSelf(st, fiber, regs).st)
    decreases |regs|
  {
    if regs != [] {
      AddEventKept(st, regs[0].fd, regs[0].ev, FiberWork(fiber), regs[0].granted);
      AddSelfKept(AddEvent(st, regs[0].fd, regs[0].ev, FiberWork(fiber), regs[0].granted).st, fiber, regs[1..]);
    }
  }

  lemma DelEventKept(st: IoState, fd: nat, ev: Event, granted: bool)
    requires BitsOk(st) && DelEvent(st, fd, ev, granted).Done?
    ensures Kept(st, DelEvent(st, fd, ev, granted).st)
  {
    var r := DelEvent(st, fd, ev, granted);
    if r.ok {
      var c := st.fds[fd].(events := st.fds[fd].events - {ev}).Put(ev, EMPTY);
      assert |c.events| == |st.fds[fd].events| - 1;
      ChangeKept(st, fd, c, r.st.kernel, r.st.pending);
    }
  }

  lemma CancelEventKept(st: IoState, fd: nat, ev: Event, granted: bool)
    requires BitsOk(st) && CancelEvent(st, fd, ev, granted).Done?
    ensures Kept(st, CancelEvent(st, fd, ev, granted).st)
  {
    var r := CancelEvent(st, fd, ev, granted);
    if r.ok {
      TriggerMatches(st.fds[fd], ev);
      var c := Trigger(st.fds[fd], ev).0;
      assert |c.events| == |st.fds[fd].events| - 1;
      ChangeKept(st, fd, c, r.st.kernel, r.st.pending);
    }
  }

  lemma TriggeredKept(st: IoState, fd: nat, which: set<Event>, kernel: map<nat, set<Event>>)
    requires BitsOk(st) && fd < |st.fds| && !Stuck(st, fd) && which <= st.fds[fd].events
    requires forall k :: k != fd && k !in st.kernel ==> k !in kernel
    ensures Kept(st, IoState(st.fds[fd := TriggerBoth(st.fds[fd], which).0], kernel, st.pending - |which|))
  {
    var c := TriggerBoth(st.fds[fd], which).0;
    TriggerBothMatches(st.fds[fd], which);
    assert |c.events| == |st.fds[fd].events| - |which|;
    ChangeKept(st, fd, c, kernel, st.pending - |which|);
  }

  lemma CancelAllKept(st: IoState, fd: nat)
    requires BitsOk(st) && CancelAll(st, fd).Done?
    ensures Kept(st, CancelAll(st, fd).st)
  {
    var r := CancelAll(st, fd);
    if r.ok {
      TriggeredKept(st, fd, st.fds[fd].events, r.st.kernel);
    }
  }

  lemma CloseKept(st: IoState, fd: nat, known: bool)
    requires BitsOk(st) && Close(st, fd, known).Done?
    ensures Kept(st, Close(st, fd, known).st)
  {
    if known {
      CancelAllKept(st, fd);
    }
  }

  lemma HandleReportKept(st: IoState, fd: nat, report: set<KernelEvent>, granted: bool)
    requires BitsOk(st) && HandleReport(st, fd, report, granted).Done?
    ensures Kept(st, HandleReport(st, fd, report, granted).st)
  {
    var r := HandleReport(st, fd, report, granted);
    if r.ok {
      TriggeredKept(st, fd, RealEvents(st.fds[fd].events, report), r.st.kernel);
    }
  }
}
