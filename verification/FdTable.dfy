// What the fd table of IOManager stands for: a map from an fd and an event to the work registered for
// it. Masks, slots, growing contexts, epoll_ctl and triggerEvent are a representation of that map.
module FdTable {
  import opened Common
  import F = FdEvents

  datatype Key = Key(fd: nat, ev: Event)

  type Table = map<Key, Work>

  datatype Op =
    | OpAdd(fd: nat, ev: Event, work: Work, granted: bool)
    | OpDel(fd: nat, ev: Event, granted: bool)
    | OpCancel(fd: nat, ev: Event, granted: bool)
    | OpCancelAll(fd: nat)
    | OpReport(fd: nat, report: set<F.KernelEvent>, granted: bool)

  // ---------------------------------------------------------------- the map

  // Whether the operation is about the event `ev` of its fd.
  predicate Concerns(op: Op, ev: Event) {
    match op
    case OpAdd(_, _, _, _) => false
    case OpDel(_, e, _) => e == ev
    case OpCancel(_, e, _) => e == ev
    case OpCancelAll(_) => true
    case OpReport(_, report, _) => F.Hits(report, ev)
  }

  // An fd that keeps a registration has to be re-armed, which epoll may refuse. One that keeps none is
  // taken out, which it does not refuse.
  predicate Accepted(t: Table, op: Op) {
    op.OpCancelAll? || op.granted || forall ev: Event :: Key(op.fd, ev) in t ==> Concerns(op, ev)
  }

  predicate Leaves(t: Table, op: Op, k: Key) {
    k in t && k.fd == op.fd && Concerns(op, k.ev) && Accepted(t, op)
  }

  function Step(t: Table, op: Op): Table {
    if op.OpAdd? then (if op.granted then t[Key(op.fd, op.ev) := op.work] else t)
    else map k | k in t && !Leaves(t, op, k) :: t[k]
  }

  // The work of the registrations that fire, READ first; delEvent drops it.
  function HandedOut(t: Table, op: Op): seq<Work> {
    if op.OpDel? then []
    else
      (if Leaves(t, op, Key(op.fd, Read)) then [t[Key(op.fd, Read)]] else [])
      + (if Leaves(t, op, Key(op.fd, Write)) then [t[Key(op.fd, Write)]] else [])
  }

  // addEvent must not be asked for an event that is registered. The kernel reports subsets of what is
  // registered, plus error and hang-up.
  predicate Possible(t: Table, op: Op) {
    match op
    case OpAdd(fd, ev, _, _) => Key(fd, ev) !in t
    case OpReport(fd, report, _) =>
      && (Key(fd, Read) in t || Key(fd, Write) in t)
      && (F.In in report ==> Key(fd, Read) in t) && (F.Out in report ==> Key(fd, Write) in t)
    case _ => true
  }

  // ---------------------------------------------------------------- the representation

  function Apply(st: F.IoState, op: Op): F.Outcome {
    match op
    case OpAdd(fd, ev, work, granted) => F.AddEvent(st, fd, ev, work, granted)
    case OpDel(fd, ev, granted) => F.DelEvent(st, fd, ev, granted)
    case OpCancel(fd, ev, granted) => F.CancelEvent(st, fd, ev, granted)
    case OpCancelAll(fd) => F.CancelAll(st, fd)
    case OpReport(fd, report, granted) => F.HandleReport(st, fd, report, granted)
  }

  predicate InSlot(slot: F.Slot, work: Work) {
    slot.scheduler
    && match work
       case CbWork(cb) => slot.cb == Some(cb) && slot.fiber == None
       case FiberWork(f) => slot.cb == None && slot.fiber == Some(f)
  }

  predicate Holds(st: F.IoState, k: Key) {
    k.fd < |st.fds| && k.ev in st.fds[k.fd].events
  }

  ghost predicate Represents(st: F.IoState, t: Table) {
    && F.Coherent(st)
    && forall k :: (k in t <==> Holds(st, k)) && (k in t ==> InSlot(st.fds[k.fd].Get(k.ev), t[k]))
  }

  lemma AddRefines(st: F.IoState, t: Table, op: Op)
    requires Represents(st, t) && op.OpAdd?
    ensures Key(op.fd, op.ev) in t ==> Apply(st, op) == F.Fails(F.DoubleRegistration)
    ensures Key(op.fd, op.ev) !in t ==>
              var r := Apply(st, op);
              r.Done? && Represents(r.st, Step(t, op)) && r.works == HandedOut(t, op) && r.ok == op.granted
  {
    F.AddEventCoherent(st, op.fd, op.ev, op.work, op.granted);
    assert Key(op.fd, op.ev) in t <==> Holds(st, Key(op.fd, op.ev));
    if Key(op.fd, op.ev) !in t {
      AddedOrNot(st, t, op);
    }
  }

  lemma AddedOrNot(st: F.IoState, t: Table, op: Op)
    requires Represents(st, t) && op.OpAdd? && Key(op.fd, op.ev) !in t
    ensures Apply(st, op).Done? && Represents(Apply(st, op).st, Step(t, op))
  {
    F.AddEventCoherent(st, op.fd, op.ev, op.work, op.granted);
    F.GrownCoherent(st, op.fd);
    var st', t' := Apply(st, op).st, Step(t, op);
    var fds := F.Grown(st.fds, op.fd);
    forall k ensures (k in t' <==> Holds(st', k)) && (k in t' ==> InSlot(st'.fds[k.fd].Get(k.ev), t'[k])) {
      assert k in t <==> Holds(st, k);
      if op.granted && k.fd == op.fd {
        assert st'.fds[k.fd].Get(k.ev) == if k.ev == op.ev then F.SlotFor(op.work) else fds[k.fd].Get(k.ev);
      }
    }
  }

  // The keys that have gone, and those that stay with their slots.
  lemma RemovedRepresents(st: F.IoState, t: Table, st': F.IoState, t': Table, fd: nat, gone: set<Event>)
    requires Represents(st, t) && F.Coherent(st') && F.Removed(st, st', fd, gone)
    requires forall k :: k in t' <==> k in t && !(k.fd == fd && k.ev in gone)
    requires forall k :: k in t' ==> t'[k] == t[k]
    ensures Represents(st', t')
  {
    forall k ensures (k in t' <==> Holds(st', k)) && (k in t' ==> InSlot(st'.fds[k.fd].Get(k.ev), t'[k])) {
      assert k in t <==> Holds(st, k);
    }
  }

  lemma WorkInSlot(st: F.IoState, t: Table, k: Key)
    requires Represents(st, t) && k in t
    ensures k.fd < |st.fds| && F.SlotWork(st.fds[k.fd].Get(k.ev)) == [t[k]]
  {
    assert Holds(st, k);
  }

  lemma GoneWorks(st: F.IoState, t: Table, fd: nat, gone: set<Event>)
    requires Represents(st, t) && fd < |st.fds| && gone <= st.fds[fd].events
    ensures F.WorkOf(st.fds[fd], gone)
         == (if Read in gone then [t[Key(fd, Read)]] else []) + (if Write in gone then [t[Key(fd, Write)]] else [])
  {
    forall ev | ev in gone ensures Key(fd, ev) in t && F.SlotWork(st.fds[fd].Get(ev)) == [t[Key(fd, ev)]] {
      assert Holds(st, Key(fd, ev));
      WorkInSlot(st, t, Key(fd, ev));
    }
  }

  // What fires, in terms of the events that leave fd.
  lemma TakenRefines(st: F.IoState, t: Table, op: Op, st': F.IoState, gone: set<Event>)
    requires Represents(st, t) && !op.OpAdd? && F.Coherent(st') && F.Removed(st, st', op.fd, gone)
    requires forall ev :: ev in gone <==> Leaves(t, op, Key(op.fd, ev))
    ensures Represents(st', Step(t, op))
    ensures !op.OpDel? ==> F.WorkOf(st.fds[op.fd], gone) == HandedOut(t, op)
  {
    RemovedRepresents(st, t, st', Step(t, op), op.fd, gone);
    GoneWorks(st, t, op.fd, gone);
  }

  lemma NothingLeaves(t: Table, op: Op)
    requires !op.OpAdd? && forall ev :: !Leaves(t, op, Key(op.fd, ev))
    ensures Step(t, op) == t && HandedOut(t, op) == []
  {
    forall k | k in t ensures !Leaves(t, op, k) {
      if k.fd == op.fd { assert k == Key(op.fd, k.ev); }
    }
  }

  ghost predicate Refined(st: F.IoState, t: Table, op: Op) {
    var r := Apply(st, op);
    && r.Done? && Represents(r.st, Step(t, op)) && r.works == HandedOut(t, op)
    && (r.ok <==> exists ev :: Leaves(t, op, Key(op.fd, ev)))
  }

  lemma InMask(st: F.IoState, t: Table, fd: nat, ev: Event)
    requires Represents(st, t)
    ensures Key(fd, ev) in t <==> fd < |st.fds| && ev in st.fds[fd].events
  {
    assert Key(fd, ev) in t <==> Holds(st, Key(fd, ev));
  }

  lemma OneLeaves(st: F.IoState, t: Table, op: Op)
    requires Represents(st, t) && (op.OpDel? || op.OpCancel?)
    ensures Leaves(t, op, Key(op.fd, op.ev)) <==>
              op.fd < |st.fds| && op.ev in st.fds[op.fd].events && (op.granted || st.fds[op.fd].events == {op.ev})
    ensures forall ev :: Leaves(t, op, Key(op.fd, ev)) ==> ev == op.ev
  {
    InMask(st, t, op.fd, Read);
    InMask(st, t, op.fd, Write);
    if op.fd < |st.fds| && op.ev in st.fds[op.fd].events && Accepted(t, op) && !op.granted {
      var events := st.fds[op.fd].events;
      assert forall ev :: ev in events ==> Key(op.fd, ev) in t && ev == op.ev;
    }
  }

  lemma DelRefines(st: F.IoState, t: Table, op: Op)
    requires Represents(st, t) && op.OpDel?
    ensures Refined(st, t, op)
  {
    F.DelEventCoherent(st, op.fd, op.ev, op.granted);
    OneLeaves(st, t, op);
    if Apply(st, op).ok {
      TakenRefines(st, t, op, Apply(st, op).st, {op.ev});
    } else {
      NothingLeaves(t, op);
    }
  }

  lemma CancelRefines(st: F.IoState, t: Table, op: Op)
    requires Represents(st, t) && op.OpCancel?
    ensures Refined(st, t, op)
  {
    F.CancelEventCoherent(st, op.fd, op.ev, op.granted);
    OneLeaves(st, t, op);
    if Apply(st, op).ok {
      TakenRefines(st, t, op, Apply(st, op).st, {op.ev});
      F.SingleWork(st.fds[op.fd], op.ev);
    } else {
      NothingLeaves(t, op);
    }
  }

  lemma CancelAllRefines(st: F.IoState, t: Table, op: Op)
    requires Represents(st, t) && op.OpCancelAll?
    ensures Refined(st, t, op)
  {
    F.CancelAllCoherent(st, op.fd);
    forall ev ensures Leaves(t, op, Key(op.fd, ev)) <==> op.fd < |st.fds| && ev in st.fds[op.fd].events {
      assert Key(op.fd, ev) in t <==> Holds(st, Key(op.fd, ev));
    }
    if Apply(st, op).ok {
      TakenRefines(st, t, op, Apply(st, op).st, st.fds[op.fd].events);
    } else {
      NothingLeaves(t, op);
    }
  }

  lemma ReportLeaves(st: F.IoState, t: Table, op: Op)
    requires Represents(st, t) && op.OpReport? && Possible(t, op)
    ensures F.Reportable(st, op.fd, op.report) && op.fd < |st.fds|
    ensures var events := st.fds[op.fd].events;
            var accepted := op.granted || forall ev :: ev in events ==> F.Hits(op.report, ev);
            forall ev :: Leaves(t, op, Key(op.fd, ev)) <==> ev in events && F.Hits(op.report, ev) && accepted
  {
    InMask(st, t, op.fd, Read);
    InMask(st, t, op.fd, Write);
    assert Accepted(t, op) <==> op.granted || forall ev :: ev in st.fds[op.fd].events ==> F.Hits(op.report, ev);
  }

  lemma ReportRefines(st: F.IoState, t: Table, op: Op)
    requires Represents(st, t) && op.OpReport? && Possible(t, op)
    ensures Refined(st, t, op)
  {
    ReportLeaves(st, t, op);
    F.HandleReportCoherent(st, op.fd, op.report, op.granted);
    F.ReportSucceeds(st, op.fd, op.report, op.granted);
    F.HitsAreReal(st, op.fd, op.report);
    var r := F.HandleReport(st, op.fd, op.report, op.granted);
    var gone := F.RealEvents(st.fds[op.fd].events, op.report);
    assert Apply(st, op) == r;
    if r.ok {
      ReportTaken(st, t, op, r.st, gone);
    } else {
      NothingLeaves(t, op);
    }
  }

  lemma ReportTaken(st: F.IoState, t: Table, op: Op, st': F.IoState, gone: set<Event>)
    requires Represents(st, t) && op.OpReport? && F.Coherent(st') && F.Removed(st, st', op.fd, gone)
    requires forall ev :: ev in gone <==> Leaves(t, op, Key(op.fd, ev))
    ensures Represents(st', Step(t, op)) && F.WorkOf(st.fds[op.fd], gone) == HandedOut(t, op)
  {
    TakenRefines(st, t, op, st', gone);
  }

  // Every operation does to the map what it says there, and hands out exactly the work the map has for
  // the registrations that fire. It reports success exactly when the registration is granted, or some
  // registration leaves. addEvent fails its assertion exactly when the key is in the map.
  lemma StepRefines(st: F.IoState, t: Table, op: Op)
    requires Represents(st, t)
    ensures op.OpAdd? && Key(op.fd, op.ev) in t ==> Apply(st, op) == F.Fails(F.DoubleRegistration)
    ensures Possible(t, op) ==>
              var r := Apply(st, op);
              && r.Done? && Represents(r.st, Step(t, op)) && r.works == HandedOut(t, op)
              && (r.ok <==> if op.OpAdd? then op.granted else exists ev :: Leaves(t, op, Key(op.fd, ev)))
  {
    match op
    case OpAdd(_, _, _, _) => AddRefines(st, t, op);
    case OpDel(_, _, _) => DelRefines(st, t, op);
    case OpCancel(_, _, _) => CancelRefines(st, t, op);
    case OpCancelAll(_) => CancelAllRefines(st, t, op);
    case OpReport(_, _, _) => if Possible(t, op) { ReportRefines(st, t, op); }
  }

  // The registrations of the first n fds.
  function Below(t: Table, n: nat): set<Key> {
    set k | k in t && k.fd < n
  }

  function KeysAt(n: nat, events: set<Event>): set<Key> {
    (if Read in events then {Key(n, Read)} else {}) + (if Write in events then {Key(n, Write)} else {})
  }

  lemma KeysAtSize(n: nat, events: set<Event>)
    ensures |KeysAt(n, events)| == |events|
  {
    var same := (if Read in events then {Read} else {}) + (if Write in events then {Write} else {});
    forall ev ensures ev in events <==> ev in same {
      match ev case Read => case Write =>
    }
    assert events == same;
  }

  lemma KeysAtMembers(n: nat, events: set<Event>, k: Key)
    ensures k in KeysAt(n, events) <==> k.fd == n && k.ev in events
  {
    match k.ev case Read => case Write =>
  }

  lemma CountOne(st: F.IoState, t: Table, n: nat)
    requires Represents(st, t) && n < |st.fds|
    ensures |Below(t, n + 1)| == |Below(t, n)| + |st.fds[n].events|
  {
    var here := KeysAt(n, st.fds[n].events);
    forall k ensures k in Below(t, n + 1) <==> k in Below(t, n) || k in here {
      KeysAtMembers(n, st.fds[n].events, k);
      assert k in t <==> Holds(st, k);
    }
    forall k ensures !(k in Below(t, n) && k in here) {
      KeysAtMembers(n, st.fds[n].events, k);
    }
    assert Below(t, n + 1) == Below(t, n) + here;
    KeysAtSize(n, st.fds[n].events);
  }

  lemma {:induction false} CountBelow(st: F.IoState, t: Table, n: nat)
    requires Represents(st, t) && n <= |st.fds|
    ensures F.CountBits(st.fds[..n]) == |Below(t, n)|
  {
    if n > 0 {
      CountBelow(st, t, n - 1);
      CountOne(st, t, n - 1);
      F.CountBitsAppend(st.fds[..n - 1], [st.fds[n - 1]]);
      assert st.fds[..n] == st.fds[..n - 1] + [st.fds[n - 1]];
      assert [st.fds[n - 1]][1..] == [];
    } else {
      assert Below(t, 0) == {};
    }
  }

  // The pending counter is the number of registrations.
  lemma PendingIsSize(st: F.IoState, t: Table)
    requires Represents(st, t)
    ensures st.pending == |t|
  {
    CountBelow(st, t, |st.fds|);
    assert st.fds[..|st.fds|] == st.fds;
    forall k | k in t ensures k in Below(t, |st.fds|) {
      assert Holds(st, k);
    }
    assert Below(t, |st.fds|) == t.Keys;
  }

  // ---------------------------------------------------------------- whole runs

  predicate PossibleRun(t: Table, ops: seq<Op>)
    decreases |ops|
  {
    ops == [] || (Possible(t, ops[0]) && PossibleRun(Step(t, ops[0]), ops[1..]))
  }

  function StepAll(t: Table, ops: seq<Op>): Table
    decreases |ops|
  {
    if ops == [] then t else StepAll(Step(t, ops[0]), ops[1..])
  }

  function HandedOutAll(t: Table, ops: seq<Op>): seq<Work>
    decreases |ops|
  {
    if ops == [] then [] else HandedOut(t, ops[0]) + HandedOutAll(Step(t, ops[0]), ops[1..])
  }

  // The table of contexts over a run, with all the work it has handed to the scheduler.
  function ApplyAll(st: F.IoState, ops: seq<Op>): Option<(F.IoState, seq<Work>)>
    decreases |ops|
  {
    if ops == [] then Some((st, []))
    else match Apply(st, ops[0])
      case Fails(_) => None
      case Done(st1, works, _) =>
        match ApplyAll(st1, ops[1..])
        case None => None
        case Some((st2, more)) => Some((st2, works + more))
  }

  // Over every run that registers nothing twice: no assertion fails, and what the scheduler is handed,
  // in order, is what the map hands out. So each registration fires at most once, with the very callback
  // or fiber that was registered.
  lemma {:induction false} RunRefines(st: F.IoState, t: Table, ops: seq<Op>)
    requires Represents(st, t) && PossibleRun(t, ops)
    ensures var r := ApplyAll(st, ops);
            r.Some? && Represents(r.value.0, StepAll(t, ops)) && r.value.1 == HandedOutAll(t, ops)
    decreases |ops|
  {
    if ops != [] {
      StepRefines(st, t, ops[0]);
      RunRefines(Apply(st, ops[0]).st, Step(t, ops[0]), ops[1..]);
    }
  }

  // A run without reports that fails no assertion registers nothing twice.
  lemma {:induction false} DoneIsPossible(st: F.IoState, t: Table, ops: seq<Op>)
    requires Represents(st, t) && ApplyAll(st, ops).Some? && forall op :: op in ops ==> !op.OpReport?
    ensures PossibleRun(t, ops)
    decreases |ops|
  {
    if ops != [] {
      assert ops[0] in ops;
      StepRefines(st, t, ops[0]);
      DoneIsPossible(Apply(st, ops[0]).st, Step(t, ops[0]), ops[1..]);
    }
  }

  lemma InitialRepresents()
    ensures Represents(F.IoState(F.Resize([], F.INITIAL_FDS), map[], 0), map[])
  {
    F.InitialCoherent();
    assert [] + seq(F.INITIAL_FDS, _ => F.UNUSED) == seq(F.INITIAL_FDS, _ => F.UNUSED);
  }
}
