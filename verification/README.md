# Verified model of a coroutine runtime and an HTTP buffer and parser

Two parts of the repository are modelled and proved here in Dafny.

**The coroutine runtime** (`Coroutine/version2`). Four state machines cooperate: the ordered timer
set, the per-fd event table mirrored into epoll, the task list of the scheduler, and the waits that
`do_io` and `sleep` build on them. The model is the repository's default, one scheduling worker
(`IOManager.h:76-78` with `Scheduler.cpp:26-42`). The main theorems are about every careful run of the
whole system: each suspended fiber has exactly one wake source; `run()` returns only when everything
has ended, but for what other threads hand in while it is about to return; the only assertions that can
fail are the one against registering an event twice and, for a `stop()` out of order, the one in
`Fiber::resume`; timeouts and sleeps end when they should and not before, under any clock, rollovers
and deadlines past 2^64 apart; and each registration of an event fires at most once, with what was
registered. A run is careful (`Runtime.CarefulRun`) if the program closes an fd only where it is known
to the closing thread's IOManager or with no event registered, and if a fiber that registers itself for
events parks with exactly one thing to wake it. Both conditions are shown to be exact, and what the
other runs come to is proved as well.

**The HTTP server's buffer, request parser and percent-decoder** (`ReactorHTTP-C`). The buffer is a
FIFO in bounded space over every run; the parser and the printer of requests are inverse to each
other; the input may be cut up anywhere behind the request line; and decoding in place is the
recursive decoding of RFC 3986, section 2.1.

How it is built:

- Each component has a specification on values (`Timers`, `FdEvents`, `Scheduling`, `ByteBuffer`,
  `PercentDecode`, `HttpParsing`) that takes the branches of the code one by one.
- Where the code updates objects and memory, classes do the same (`TimerObjects`,
  `IOManagerObjects`, `Scheduling.Scheduler`, `FiberObjects`, `Hook.PendingIo`, `ByteBuffer.Buffer`,
  `HttpRequestObjects`), and every method is proved against the specification.
- `Runtime` puts the specifications together as a labelled transition system. The clock, the answers
  of system calls, the kernel's ready batches, other threads' calls of the scheduling and timer API,
  and what each fiber does next are free. Every assertion of the source is a possible outcome of a
  step. `WakeTokens`, `RuntimeInvariant`, `RuntimeSteps` and `FiberSteps` carry the proof,
  `RuntimeSafety` the theorems; `CarelessRuns` is about runs that are not careful. `RuntimeHistory` adds
  what has been armed when, and `TimeoutSafety` the theorems about time.
- `FdTable` is the fd table as the map it stands for, and `RuntimeCalls` takes the steps of the runtime
  apart into the calls of the timer API, the fd API and `schedule` that they make.
- A step is a region under a mutex, or several that may as well be one. The idle fiber's stop check
  reads the timers and the tasks under different locks, and is two steps; the pending counter between
  them changes on the worker's thread only. `DoIoWait` joins the `addTimer`, `addEvent` and yield of
  one wait: other threads' calls touch neither the fd table nor the waiting fiber nor its timer, so
  one that falls in between can be moved behind the wait; a careful close changes nothing, and can be
  moved before it. `DoExpire` joins `listExpiredCb` and the
  `schedule` of its callbacks: other threads' tasks that fall in between can be moved before it, their
  timer calls behind it. The check inside `stop()` is one step: no task can leave the queue while it
  runs, so a timer call that falls into it can be moved behind it. `addTimer` and `listExpiredCb` read
  the clock before they take the lock; a reading that is old by then looks like a clock that has
  stepped back, which `Runtime` allows at any moment and which `SleepSafety` has as a case of its own.
- `IdleSteps` and `Hook` tie the two together: a round of idle(), the two halves of the wait of `do_io`
  and its timeout callback come to the same as methods on objects and as steps of the transition system.

Parameters that stand for the outside world: `now` (the clock), `granted` (whether `epoll_ctl`
accepts a legal ADD or MOD; a legal DEL always succeeds), `batch` (what `epoll_wait` reports: for each
fd a subset of its interest mask, plus error and hang-up), `address` (where a temporary timer object
happens to live), `input` and `count` (what `readv` and `send` do). Pointers are numbered objects.
Deadlines, intervals and clock readings are 64-bit words with wrap-around.

Where the code and its comments or its evident intention part, the code is followed:

- `Scheduler.cpp:171` says the queue is empty in the idle branch; it may hold tasks pinned to other
  threads (`Scheduling.IdleQueue`).
- `reset` reports success on a cancelled timer when asked for the interval it already has
  (`Timers.ResetOutcome`).
- The rollover threshold wraps while the previous clock reading is below one hour
  (`Timers.RolloverExactly`), and a rollover fires timers early (`TimerRuns.RolloverFiresEarly`).
- `refresh` never wakes the worker. That is safe under a clock that never steps back, and else as long
  as no refresh brings a timer before the deadline the worker sleeps on (`SleepSafety.SleepIsSafe`,
  `SleepSafety.SleepIsSafeExactly`, `SleepSafety.RefreshAfterClockStepsBack`).
- The cap of 3000 ms on the `epoll_wait` timeout goes through `int` (`SleepSafety.EpollTimeoutExactly`).
- `sleep` wraps and `nanosleep` is cut to an int for long waits (`Hook.SleepExactly`, `Hook.NanosleepExactly`).
- A timer that another thread arms inside the idle fiber's stop check is lost, and a task handed in
  after it can be left asleep, when `run()` returns (`RuntimeSafety.ArmInTheWindow`,
  `RuntimeSafety.LateWorkIsLost`).
- `stop()` called by a fiber, or again after a `run()` that left something behind, trips the assertion
  in `Fiber::resume` (`RuntimeSteps.StopAbortsExactly`).
- `close` runs `cancelAll` only for an fd that the hook knows and on a thread with an IOManager. Closed
  otherwise, an fd with events registered is stuck, and the runtime never stops
  (`FdEvents.CloseCoherentExactly`, `CarelessRuns.StuckNeverStops`, `CarelessRuns.ForgottenPipe`).
- `addEvent` without a callback registers the running fiber. Registered twice and parked, it is queued
  twice, and `run()` trips its assertion (`FiberSteps.ParkKeepsWakeUps`, `CarelessRuns.ParkedTwiceAborts`).
- `bufferExtendRoom` compacts with `memcpy`, whose regions can overlap
  (`ByteBuffer.CompactionOverlap`, `ByteBuffer.OverlapReached`).
- `parseHttpRequest` promises further requests on one connection; headers of earlier ones stay in the
  array of twelve (`HttpParsing.RoundTrip`).
- A request line that is not complete in the buffer is undefined behaviour, and an empty first line is
  waited on for ever (`HttpParsing.LineIsSafe`, `HttpParsing.SplitInsideLine`, `HttpParsing.EmptyFirstLine`).
- A header line without ": " ends the headers with all but two of its bytes unread (`HttpParsing.ReadBack`).

## Model

| member | source | states |
|---|---|---|
| `RuntimeSafety.RunIsSafe` | `Coroutine/version2/Scheduler.cpp:93-224` | over every careful run the invariant holds; of all assertions in scheduler, fibers and fd table only the one against double registration and the one in `Fiber::resume` can fail, and the latter if and only if some `stop()` of the run is out of order |
| `RuntimeSafety.WakeUpConservation` | `Coroutine/version2/Hook.cpp:87-136` | in every state of a careful run a fiber that is suspended or not yet started has exactly one wake source among queued tasks, fd-event slots, sleep timers and sleep's callback under way; a running or ended fiber has none |
| `RuntimeSafety.GracefulStop` | `Coroutine/version2/IOManager.cpp:115-148` | when `run()` has returned, and no thread armed a timer after the last stop check read the timers or handed in a task after it decided, there is no task, timer, registered event or pending call, and every fiber ever scheduled has ended |
| `RuntimeSafety.LateExactly` | `Coroutine/version2/IOManager.cpp:121-127` | a step makes something late if and only if it hands work or a timer in after the idle fiber has ended, or ends the idle fiber in a check during which a timer was armed |
| `RuntimeSafety.AllEndedExactly` | `Coroutine/version2/Scheduler.cpp:169-182` | whatever other threads did: when `run()` has returned, every fiber has ended if and only if no queued task, no timer and no fd slot holds one |
| `RuntimeSafety.IdleEndsOnlyWhenDone` | `Coroutine/version2/IOManager.cpp:121-148` | the idle fiber ends only at its stop check, after `stop()`, with nothing queued or registered and all fibers ended; the only timers there can be are the program's, armed since the check read the timers |
| `RuntimeSafety.ArmInTheWindow` | `Coroutine/version2/IOManager.cpp:123-126` | a timer armed by another thread between the two halves of the stop check is lost, `run()` returning with it in the set, if and only if the check was about to end the idle fiber |
| `RuntimeSafety.TimerIsLost` | `Coroutine/version2/IOManager.cpp:123-126` | such a run, from a fresh scheduler |
| `RuntimeSafety.LateWorkIsLost` | `Coroutine/version2/Scheduler.cpp:169-178` | from any state with the idle fiber ended, work that arrives then is run, sleeps, and is still asleep when `run()` returns |
| `RuntimeSafety.IdleFiberEnds` | `Coroutine/version2/Scheduler.cpp:192-224` | such a state is reached: stopping a fresh scheduler ends the idle fiber |
| `RuntimeSteps.StopAbortsExactly` | `Coroutine/version2/Scheduler.cpp:192-224` | `stop()` trips the assertion in `Fiber::resume` if and only if a fiber calls it, or it is called after `run()` has returned while its own check is false; it trips no other |
| `RuntimeSafety.SecondStopExactly` | `Coroutine/version2/IOManager.cpp:51-53` | a second `stop()`, as in the destructor, does so if and only if a task, a timer or a registered event is left; never after a graceful stop |
| `RuntimeSafety.SecondStopAborts` | `Coroutine/version2/Scheduler.cpp:220-222` | it does after LateWorkIsLost |
| `RuntimeSafety.FiberStopAborts` | `Coroutine/version2/Scheduler.cpp:220-222` | so does any `stop()` that a fiber calls |
| `RuntimeSafety.FiberStopRun` | `Coroutine/version2/Scheduler.cpp:220-222` | and a run in which one does |
| `TimeoutSafety.WaitArms` | `Coroutine/version2/Hook.cpp:96-125` | `do_io`'s wait, once registered, suspends the fiber in that call and, if the call has a timeout, arms one timer: due the whole timeout after the clock reading of that step, with the callback for this call, fd and event |
| `TimeoutSafety.IoResumeExactly` | `Coroutine/version2/Hook.cpp:125-135` | back from its yield `do_io` cancels its own timer and no other; it returns with the error if and only if the timeout callback has marked the call, and else tries the same call again |
| `TimeoutSafety.TimeoutsAreHonest` | `Coroutine/version2/Hook.cpp:102-134` | when that step gives up with ETIMEDOUT, a timer armed for the whole timeout of the same call has expired, not before the timeout had passed since the clock reading at which `do_io` armed it, unless the clock rolled over or the deadline passed 2^64 |
| `TimeoutSafety.TimeoutWakes` | `Coroutine/version2/Hook.cpp:104-111` | the timeout callback of a call under way marks it; if its fiber is still registered, then for the event of that call, and the fiber is queued and the event gone, unless epoll refuses to re-arm another event of the fd |
| `TimeoutSafety.SleepArms` | `Coroutine/version2/Hook.cpp:148-162` | `sleep` suspends the fiber and arms one timer, due the time asked for after the clock reading of the step, with the callback that schedules this fiber |
| `TimeoutSafety.SleepIsHonest` | `Coroutine/version2/Hook.cpp:155-161` | a fiber comes back from `sleep` only after the expiry of the very timer that this sleep armed, not before the time had passed since the clock reading of its arming, with the same two exceptions |
| `TimeoutSafety.DueTimerIsQueued` | `Coroutine/version2/Timer.cpp:173-218` | no timeout and no sleep is late: when the timers are looked at, the callback of such a timer is queued if and only if its time has come or the clock rolled over; otherwise the timer stays |
| `TimeoutSafety.ExpiriesAreRecorded` | `Coroutine/version2/Timer.cpp:189-204` | every expiry on record was of a timer in the set, at the clock reading of the step, due or in a rollover |
| `TimeoutSafety.ArmingsStay` | `Coroutine/version2/Hook.cpp:102-161` | over every careful run the record of what was armed for how long and when is never changed |
| `RuntimeHistory.StepKeepsRecorded` | `Coroutine/version2/Timer.cpp:123-218` | every careful step keeps these records in order: timers and callbacks of `do_io` and `sleep` go back to an arming for the right call or fiber, and a fiber waiting in `do_io` is registered for the event of its call only |
| `RuntimeSafety.ReturnedCallIsQuiet` | `Coroutine/version2/Timer.cpp:136-150` | a call that has returned has no timer left, and a timeout callback of it still to run does nothing |
| `RuntimeSafety.ReturnedCallStaysOver` | `Coroutine/version2/Hook.cpp:100-111` | over every further run that call's timer_info never comes back |
| `RuntimeSafety.LifeCycle` | `Coroutine/version2/Fiber.cpp:110-174` | every step moves every fiber along READY, RUNNING, then READY or TERM, and TERM is final |
| `RuntimeSafety.OneFiberRuns` | `Coroutine/version2/Scheduler.cpp:146-182` | while a fiber runs no other does, the idle fiber included, and the counters say so |
| `RuntimeSafety.QueuedFibersAreReady` | `Coroutine/version2/Scheduler.cpp:124-129` | a queued fiber is READY in every reachable state, as the assertion there demands |
| `RuntimeCalls.PickExactly` | `Coroutine/version2/Scheduler.cpp:107-166` | the first queued task that this thread may run leaves the queue, the others stay in order, and its fiber, or a new one with its callback, runs |
| `RuntimeCalls.PickNothing` | `Coroutine/version2/Scheduler.cpp:169-182` | with no such task the queue stays and the idle fiber is entered, or `run()` returns |
| `RuntimeCalls.FiberMoves` | `Coroutine/version2/Hook.cpp:60-140` | what each step of the running fiber makes of that fiber and of its `do_io` call; no other fiber and no other call changes, but for a timeout callback, which marks the call it is for |
| `RuntimeCalls.OthersMove` | `Coroutine/version2/Scheduler.h:50-84` | steps of other threads move no fiber; they can add one |
| `RuntimeCalls.StepTimers` | `Coroutine/version2/Timer.cpp:123-218` | every step of the runtime does to the timers exactly what its calls of the timer API do |
| `RuntimeCalls.RunTimers` | `Coroutine/version2/Timer.cpp:123-218` | so the timers of the runtime over any careful run are those of a timer manager over the calls made, and TimerRuns applies |
| `RuntimeCalls.StepFds` | `Coroutine/version2/IOManager.cpp:185-451` | every step but the taking of a task changes the fd table by its calls of the fd API only, and appends to the queue what it schedules itself, then the work those calls hand out, and nothing else |
| `RuntimeCalls.StepIsTable` | `Coroutine/version2/IOManager.cpp:185-451` | the same with the fd table as a map from fd and event to the work registered |
| `RuntimeCalls.RunFds` | `Coroutine/version2/IOManager.cpp:185-451` | so over any careful run the fd table stands for the map that the calls made lead to |
| `RuntimeSafety.BookkeepingAgrees` | `Coroutine/version2/IOManager.cpp:309-311` | in every state of a careful run the pending counter is the number of set event bits, masks, slots and epoll agree, and scheduled = queued + active + completed |
| `RuntimeSafety.BitsAgree` | `Coroutine/version2/IOManager.cpp:309-311` | over every run, careful or not, masks and slots agree and the pending counter is the number of set event bits, so it never underflows |
| `CarelessRuns.CloseKeepsInvExactly` | `Coroutine/version2/Hook.cpp:375-393` | a `close` keeps the invariant of careful runs if and only if the fd is known to the closing thread or has no event registered |
| `CarelessRuns.StuckNeverStops` | `Coroutine/version2/IOManager.cpp:121-148` | once epoll has forgotten an fd with events registered, no run whatever takes them off again: the counter stays up, the idle fiber never ends and `run()` does not return |
| `CarelessRuns.ForgottenPipe` | `Coroutine/version2/Hook.cpp:382-392` | such a run from a fresh scheduler, after which registering the event anew trips the assertion in `addEvent` |
| `FiberSteps.ParkKeepsWakeUps` | `Coroutine/version2/IOManager.cpp:323-328` | a fiber that registers itself for any list of events and then yields or sleeps keeps wake-up conservation if and only if one registration is granted and it does not sleep, or none is and it does |
| `CarelessRuns.ParkedTwiceAborts` | `Coroutine/version2/Scheduler.cpp:125-129` | registered for reading and writing on one fd and reported for both at once, it is queued twice, and the second time trips the assertion on queued fibers |
| `CarelessRuns.ParkedTwiceRun` | `Coroutine/version2/Scheduler.cpp:125-129` | such a run from a fresh scheduler |
| `RuntimeSafety.DelEventKeepsWakeUps` | `Coroutine/version2/IOManager.cpp:363-369` | a removal by `delEvent` keeps wake-up conservation if and only if the slot holds no fiber |
| `RuntimeInvariant.InitialInv` | `Coroutine/version2/IOManager.cpp:17-49` | a new IOManager satisfies the invariant |
| `RuntimeSteps.PickKeepsInv` | `Coroutine/version2/Scheduler.cpp:105-182` | taking a task, entering the idle fiber or leaving `run()` keeps the invariant and trips no assertion |
| `RuntimeSteps.ReadTimersKeepsInv` | `Coroutine/version2/IOManager.cpp:123` | so does the stop check's look at the timers |
| `RuntimeSteps.DecideStopKeepsInv` | `Coroutine/version2/IOManager.cpp:124-148` | so does its decision, on the timers as read and the counter and tasks as they are by then |
| `RuntimeSteps.StopKeepsInv` | `Coroutine/version2/Scheduler.cpp:192-224` | so does a `stop()` that trips no assertion |
| `RuntimeSteps.ExpireKeepsInv` | `Coroutine/version2/IOManager.cpp:174-181` | so does queueing the callbacks of the expired timers |
| `RuntimeSteps.HandleNextKeepsInv` | `Coroutine/version2/IOManager.cpp:185-247` | so does handling one ready event, and the rest of the batch stays possible |
| `RuntimeSteps.AnyThreadKeepsInv` | `Coroutine/version2/Scheduler.h:50-84` | so do scheduling and timer calls of any thread at any moment, and its careful closes |
| `FiberSteps.IoWaitOutcome` | `Coroutine/version2/Hook.cpp:96-125` | arming the timeout, registering the event and yielding, or backing out when registration is refused, keeps the invariant |
| `FiberSteps.IoResumeKeepsInv` | `Coroutine/version2/Hook.cpp:125-135` | so does coming back: cancel the timer, then retry or give up |
| `FiberSteps.BeginTimeoutKeepsInv` | `Coroutine/version2/Hook.cpp:104-111` | so does the timeout callback, whichever of event and timer came first |
| `FiberSteps.SleepKeepsInv` | `Coroutine/version2/Hook.cpp:155-161` | so does sleep's timer and yield |
| `FiberSteps.CancelAllKeepsInv` | `Coroutine/version2/IOManager.cpp:408-451` | so does `cancelAll` from any fiber |
| `FiberSteps.CloseKeepsInv` | `Coroutine/version2/Hook.cpp:375-393` | so does a careful `close` |
| `FiberSteps.ParkKeepsInv` | `Coroutine/version2/IOManager.cpp:323-328` | so does a fiber that registers itself and parks with one thing to wake it |
| `WakeTokens.AddEventTokens` | `Coroutine/version2/IOManager.cpp:317-328` | a successful `addEvent` puts exactly one token of its work into the fd table, a refused one none |
| `WakeTokens.HandleReportTokens` | `Coroutine/version2/IOManager.cpp:236-246` | handling a report moves each fiber's wake tokens from slots to tasks, losing and making none |
| `WakeTokens.CancelEventTokens` | `Coroutine/version2/IOManager.cpp:402-405` | so does `cancelEvent` |
| `WakeTokens.CancelAllTokens` | `Coroutine/version2/IOManager.cpp:437-450` | so does `cancelAll` |
| `WakeTokens.ListExpiredTokens` | `Coroutine/version2/Timer.cpp:201-217` | the wake tokens of the timers taken are those of the callbacks returned |
| `IdleSteps.RoundIsSteps` | `Coroutine/version2/IOManager.cpp:174-247` | expiring the timers and handling the whole batch, as steps of the runtime, leads exactly where the method IdleRound leaves timers, fds and queue, invariant included |
| `Timers.ComparatorIsStrictTotalOrder` | `Coroutine/version2/Timer.cpp:11-35` | the comparator is a strict order: null first, then the earlier deadline, then the lower address; only equal keys are equivalent |
| `Timers.FindByKeyFindsTimer` | `Coroutine/version2/Timer.cpp:61-62` | looking a timer up by its key finds that very timer, so the unguarded erase is of a found element |
| `Timers.AddTimerExactly` | `Coroutine/version2/Timer.cpp:38-48` | `addTimer` adds one timer, with deadline the clock reading of the call plus the interval in 64 bits, and the callback and kind given; it claims the wake-up if and only if that timer is first of all and no wake-up is outstanding |
| `Timers.CancelRemoves` | `Coroutine/version2/Timer.cpp:55-66` | `cancel` succeeds if and only if the timer is in the set with a callback, and then exactly that timer is gone |
| `Timers.RefreshExactly` | `Coroutine/version2/Timer.cpp:68-84` | `refresh` succeeds if and only if the timer is in the set with a callback; that timer is then due its interval after the clock reading of the call, and nothing else changes |
| `Timers.ResetOutcome` | `Coroutine/version2/Timer.cpp:86-101` | when `reset` reports success, including on a cancelled timer, and when it changes nothing |
| `Timers.ResetExactly` | `Coroutine/version2/Timer.cpp:86-116` | `reset` gives exactly that timer the new interval, from the clock reading of the call or from its last arming as asked, and claims the wake-up if and only if the timer is then first and no wake-up is outstanding |
| `Timers.ArmingTimeRecovered` | `Coroutine/version2/Timer.cpp:110` | deadline minus interval is the arming time, wrap-around included |
| `Timers.NextTimerIsEarliest` | `Coroutine/version2/Timer.cpp:152-171` | the answer is the time to the earliest deadline of all, 0 when it is past, and the maximal word when there is no timer |
| `Timers.RolloverExactly` | `Coroutine/version2/Timer.cpp:236-246` | which clock readings count as a rollover, with the unsigned subtraction as written |
| `Timers.CutIsDeadline` | `Coroutine/version2/Timer.cpp:195-202` | wherever the sentinel falls among equal deadlines, the cut separates deadline <= now from the rest |
| `Timers.ListExpiredInFull` | `Coroutine/version2/Timer.cpp:173-218` | `listExpiredCb` returns the callbacks of exactly the timers due, or of all in a rollover, in (deadline, address) order; they leave the set, the recurring ones due again their interval after the clock reading of the call, the others stay |
| `TimerRuns.FiringsSpaced` | `Coroutine/version2/Timer.cpp:205-217` | over every run under a clock that never steps back, a one-shot timer fires at most once and firings of a recurring one are at least its interval apart |
| `TimerRuns.NeverEarly` | `Coroutine/version2/Timer.cpp:38-48` | under such a clock a timer added at t for ms never fires before t + ms, through refreshes and firings, unless it is given another interval |
| `TimerRuns.OneShotFiresExactly` | `Coroutine/version2/Timer.cpp:189-217` | a one-shot timer added at t for ms and left alone fires once, at the first `listExpiredCb` whose clock reading has come to t + ms, and not at all if there is none |
| `TimerRuns.CancelledNeverFires` | `Coroutine/version2/Timer.cpp:55-66` | after a successful cancel no later `listExpiredCb` of any run returns the timer |
| `TimerRuns.GoneNeverFires` | `Coroutine/version2/Timer.cpp:202-216` | nor does one that left the set in any other way |
| `TimerRuns.StepMembers` | `Coroutine/version2/Timer.cpp:55-134` | after any call, each timer in the set was there before, is the new one, due its interval after the call, or was armed anew by that call as it says |
| `TimerRuns.OnTimeExactly` | `Coroutine/version2/Timer.cpp:189-204` | over every run and under any clock, no timer fires before its deadline if and only if every rollover of the run comes when all timers in the set are due anyway |
| `TimerRuns.RolloverFiresEarly` | `Coroutine/version2/Timer.cpp:189-201` | the clock condition of FiringsSpaced is needed: a run with a clock set back in which a timer fires too early |
| `SleepSafety.SleepIsSafeExactly` | `Coroutine/version2/Timer.cpp:152-234` | over every interleaving of timer calls by other threads and under any clock: all along the run no timer is due before the deadline the sleeping worker observed, or a wake-up has been written or is about to be, if and only if no refresh of the run brings a timer before that deadline |
| `SleepSafety.SleepIsSafe` | `Coroutine/version2/Timer.cpp:152-234` | so it holds throughout every run under a clock that never steps back |
| `SleepSafety.InitialWorld` | `Coroutine/version2/Timer.cpp:118-121` | the invariant behind both holds of a new manager |
| `SleepSafety.QuietCallKeepsDeadline` | `Coroutine/version2/Timer.cpp:220-234` | a timer call that claims no wake-up, a refresh within that guard included, leaves no earlier deadline |
| `SleepSafety.ClaimsExactly` | `Coroutine/version2/Timer.cpp:220-234` | a call claims the wake-up if and only if it adds a timer, or gives an active one another interval, that timer is then first of all, and no wake-up is outstanding |
| `SleepSafety.RefreshKeepsDeadlineExactly` | `Coroutine/version2/Timer.cpp:80-83` | under any clock `refresh` keeps the observed deadline safe if and only if the new deadline is not before it |
| `SleepSafety.RefreshAfterClockStepsBack` | `Coroutine/version2/Timer.cpp:81` | a run with the clock set back in which it is not |
| `SleepSafety.EpollTimeoutExactly` | `Coroutine/version2/IOManager.cpp:154-164` | the timeout for every answer: 3000 for "no timer"; else the low half of the answer as an int, negative or at most 3000; so for answers below 2^31 the answer or 3000 |
| `TimerObjects.Timer.constructor` | `Coroutine/version2/Timer.cpp:38-48` | a new timer is due its interval after the clock reading of its creation |
| `TimerObjects.Timer.Cancel` | `Coroutine/version2/Timer.cpp:55-66` | the object's cancel does to the set what the specification says, and clears the callback |
| `TimerObjects.Timer.Refresh` | `Coroutine/version2/Timer.cpp:68-84` | likewise refresh: erase, change the key, insert |
| `TimerObjects.Timer.Reset` | `Coroutine/version2/Timer.cpp:86-116` | likewise reset, with its result and its claim on the wake-up |
| `TimerObjects.TimerManager.constructor` | `Coroutine/version2/Timer.cpp:118-121` | a new manager is empty and has read the clock |
| `TimerObjects.TimerManager.AddTimer` | `Coroutine/version2/Timer.cpp:127-134` | likewise addTimer; the timer returned is due its interval after the clock reading of the call |
| `TimerObjects.TimerManager.AddEntry` | `Coroutine/version2/Timer.cpp:220-234` | insertion, and the wake-up claimed by a front insertion when none is outstanding |
| `TimerObjects.TimerManager.GetNextTimer` | `Coroutine/version2/Timer.cpp:152-171` | likewise getNextTimer, which clears the flag |
| `TimerObjects.TimerManager.DetectClockRollover` | `Coroutine/version2/Timer.cpp:236-246` | likewise detectClockRollover |
| `TimerObjects.TimerManager.CutPoint` | `Coroutine/version2/Timer.cpp:195-200` | the search loop stops where the specification cuts |
| `TimerObjects.TimerManager.FireAll` | `Coroutine/version2/Timer.cpp:205-217` | the loop over the expired timers re-arms and collects callbacks as the specification folds them |
| `TimerObjects.TimerManager.ListExpiredCb` | `Coroutine/version2/Timer.cpp:173-218` | the whole of listExpiredCb against its specification, the set valid again afterwards |
| `Scheduling.Scheduler.Schedule` | `Coroutine/version2/Scheduler.h:116-126` | appends the task unless it is null; asks for a tickle if and only if the queue was empty |
| `Scheduling.Scheduler.ScheduleBatch` | `Coroutine/version2/Scheduler.h:68-84` | appends the non-null callbacks in order, with one answer for the batch |
| `Scheduling.BatchTasksConcat` | `Coroutine/version2/Scheduler.h:68-84` | a batch makes one unpinned task of each callback, in order, and none of a null |
| `Scheduling.Scheduler.TakeTask` | `Coroutine/version2/Scheduler.cpp:107-139` | takes the first task this thread may run, keeps the others in order, counts it active, and tickles if and only if tasks remain |
| `Scheduling.IdleQueue` | `Coroutine/version2/Scheduler.cpp:169-172` | with nothing for this thread to take, the queue is empty if and only if no queued task is pinned to another thread |
| `Scheduling.TasksTakenInOrder` | `Coroutine/version2/Scheduler.cpp:111-135` | over every run the worker's own tasks leave in the order they came, and the others stay in order |
| `Scheduling.TasksConserved` | `Coroutine/version2/Scheduler.cpp:111-135` | over every run each task is taken once or still queued, and none is taken by a thread it is not pinned to |
| `Scheduling.UnpinnedTasksAreFifo` | `Coroutine/version2/Scheduler.h:50-84` | without tasks pinned to another thread, scheduled = taken followed by queued |
| `FdEvents.AddEventCoherent` | `Coroutine/version2/IOManager.cpp:273-330` | keeps mask, slots, epoll and counter in step, always asks for the legal operation, and trips an assertion if and only if the event is registered already |
| `FdEvents.DelEventCoherent` | `Coroutine/version2/IOManager.cpp:332-370` | removes exactly that event or changes nothing, and keeps coherence |
| `FdEvents.CancelEventCoherent` | `Coroutine/version2/IOManager.cpp:372-406` | likewise, and hands out exactly the work of that slot |
| `FdEvents.CancelAllCoherent` | `Coroutine/version2/IOManager.cpp:408-451` | fires every registered event once, leaves the fd unknown to epoll, and its last assertion never fails |
| `FdEvents.HandleReportExactly` | `Coroutine/version2/IOManager.cpp:198-246` | event by event: registered and reported, or registered with an error or hang-up reported, it leaves mask, slot and epoll; otherwise it stays in all three; nothing happens if no registered event is hit or the rest cannot be re-armed; coherence is kept and no assertion fails |
| `FdEvents.ReportFires` | `Coroutine/version2/IOManager.cpp:225-246` | a non-empty report fires unless epoll refuses to re-arm what is left |
| `FdEvents.GrownCoherent` | `Coroutine/version2/IOManager.cpp:259-288` | growing the table to 1.5 times the fd reaches the fd asked for and adds only unused contexts |
| `FdEvents.CloseCoherentExactly` | `Coroutine/version2/Hook.cpp:382-392` | `close` keeps the fd table in step with epoll if and only if the fd is known to the closing thread or has no event registered; it is then `cancelAll`, or nothing |
| `FdEvents.StuckForGood` | `Coroutine/version2/IOManager.cpp:298-307` | on an fd that epoll has forgotten while events are registered, every operation is refused without effect, or trips the assertion against double registration |
| `FdEvents.NoBitsNoEvents` | `Coroutine/version2/IOManager.cpp:125` | the number of set bits, which the pending counter is, is zero if and only if no event is registered |
| `FdEvents.InitialCoherent` | `Coroutine/version2/IOManager.cpp:45` | the 32 initial contexts are coherent |
| `FdTable.StepRefines` | `Coroutine/version2/IOManager.cpp:198-451` | the fd table is a map from fd and event to the work registered: each operation does to the map what it should, hands out the very callback or fiber registered, READ first, and reports success accordingly; `addEvent` fails its assertion if and only if the key is in the map |
| `FdTable.RunRefines` | `Coroutine/version2/IOManager.cpp:185-451` | over every run that registers nothing twice, all the work handed to the scheduler, in order, is what the map hands out |
| `FdTable.PendingIsSize` | `Coroutine/version2/IOManager.cpp:309-311` | the pending counter is the number of registrations |
| `FdTable.InitialRepresents` | `Coroutine/version2/IOManager.cpp:45` | a new table stands for the empty map |
| `IOManagerObjects.FdContext.TriggerEvent` | `Coroutine/version2/IOManager.cpp:88-103` | clears the bit and the slot of the object and queues its callback or fiber |
| `IOManagerObjects.IOManager.constructor` | `Coroutine/version2/IOManager.cpp:17-49` | starts with 32 unused contexts |
| `IOManagerObjects.IOManager.ContextResize` | `Coroutine/version2/IOManager.cpp:259-271` | cuts the table, or keeps it and fills it up with one fresh context per fd |
| `IOManagerObjects.IOManager.AddEvent` | `Coroutine/version2/IOManager.cpp:273-330` | the object's addEvent does what the specification says and returns 0 or -1 accordingly |
| `IOManagerObjects.IOManager.DelEvent` | `Coroutine/version2/IOManager.cpp:332-370` | likewise delEvent |
| `IOManagerObjects.IOManager.CancelEvent` | `Coroutine/version2/IOManager.cpp:372-406` | likewise cancelEvent, with the task it queues |
| `IOManagerObjects.IOManager.CancelAll` | `Coroutine/version2/IOManager.cpp:408-451` | likewise cancelAll, with the tasks it queues |
| `IOManagerObjects.IOManager.Close` | `Coroutine/version2/Hook.cpp:375-393` | likewise close, and the object is valid afterwards if and only if the close was careful |
| `IOManagerObjects.IOManager.HandleReport` | `Coroutine/version2/IOManager.cpp:198-246` | likewise one ready event |
| `IOManagerObjects.BatchStaysPossible` | `Coroutine/version2/IOManager.cpp:185-247` | handling one report leaves the remaining ones possible |
| `IOManagerObjects.ProcessBatch` | `Coroutine/version2/IOManager.cpp:185-247` | the loop over the ready events against its fold, coherent at the end |
| `IOManagerObjects.ScheduleExpired` | `Coroutine/version2/IOManager.cpp:174-181` | queues the callbacks of the expired timers in order |
| `IOManagerObjects.IdleRound` | `Coroutine/version2/IOManager.cpp:174-247` | one round of idle: expired timers first, then ready events, in that order on the queue |
| `IOManagerObjects.StopCheck` | `Coroutine/version2/IOManager.cpp:121-127` | with nobody in between, the three reads say stop if and only if stopped, no task queued or active, no event set in any context and no timer armed |
| `FiberObjects.Fiber.Resume` | `Coroutine/version2/Fiber.cpp:110-131` | READY becomes RUNNING and the fiber is the thread's current one |
| `FiberObjects.Fiber.Yield` | `Coroutine/version2/Fiber.cpp:136-159` | RUNNING becomes READY, TERM stays, and the current fiber is the thread's main fiber |
| `FiberObjects.Fiber.End` | `Coroutine/version2/Fiber.cpp:162-174` | an ended fiber is TERM and has dropped its function |
| `Hook.PendingIo.BeginWait` | `Coroutine/version2/Hook.cpp:98-125` | arms the timeout and registers the event; refused, it cancels the timer again |
| `Hook.PendingIo.EndWait` | `Coroutine/version2/Hook.cpp:126-134` | the timer is inactive afterwards, and ETIMEDOUT is given exactly when the callback has marked the call |
| `Hook.PendingIo.OnTimeout` | `Coroutine/version2/Hook.cpp:104-111` | marks the call once and cancels its event; a second time nothing |
| `Hook.WaitStepIsBeginWait` | `Coroutine/version2/Hook.cpp:96-125` | whatever BeginWait may leave of timers and fds by its contract is what the runtime's waiting step leaves of them, which then yields or returns -1 |
| `Hook.ResumeStepIsEndWait` | `Coroutine/version2/Hook.cpp:126-135` | likewise EndWait and the runtime's resuming step, which leaves `do_io` if and only if EndWait says so |
| `Hook.TimeoutStepIsOnTimeout` | `Coroutine/version2/Hook.cpp:104-111` | and OnTimeout and the step of the fiber that runs the timeout callback |
| `Hook.SleepExactly` | `Coroutine/version2/Hook.cpp:157` | sleep arms the time asked for if and only if it is at most 4294967 seconds; otherwise what is left of it modulo 2^32 milliseconds |
| `Hook.UsleepRoundsDown` | `Coroutine/version2/Hook.cpp:172` | usleep arms the whole milliseconds below the time asked for |
| `Hook.NanosleepExactly` | `Coroutine/version2/Hook.cpp:186-189` | for every time whose milliseconds a signed long holds: the whole milliseconds below it are armed if and only if they are not negative and fit an int; otherwise their low 32 bits as an int, a negative one as a word near 2^64 |
| `ByteBuffer.ExtendMakesRoom` | `ReactorHTTP-C/Buffer.c:46-79` | afterwards the room asked for is there and the contents are unchanged; capacity grows, by just that size, if and only if unread + size exceeds it, and the contents move to the front if and only if compaction makes the room |
| `ByteBuffer.ReceiveAppends` | `ReactorHTTP-C/Buffer.c:112-139` | the two segments of readv arrive as one, behind what was unread; capacity grows only beyond compaction, and by what the free tail does not hold |
| `ByteBuffer.FifoInBoundedSpace` | `ReactorHTTP-C/Buffer.c:46-166` | over every run, memcpy copying forward, received = sent followed by unread, and capacity is at most the initial one or twice the peak of unread bytes |
| `ByteBuffer.StepGood` | `ReactorHTTP-C/Buffer.c:91-166` | each append, receive and send keeps that |
| `ByteBuffer.EmptyBufferGood` | `ReactorHTTP-C/Buffer.c:19-30` | and holds of a new buffer |
| `ByteBuffer.CompactionOverlap` | `ReactorHTTP-C/Buffer.c:49-64` | `bufferExtendRoom` copies between overlapping regions if and only if the room must come from compaction and less has been read than is unread |
| `ByteBuffer.StepOverlapsExactly` | `ReactorHTTP-C/Buffer.c:91-139` | which appends and receives do, by their size |
| `ByteBuffer.OverlapReached` | `ReactorHTTP-C/Buffer.c:60` | a run from an empty buffer in which one does |
| `ByteBuffer.Buffer.constructor` | `ReactorHTTP-C/Buffer.c:19-30` | an empty buffer of that capacity |
| `ByteBuffer.Buffer.ExtendRoom` | `ReactorHTTP-C/Buffer.c:46-79` | the array version of bufferExtendRoom, moving or reallocating, against the specification |
| `ByteBuffer.Buffer.AppendData` | `ReactorHTTP-C/Buffer.c:91-103` | likewise bufferAppendData with its result |
| `ByteBuffer.Buffer.SocketRead` | `ReactorHTTP-C/Buffer.c:112-139` | likewise bufferSocketRead, failure and spill included |
| `ByteBuffer.Buffer.SendData` | `ReactorHTTP-C/Buffer.c:151-166` | likewise bufferSendData, partial and failed sends included |
| `ByteBuffer.Buffer.FindCRLF` | `ReactorHTTP-C/Buffer.c:141-149` | finds the first CRLF of the unread bytes |
| `PercentDecode.DecodeInPlace` | `ReactorHTTP-C/HttpRequest.c:286-310` | run with both cursors on one array, the result is the recursive decoding of the original C string, terminated, with nothing behind touched |
| `PercentDecode.DecodingStep` | `ReactorHTTP-C/HttpRequest.c:288-308` | a write behind the read cursor leaves everything unread intact |
| `PercentDecode.LookAhead` | `ReactorHTTP-C/HttpRequest.c:293` | the two look-aheads never leave the C string, and the test is that of an escape |
| `PercentDecode.HexDigitsExactly` | `ReactorHTTP-C/HttpRequest.c:272-283` | the hex digits are 0-9, a-f and A-F, each with its value |
| `PercentDecode.DecodeByRules` | `ReactorHTTP-C/HttpRequest.c:288-309` | a percent sign and two digits with values h and l stand for the byte 16h + l, and any other byte for itself |
| `PercentDecode.DecodeEncode` | `ReactorHTTP-C/HttpRequest.c:288-309` | a text decodes to s, each of its percent signs beginning an escape, if and only if it encodes s: byte by byte as it is or as an escape, with hex digits of either case |
| `PercentDecode.DecodeChangesEscapesOnly` | `ReactorHTTP-C/HttpRequest.c:293-306` | the text is unchanged if and only if no position starts an escape of a percent sign and two hex digits |
| `PercentDecode.DecodedNul` | `ReactorHTTP-C/HttpRequest.c:298` | the decoded text is free of NUL, so a C string as a whole, if and only if %00 stands nowhere in the input |
| `HttpParsing.RoundTrip` | `ReactorHTTP-C/HttpRequest.c:178-223` | parsing a printed request gives back every field in order, up to its first NUL, the url of a GET in any case decoded, and leaves exactly the bytes behind it, if the headers held and the new ones are at most twelve; else it overruns the array |
| `HttpParsing.DriveStep` | `ReactorHTTP-C/HttpRequest.c:183-210` | the loop by its rounds: a step, and after the one that completes the request its processing |
| `HttpParsing.ReadBack` | `ReactorHTTP-C/HttpRequest.c:112-223` | printing undoes parsing: accepted NUL-free input is the print of the fields read, then a line without ": " of which two bytes are gone; the request holds these fields, the url of a GET decoded |
| `HttpParsing.SplitAnywhere` | `ReactorHTTP-C/HttpRequest.c:141-214` | with the request line in, parsing a piece and resuming with the rest is parsing the whole |
| `HttpParsing.ChunksDoNotMatter` | `ReactorHTTP-C/HttpRequest.c:141-214` | however the bytes of the headers are cut up: same headers, state and leftover |
| `HttpParsing.SplitInsideLine` | `ReactorHTTP-C/HttpRequest.c:112-139` | in the request line a split is harmless if and only if the first piece holds a CRLF |
| `HttpParsing.LineIsSafe` | `ReactorHTTP-C/HttpRequest.c:97-129` | the request line is parsed without failed assertion or null pointer if and only if it is complete and is empty or has two spaces |
| `HttpParsing.EmptyFirstLine` | `ReactorHTTP-C/HttpRequest.c:119-138` | the parser waits on the request line exactly when the input starts with an empty line, and then for ever |
| `HttpParsing.ParseStep` | `ReactorHTTP-C/HttpRequest.c:112-176` | a step that succeeds leaves a proper suffix of the input and never goes back in state, so the driver loop ends |
| `HttpParsing.PathSurvives` | `ReactorHTTP-C/HttpRequest.c:178-223` | a path that a GET sends percent-encoded is in the request as it was |
| `HttpParsing.GetInAnyCase` | `ReactorHTTP-C/HttpRequest.c:219` | the method counts as GET if and only if it is these three letters, each in either case |
| `HttpParsing.ProcessExactly` | `ReactorHTTP-C/HttpRequest.c:216-223` | the url of a GET is decoded, everything else is left as it is, and when it is a null pointer that is handed on |
| `HttpParsing.SampleRequest` | `ReactorHTTP-C/HttpRequest.c:112-223` | one request byte by byte |
| `HttpRequestObjects.SplitRequestLine` | `ReactorHTTP-C/HttpRequest.c:96-110` | the token before the separator, cut at a NUL, and the place behind it |
| `HttpRequestObjects.HttpRequest.constructor` | `ReactorHTTP-C/HttpRequest.c:25-42` | a fresh request |
| `HttpRequestObjects.HttpRequest.AddHeader` | `ReactorHTTP-C/HttpRequest.c:76-81` | appends the header to those held |
| `HttpRequestObjects.HttpRequest.ParseLine` | `ReactorHTTP-C/HttpRequest.c:112-139` | on object and buffer: exactly the step of the specification, and untouched when it waits |
| `HttpRequestObjects.HttpRequest.ParseHeader` | `ReactorHTTP-C/HttpRequest.c:141-176` | likewise for one header line |
| `HttpRequestObjects.HttpRequest.ProcessRequest` | `ReactorHTTP-C/HttpRequest.c:216-223` | decodes the url of a GET, in any case of the letters, and leaves the rest of the request alone |
| `HttpRequestObjects.DecodeToken` | `ReactorHTTP-C/HttpRequest.c:223` | decoding a token in its own memory gives the decoded C string |
| `HttpRequestObjects.HttpRequest.Parse` | `ReactorHTTP-C/HttpRequest.c:178-214` | the driver loop terminates in the state and with the leftover of the specification, the url of a GET decoded, true if and only if finished |

## Left out

- System calls, `ucontext` switching, `dlsym`, allocation failure, logging: replaced by parameters or dropped. A refused `epoll_ctl` changes nothing.
- The fd API (`addEvent`, `delEvent`, `cancelEvent`, `cancelAll`) on other threads than the worker's: a removal between `epoll_wait` and the ready-event loop would trip the assertion at `IOManager.cpp:90`. Closing an fd there is a step.
- Duplicated descriptors: epoll keeps a registration until the last of them is closed; here it forgets the fd when that fd is closed.
- More than one scheduling worker: with several, `addEvent` publishes a fiber that is still running and the ready-event loop may trigger an event another thread has removed.
- `Fiber::reset` and the reuse of `cb_fiber`: the branch is dead, because `cb_fiber` is cleared after every task.
- The tickle pipe inside the transition system: `epoll_wait` may return at any moment there; the wake-up protocol is modelled by itself in `SleepSafety`.
- Wake-ups of a sleeping worker by `schedule` from other threads: `tickle` is skipped while the idle count is 0, and the worker then relies on its timeout.
- `delEvent` on a slot that holds a fiber: not a step of the runs, because it drops the fiber on purpose; `RuntimeSafety.DelEventKeepsWakeUps` says exactly when it is harmless.
- A fiber waiting on an event another fiber has already registered: the source asserts against it, and such a run ends in that assertion.
- The checks at the entry of `do_io` (hooks disabled, closed fd, not a socket) and its EINTR loop: they lead straight to the original function.
- `connect_with_timeout`: the same wait as `do_io`, without the retry.
- Programs that schedule the handle of a fiber themselves: `schedule` of a fiber that is not READY trips the assertion at `Scheduler.cpp:128`. The steps schedule new fibers, callbacks, and the running fiber just before it yields. A fiber registers itself for events only just before it yields or sleeps.
- `stop()` on another thread than the one that made the scheduler: the source asserts against it (`Scheduler.cpp:203`).
- Program timers with conditions (`addConditionTimer` called by the program): only the ones of `do_io` are modelled.
- Clock reading 0: the steps of the runtime take clock readings above 0, so that "no timer" and a deadline 2^64 - 1 ms away are never confused.
- TimerRuns.FiringsSpaced: assumes clock readings and intervals below 2^63, so that no deadline wraps; likewise `TimerRuns.NeverEarly` and `TimerRuns.OneShotFiresExactly`.
- Addresses of timers: they are numbered in the order of creation, so a new timer comes after those with the same deadline. Elsewhere in memory it may come first, and then claims a wake-up that is not needed.
- SleepSafety.SleepIsSafe: likewise; `SleepSafety.SleepIsSafeExactly` does without both conditions.
- RuntimeSafety.GracefulStop: assumes nothing from other threads behind the back of the stop check; `RuntimeSafety.ArmInTheWindow` and `RuntimeSafety.LateWorkIsLost` show why, and `RuntimeSafety.AllEndedExactly` does without.
- ByteBuffer.Buffer.ExtendRoom: sizes are unbounded integers and memcpy copies forward, as it would where the regions are apart; overflow of the int capacity and a failed `realloc` are not modelled. Where they are not apart is `ByteBuffer.StepOverlapsExactly`.
- HttpParsing.RoundTrip: fields free of CRLF, method and url free of spaces, keys free of ": "; other requests print to bytes that mean something else.
- HttpRequestObjects.HttpRequest.Parse: calls that run into the failed assertion, the null pointer or the thirteenth header are excluded by its precondition; `HttpParsing` models them as outcomes. Of processing the request only the decoding of the url is modelled; looking up the file and preparing the response are not part of this model.
- The state `ParseReqBody`: nothing ever sets it.
- `httpRequestGetHeader` (it matches prefixes), MIME types, sending files and directories.
- The Reactor's event loop, channel map, dispatchers, connections and thread pool; `ReactorHTTP-CPP`, `SimpleHTTP`, `Coroutine/version1`, `Coroutine/version3`: plumbing or near twins.
