// Vocabulary shared by every module of the coroutine runtime model.
module Common {

  datatype Option<+T> = None | Some(value: T)

  // uint64_t: every deadline, interval and clock reading of the runtime.
  const TWO64: int := 0x1_0000_0000_0000_0000

  type Word = x: int | 0 <= x < 0x1_0000_0000_0000_0000

  // ~0ull: getNextTimer's "there is no timer".
  const FOREVER: Word := 0xFFFF_FFFF_FFFF_FFFF

  // Unsigned 64-bit addition and subtraction, with wrap-around.
  function Add(a: Word, b: Word): Word {
    if a + b < TWO64 then a + b else a + b - TWO64
  }

  function Sub(a: Word, b: Word): Word {
    if a >= b then a - b else a - b + TWO64
  }

  // IOManager::Event without NONE; an event mask is a set of these.
  datatype Event = Read | Write

  // The function objects the runtime stores. A null std::function is None of Option<Callback>.
  datatype Callback =
    | UserCb(tag: nat)                               // anything the program supplies
    | WakeFiber(fiber: nat)                          // sleep's bound schedule(fiber, -1)
    | IoTimeout(info: nat, fd: nat, event: Event)    // do_io's timeout lambda behind OnTimer

  datatype Work = FiberWork(fiber: nat) | CbWork(cb: Callback)

  // ScheduleTask: work and the thread it is pinned to, ANY_THREAD when it is not.
  datatype Task = Task(work: Work, thread: int)

  const ANY_THREAD: int := -1
}
