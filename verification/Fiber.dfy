// Fiber.cpp's state machine on objects: resume, yield and the tail of MainFunc, with the
// thread-local current fiber. Context switching itself is not part of this model.
module FiberObjects {
  import opened Common
  import R = Runtime
  import S = RuntimeSafety

  // t_fiber and t_thread_fiber of one thread.
  class ThreadFibers {
    var current: Fiber
    const main: Fiber

    constructor (main: Fiber)
      ensures this.main == main && current == main
    {
      this.main, current := main, main;
    }
  }

  class Fiber {
    const id: nat
    var state: R.FiberState
    var cb: Option<R.Body>

    constructor (id: nat, cb: R.Body)
      ensures this.id == id && state == R.READY && this.cb == Some(cb)
    {
      this.id, state, this.cb := id, R.READY, Some(cb);
    }

    // Asserts that the fiber is neither ended nor running already.
    method Resume(t: ThreadFibers)
      requires state != R.TERM && state != R.RUNNING
      modifies this`state, t`current
      ensures state == R.RUNNING && t.current == this
      ensures S.Follows(old(state), state)
    {
      t.current := this;
      state := R.RUNNING;
    }

    // The thread-local goes back to the thread's main fiber, whichever fiber is switched to.
    method Yield(t: ThreadFibers)
      requires state == R.RUNNING || state == R.TERM
      modifies this`state, t`current
      ensures t.current == t.main
      ensures state == if old(state) == R.TERM then R.TERM else R.READY
      ensures S.Follows(old(state), state)
    {
      t.current := t.main;
      if state != R.TERM {
        state := R.READY;
      }
    }

    // MainFunc once the fiber's function has returned.
    method End(t: ThreadFibers)
      requires state == R.RUNNING && t.current == this
      modifies this`state, this`cb, t`current
      ensures state == R.TERM && cb == None && t.current == t.main
      ensures S.Follows(old(state), state)
    {
      cb := None;
      state := R.TERM;
      Yield(t);
    }
  }
}
