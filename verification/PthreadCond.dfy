/** The condition variable of `src/pthread.rs`: one critical section of its wait state at a time. */
module PthreadCond {
  import opened Wrappers
  import opened PthreadMutex

  /** `PthreadCondWaitState`, who holds its host lock across a wait entry, and whether it was destroyed. */
  datatype CondVars = CondVars(waiters: nat, pending: nat, holder: Option<nat>, destroyed: bool)

  const FRESH_COND := CondVars(0, 0, None, false)

  /** `pthread_cond_signal`: one more credit, capped by the waiters; the flag says whether it notifies. */
  function SignalPass(v: CondVars): (CondVars, bool) {
    if v.waiters == 0 then (v, false)
    else (v.(pending := if v.pending + 1 <= v.waiters then v.pending + 1 else v.waiters), true)
  }

  /** `pthread_cond_broadcast`: a credit for every waiter. */
  function BroadcastPass(v: CondVars): (CondVars, bool) {
    if v.waiters == 0 then (v, false) else (v.(pending := v.waiters), true)
  }

  /** The wait loop's test: `None` to sleep (again), otherwise the code the wait will return.
      `expired` is a timed wait whose deadline has passed. */
  function TestPass(v: CondVars, expired: bool): (CondVars, Option<Errno>) {
    if v.pending == 0 && !expired then (v, None)
    else if v.pending == 0 then (v.(waiters := Decrement(v.waiters)), Some(ETIMEDOUT))
    else (v.(pending := v.pending - 1, waiters := Decrement(v.waiters)), Some(OK))
  }

  /** `PthreadCondState`: each method is one critical section of the wait state's host lock. */
  class CondState {
    var waiterCount: nat
    var pendingWakeups: nat

    function Vars(): CondVars
      reads this
    {
      CondVars(waiterCount, pendingWakeups, None, false)
    }

    constructor ()
      ensures Vars() == FRESH_COND
    {
      waiterCount, pendingWakeups := 0, 0;
    }

    method Signal() returns (notify: bool)
      modifies this
      ensures (Vars(), notify) == SignalPass(old(Vars()))
    {
      if waiterCount == 0 {
        return false;
      }
      pendingWakeups := pendingWakeups + 1;
      if waiterCount < pendingWakeups {
        pendingWakeups := waiterCount;
      }
      notify := true;
    }

    method Broadcast() returns (notify: bool)
      modifies this
      ensures (Vars(), notify) == BroadcastPass(old(Vars()))
    {
      if waiterCount == 0 {
        return false;
      }
      pendingWakeups := waiterCount;
      notify := true;
    }

    method Test(expired: bool) returns (code: Option<Errno>)
      modifies this
      ensures (Vars(), code) == TestPass(old(Vars()), expired)
    {
      if pendingWakeups == 0 && !expired {
        return None;
      }
      var wokeFromSignal := pendingWakeups != 0;
      if wokeFromSignal {
        pendingWakeups := pendingWakeups - 1;
      }
      waiterCount := Decrement(waiterCount);
      code := Some(if wokeFromSignal then OK else ETIMEDOUT);
    }
  }
}
