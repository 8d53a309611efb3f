/** The mutex of `src/pthread.rs`: one critical section of its host lock at a time. */
module PthreadMutex {
  import opened Wrappers

  datatype MutexType = NORMAL | RECURSIVE | ERRORCHECK

  /** `PthreadMutexLockState` with the mutex type; counters are unbounded. */
  datatype MutexVars = MutexVars(
    kind: MutexType, owner: Option<nat>, depth: nat, waiters: nat, condWaiters: nat, live: bool)

  function FreshMutex(kind: MutexType): MutexVars {
    MutexVars(kind, None, 0, 0, 0, true)
  }

  /** How one pass of the lock loop ends: with a return code, or asleep on the host condvar. */
  datatype Pass = Return(code: Errno) | Sleep

  /** The return code, once there is one. */
  function CodeOf(pass: Pass): Option<Errno> {
    match pass
    case Sleep => None
    case Return(code) => Some(code)
  }

  function Decrement(n: nat): nat {
    if n == 0 then 0 else n - 1
  }

  /** One pass of the `mutex_lock_internal` loop by thread `t`. */
  function LockPass(v: MutexVars, t: nat, tryOnly: bool): (MutexVars, Pass) {
    match v.owner
    case None => (v.(owner := Some(t), depth := 1), Return(OK))
    case Some(o) =>
      if o == t && v.kind == RECURSIVE then (v.(depth := v.depth + 1), Return(OK))
      else if o == t && v.kind == ERRORCHECK then (v, Return(if tryOnly then EBUSY else EDEADLK))
      else if tryOnly then (v, Return(EBUSY))
      else (v.(waiters := v.waiters + 1), Sleep)
  }

  /** Coming back from the host condvar: the waiter is uncounted and the loop runs again. */
  function ResumePass(v: MutexVars, t: nat): (MutexVars, Pass) {
    LockPass(v.(waiters := Decrement(v.waiters)), t, false)
  }

  /** `mutex_unlock_internal` up to its notification; the flag says whether one follows. */
  function UnlockPass(v: MutexVars, t: nat, forCondWait: bool): (MutexVars, Errno, bool) {
    if v.owner != Some(t) then (v, EPERM, false)
    else if v.kind == RECURSIVE && 1 < v.depth && !forCondWait then (v.(depth := v.depth - 1), OK, false)
    else (v.(owner := None, depth := 0), OK, true)
  }

  /** `pthread_mutex_destroy` of an initialised mutex. */
  function DestroyCode(v: MutexVars): Errno {
    if v.owner.Some? || v.waiters != 0 || v.condWaiters != 0 then EBUSY else OK
  }

  /** `PthreadMutexState`: each method is one critical section of the host lock. */
  class MutexState {
    const kind: MutexType
    var owner: Option<nat>
    var recursionDepth: nat
    var waiterCount: nat
    var condWaiterCount: nat

    function Vars(): MutexVars
      reads this
    {
      MutexVars(kind, owner, recursionDepth, waiterCount, condWaiterCount, true)
    }

    constructor (mutexType: MutexType)
      ensures Vars() == FreshMutex(mutexType)
    {
      kind := mutexType;
      owner, recursionDepth, waiterCount, condWaiterCount := None, 0, 0, 0;
    }

    method Lock(current: nat, tryOnly: bool) returns (pass: Pass)
      modifies this
      ensures (Vars(), pass) == LockPass(old(Vars()), current, tryOnly)
    {
      if owner == None {
        owner := Some(current);
        recursionDepth := 1;
        return Return(OK);
      }
      if owner == Some(current) {
        if kind == RECURSIVE {
          recursionDepth := recursionDepth + 1;
          return Return(OK);
        }
        if kind == ERRORCHECK {
          return Return(if tryOnly then EBUSY else EDEADLK);
        }
      }
      if tryOnly {
        return Return(EBUSY);
      }
      waiterCount := waiterCount + 1;
      pass := Sleep;
    }

    method Resume(current: nat) returns (pass: Pass)
      modifies this
      ensures (Vars(), pass) == ResumePass(old(Vars()), current)
    {
      waiterCount := Decrement(waiterCount);
      pass := Lock(current, false);
    }

    method Unlock(current: nat, forCondWait: bool) returns (code: Errno, notify: bool)
      modifies this
      ensures (Vars(), code, notify) == UnlockPass(old(Vars()), current, forCondWait)
    {
      if owner != Some(current) {
        return EPERM, false;
      }
      if kind == RECURSIVE && recursionDepth > 1 && !forCondWait {
        recursionDepth := recursionDepth - 1;
        return OK, false;
      }
      owner := None;
      recursionDepth := 0;
      code, notify := OK, true;
    }

    method AddCondWaiterReference(current: nat) returns (depth: Result<nat, Errno>)
      modifies this
      ensures old(owner) != Some(current) ==> depth == Failure(EPERM) && Vars() == old(Vars())
      ensures old(owner) == Some(current) ==>
        depth == Success(old(recursionDepth)) && Vars() == old(Vars()).(condWaiters := old(condWaiterCount) + 1)
    {
      if owner != Some(current) {
        return Failure(EPERM);
      }
      condWaiterCount := condWaiterCount + 1;
      depth := Success(recursionDepth);
    }

    method RemoveCondWaiterReference()
      modifies this
      ensures Vars() == old(Vars()).(condWaiters := Decrement(old(condWaiterCount)))
    {
      condWaiterCount := Decrement(condWaiterCount);
    }

    /** `mutex_restore_cond_wait_lock_depth` from the return of its first `mutex_lock_internal`, whose code
        is `relock`; nobody else can touch the owner's depth then. */
    method RestoreDepth(current: nat, relock: Errno, depth: nat) returns (code: Errno)
      requires relock == OK ==> owner == Some(current) && recursionDepth == 1
      modifies this
      ensures code == relock
      ensures relock != OK ==> Vars() == old(Vars())
      ensures relock == OK ==>
        Vars() == old(Vars()).(depth := if kind == RECURSIVE && 1 < depth then depth else 1)
    {
      if relock != OK {
        return relock;
      }
      if kind != RECURSIVE || depth <= 1 {
        return OK;
      }
      for i := 1 to depth
        invariant Vars() == old(Vars()).(depth := i)
      {
        var pass := Lock(current, false);
        assert pass == Return(OK);
      }
      code := OK;
    }
  }
}
