/** The read-write lock of `src/pthread.rs`: one critical section of its host lock at a time. */
module PthreadRwlock {
  import opened Wrappers
  import opened PthreadMutex

  /** `PthreadRwlockLockState`. */
  datatype RwVars = RwVars(
    readers: map<nat, nat>, total: nat, writer: Option<nat>,
    waitingReaders: nat, waitingWriters: nat, destroyed: bool)

  const FRESH_RWLOCK := RwVars(map[], 0, None, 0, 0, false)

  function DepthOf(v: RwVars, t: nat): nat {
    if t in v.readers then v.readers[t] else 0
  }

  /** The test that lets thread `t` take a read lock: writers that wait go first, except past their own readers. */
  predicate MayRead(v: RwVars, t: nat) {
    v.writer == None && (v.waitingWriters == 0 || t in v.readers)
  }

  predicate MayWrite(v: RwVars) {
    v.writer == None && v.total == 0
  }

  function LeaveReaders(v: RwVars, registered: bool): RwVars {
    if registered then v.(waitingReaders := Decrement(v.waitingReaders)) else v
  }

  function LeaveWriters(v: RwVars, registered: bool): RwVars {
    if registered then v.(waitingWriters := Decrement(v.waitingWriters)) else v
  }

  /** One pass of the `rwlock_rdlock_internal` loop; `registered` once the thread is counted as waiting. */
  function ReadPass(v: RwVars, t: nat, tryOnly: bool, registered: bool): (RwVars, Pass) {
    var left := LeaveReaders(v, registered);
    if v.destroyed then (left, Return(EINVAL))
    else if MayRead(v, t) then
      if DepthOf(v, t) == USIZE_MAX || v.total == USIZE_MAX then (left, Return(EAGAIN))
      else (left.(readers := v.readers[t := DepthOf(v, t) + 1], total := v.total + 1), Return(OK))
    else if v.writer == Some(t) then (left, Return(if tryOnly then EBUSY else EDEADLK))
    else if tryOnly then (v, Return(EBUSY))
    else (if registered then v else v.(waitingReaders := v.waitingReaders + 1), Sleep)
  }

  /** One pass of the `rwlock_wrlock_internal` loop. */
  function WritePass(v: RwVars, t: nat, tryOnly: bool, registered: bool): (RwVars, Pass) {
    var left := LeaveWriters(v, registered);
    if v.destroyed then (left, Return(EINVAL))
    else if v.writer == Some(t) then (left, Return(if tryOnly then EBUSY else EDEADLK))
    else if MayWrite(v) then (left.(writer := Some(t)), Return(OK))
    else if tryOnly then (v, Return(EBUSY))
    else (if registered then v else v.(waitingWriters := v.waitingWriters + 1), Sleep)
  }

  /** `rwlock_unlock_internal` up to its notification; the flag says whether one follows. */
  function UnlockRwPass(v: RwVars, t: nat): (RwVars, Errno, bool) {
    if v.destroyed then (v, EINVAL, false)
    else if v.writer == Some(t) then (v.(writer := None), OK, true)
    else if t !in v.readers then (v, EINVAL, false)
    else
      var depth := Decrement(v.readers[t]);
      var total := Decrement(v.total);
      (v.(readers := if depth == 0 then v.readers - {t} else v.readers[t := depth], total := total), OK, total == 0)
  }

  /** `rwlock_mark_destroyed`. */
  function DestroyPass(v: RwVars): (RwVars, Errno) {
    if v.destroyed then (v, EINVAL)
    else if v.writer.Some? || v.total != 0 || v.waitingReaders != 0 || v.waitingWriters != 0 then (v, EBUSY)
    else (v.(destroyed := true), OK)
  }

  /** `PthreadRwlockState`: each method is one critical section of the host lock. */
  class RwlockState {
    var readerOwners: map<nat, nat>
    var totalReaders: nat
    var writerOwner: Option<nat>
    var waitingReaders: nat
    var waitingWriters: nat
    var destroyed: bool

    function Vars(): RwVars
      reads this
    {
      RwVars(readerOwners, totalReaders, writerOwner, waitingReaders, waitingWriters, destroyed)
    }

    constructor ()
      ensures Vars() == FRESH_RWLOCK
    {
      readerOwners, totalReaders, writerOwner := map[], 0, None;
      waitingReaders, waitingWriters, destroyed := 0, 0, false;
    }

    method Read(current: nat, tryOnly: bool, registered: bool) returns (pass: Pass)
      modifies this
      ensures (Vars(), pass) == ReadPass(old(Vars()), current, tryOnly, registered)
    {
      if destroyed {
        if registered { waitingReaders := Decrement(waitingReaders); }
        return Return(EINVAL);
      }
      if writerOwner == None && (waitingWriters == 0 || current in readerOwners) {
        if registered { waitingReaders := Decrement(waitingReaders); }
        var depth := if current in readerOwners then readerOwners[current] else 0;
        if depth == USIZE_MAX || totalReaders == USIZE_MAX {
          return Return(EAGAIN);
        }
        readerOwners := readerOwners[current := depth + 1];
        totalReaders := totalReaders + 1;
        return Return(OK);
      }
      if writerOwner == Some(current) {
        if registered { waitingReaders := Decrement(waitingReaders); }
        return Return(if tryOnly then EBUSY else EDEADLK);
      }
      if tryOnly {
        return Return(EBUSY);
      }
      if !registered { waitingReaders := waitingReaders + 1; }
      pass := Sleep;
    }

    method Write(current: nat, tryOnly: bool, registered: bool) returns (pass: Pass)
      modifies this
      ensures (Vars(), pass) == WritePass(old(Vars()), current, tryOnly, registered)
    {
      if destroyed {
        if registered { waitingWriters := Decrement(waitingWriters); }
        return Return(EINVAL);
      }
      if writerOwner == Some(current) {
        if registered { waitingWriters := Decrement(waitingWriters); }
        return Return(if tryOnly then EBUSY else EDEADLK);
      }
      if writerOwner == None && totalReaders == 0 {
        if registered { waitingWriters := Decrement(waitingWriters); }
        writerOwner := Some(current);
        return Return(OK);
      }
      if tryOnly {
        return Return(EBUSY);
      }
      if !registered { waitingWriters := waitingWriters + 1; }
      pass := Sleep;
    }

    method Unlock(current: nat) returns (code: Errno, notify: bool)
      modifies this
      ensures (Vars(), code, notify) == UnlockRwPass(old(Vars()), current)
    {
      if destroyed {
        return EINVAL, false;
      }
      if writerOwner == Some(current) {
        writerOwner := None;
        return OK, true;
      }
      if current !in readerOwners {
        return EINVAL, false;
      }
      var depth := Decrement(readerOwners[current]);
      totalReaders := Decrement(totalReaders);
      if depth == 0 {
        readerOwners := readerOwners - {current};
      } else {
        readerOwners := readerOwners[current := depth];
      }
      code, notify := OK, totalReaders == 0;
    }

    method MarkDestroyed() returns (code: Errno)
      modifies this
      ensures (Vars(), code) == DestroyPass(old(Vars()))
    {
      if destroyed {
        return EINVAL;
      }
      if writerOwner.Some? || totalReaders != 0 || waitingReaders != 0 || waitingWriters != 0 {
        return EBUSY;
      }
      destroyed := true;
      code := OK;
    }
  }
}
