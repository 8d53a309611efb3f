/** Safety of the read-write lock over every run. */
module RwlockSafety {
  import opened Wrappers
  import opened Counting
  import opened PthreadMutex
  import opened PthreadRwlock
  import opened RwlockSystem

  // ---- One critical section ----

  lemma NoReadersAtZero(v: RwVars)
    requires OwnersOk(v) && v.total == 0
    ensures v.readers == map[]
  {
    if t :| t in v.readers {
      SumDepthsWithout(v.readers, t);
    }
  }

  /** What every critical section of thread `t` leaves alone for the others. */
  ghost predicate OthersKept(v: RwVars, v': RwVars, t: nat) {
    && (forall u :: u != t ==> (u in v'.readers <==> u in v.readers))
    && (v'.writer == v.writer
        || ((v.writer == None || v.writer == Some(t)) && (v'.writer == None || v'.writer == Some(t))))
  }

  /** The section opens the lock to no sleeper that it was closed to. */
  ghost predicate OpensNothing(v: RwVars, v': RwVars, t: nat) {
    && (forall u :: u != t && u !in v.readers && MayRead(v', u) ==> MayRead(v, u))
    && (MayWrite(v') ==> MayWrite(v))
  }

  lemma ReadPassOk(v: RwVars, t: nat, tryOnly: bool, registered: bool)
    requires OwnersOk(v) && (registered ==> 1 <= v.waitingReaders && !tryOnly)
    ensures var (v', pass) := ReadPass(v, t, tryOnly, registered);
      && OwnersOk(v') && OthersKept(v, v', t) && OpensNothing(v, v', t)
      && v'.waitingReaders == v.waitingReaders - One(registered) + One(pass.Sleep?)
      && v'.waitingWriters == v.waitingWriters
      && (pass.Sleep? ==> t !in v'.readers && v'.writer != Some(t) && !MayRead(v', t))
  {
    if v.total == 0 { NoReadersAtZero(v); }
    SumDepthsSet(v.readers, t, DepthOf(v, t) + 1);
  }

  lemma WritePassOk(v: RwVars, t: nat, tryOnly: bool, registered: bool)
    requires OwnersOk(v) && (registered ==> 1 <= v.waitingWriters && !tryOnly)
    ensures var (v', pass) := WritePass(v, t, tryOnly, registered);
      && OwnersOk(v') && OthersKept(v, v', t) && OpensNothing(v, v', t)
      && v'.waitingWriters == v.waitingWriters - One(registered) + One(pass.Sleep?)
      && v'.waitingReaders == v.waitingReaders
      && (pass.Sleep? ==> v'.writer != Some(t) && !MayWrite(v'))
  {
  }

  lemma UnlockRwPassOk(v: RwVars, t: nat)
    requires OwnersOk(v)
    ensures var (v', code, notify) := UnlockRwPass(v, t);
      && OwnersOk(v') && OthersKept(v, v', t)
      && v'.waitingReaders == v.waitingReaders && v'.waitingWriters == v.waitingWriters
      && (!notify ==> OpensNothing(v, v', t))
  {
    if t in v.readers {
      SumDepthsWithout(v.readers, t);
      SumDepthsSet(v.readers, t, Decrement(v.readers[t]));
    }
  }

  // ---- One event ----

  lemma WaitersMove(pcs: map<nat, RwPC>, t: nat, q: RwPC)
    requires t in pcs
    ensures WaitingToRead(pcs[t := q])
         == WaitingToRead(pcs) - One(pcs[t] == ReadAsleep || pcs[t] == ReadWoken)
          + One(q == ReadAsleep || q == ReadWoken)
    ensures WaitingToWrite(pcs[t := q])
         == WaitingToWrite(pcs) - One(pcs[t] == WriteAsleep || pcs[t] == WriteWoken)
          + One(q == WriteAsleep || q == WriteWoken)
  {
    CountMove(pcs, t, q, (pc: RwPC) => pc == ReadAsleep || pc == ReadWoken);
    CountMove(pcs, t, q, (pc: RwPC) => pc == WriteAsleep || pc == WriteWoken);
  }

  /** A section of thread `t` that notifies, or opens nothing, loses no wakeup. */
  lemma SectionLosesNone(s: RwState, v': RwVars, t: nat, q: RwPC)
    requires t in s.pcs && s.pcs[t] != NotifyingAll && NoneLost(s)
    requires forall u :: u in s.pcs ==> WaiterOk(s.v, u, s.pcs[u])
    requires q == NotifyingAll || (OpensNothing(s.v, v', t) && !Stranded(RwState(v', s.pcs[t := q]), t))
    ensures NoneLost(RwState(v', s.pcs[t := q]))
  {
    var s' := RwState(v', s.pcs[t := q]);
    if q == NotifyingAll {
      assert s'.pcs[t] == NotifyingAll;
    } else {
      forall u | Stranded(s', u)
        ensures SomebodyNotifies(s'.pcs)
      {
        assert Stranded(s, u);
        var n :| n in s.pcs && s.pcs[n] == NotifyingAll;
        assert s'.pcs[n] == NotifyingAll;
      }
    }
  }

  lemma SectionKeeps(s: RwState, v': RwVars, t: nat, q: RwPC)
    requires RwInv(s) && t in s.pcs && s.pcs[t] != NotifyingAll
    requires OwnersOk(v') && OthersKept(s.v, v', t) && WaiterOk(v', t, q)
    requires v'.waitingReaders == s.v.waitingReaders
      - One(s.pcs[t] == ReadAsleep || s.pcs[t] == ReadWoken) + One(q == ReadAsleep || q == ReadWoken)
    requires v'.waitingWriters == s.v.waitingWriters
      - One(s.pcs[t] == WriteAsleep || s.pcs[t] == WriteWoken) + One(q == WriteAsleep || q == WriteWoken)
    requires q == NotifyingAll || (OpensNothing(s.v, v', t) && !Stranded(RwState(v', s.pcs[t := q]), t))
    ensures RwInv(RwState(v', s.pcs[t := q]))
  {
    WaitersMove(s.pcs, t, q);
    SectionLosesNone(s, v', t, q);
    hide OwnersOk, NoneLost, WaitingToRead, WaitingToWrite, OpensNothing, Stranded;
    var s' := RwState(v', s.pcs[t := q]);
    forall u | u in s'.pcs
      ensures WaiterOk(s'.v, u, s'.pcs[u])
    {
      assert WaiterOk(s.v, u, s.pcs[u]);
    }
  }

  lemma WaiterCounted(pcs: map<nat, RwPC>, t: nat)
    requires t in pcs
    ensures pcs[t] == ReadWoken ==> 1 <= WaitingToRead(pcs)
    ensures pcs[t] == WriteWoken ==> 1 <= WaitingToWrite(pcs)
  {
    CountPositive(pcs, (pc: RwPC) => pc == ReadAsleep || pc == ReadWoken);
    CountPositive(pcs, (pc: RwPC) => pc == WriteAsleep || pc == WriteWoken);
  }

  lemma ReadKeeps(s: RwState, t: nat, tryOnly: bool, registered: bool)
    requires RwInv(s) && !(tryOnly && registered)
    requires t in s.pcs && s.pcs[t] == if registered then ReadWoken else Outside
    ensures var r := ReadPass(s.v, t, tryOnly, registered); RwInv(RwState(r.0, s.pcs[t := AfterRead(r)]))
  {
    WaiterCounted(s.pcs, t);
    ReadPassOk(s.v, t, tryOnly, registered);
    hide ReadPass, OwnersOk, WaitingToRead, WaitingToWrite, OpensNothing;
    var r := ReadPass(s.v, t, tryOnly, registered);
    SectionKeeps(s, r.0, t, AfterRead(r));
  }

  lemma WriteKeeps(s: RwState, t: nat, tryOnly: bool, registered: bool)
    requires RwInv(s) && !(tryOnly && registered)
    requires t in s.pcs && s.pcs[t] == if registered then WriteWoken else Outside
    ensures var r := WritePass(s.v, t, tryOnly, registered); RwInv(RwState(r.0, s.pcs[t := AfterWrite(r)]))
  {
    WaiterCounted(s.pcs, t);
    WritePassOk(s.v, t, tryOnly, registered);
    hide WritePass, OwnersOk, WaitingToRead, WaitingToWrite, OpensNothing;
    var r := WritePass(s.v, t, tryOnly, registered);
    SectionKeeps(s, r.0, t, AfterWrite(r));
  }

  lemma RwUnlockKeeps(s: RwState, t: nat)
    requires RwInv(s) && t in s.pcs && s.pcs[t] == Outside
    ensures var (v, code, notify) := UnlockRwPass(s.v, t);
      RwInv(RwState(v, s.pcs[t := if notify then NotifyingAll else Outside]))
  {
    UnlockRwPassOk(s.v, t);
    hide UnlockRwPass, OwnersOk, WaitingToRead, WaitingToWrite, OpensNothing;
    var (v, code, notify) := UnlockRwPass(s.v, t);
    SectionKeeps(s, v, t, if notify then NotifyingAll else Outside);
  }

  lemma RwDestroyKeeps(s: RwState, t: nat)
    requires RwInv(s) && t in s.pcs && s.pcs[t] == Outside
    ensures var (v, code) := DestroyPass(s.v);
      RwInv(RwState(v, s.pcs[t := if code == OK then NotifyingAll else Outside]))
  {
    hide WaitingToRead, WaitingToWrite;
    var (v, code) := DestroyPass(s.v);
    SectionKeeps(s, v, t, if code == OK then NotifyingAll else Outside);
  }

  lemma RwWakeKeeps(s: RwState, t: nat)
    requires RwInv(s) && t in s.pcs && WakenedRw(s.pcs[t]) != s.pcs[t]
    ensures RwInv(RwState(s.v, s.pcs[t := WakenedRw(s.pcs[t])]))
  {
    hide OwnersOk, WaitingToRead, WaitingToWrite;
    SectionKeeps(s, s.v, t, WakenedRw(s.pcs[t]));
  }

  lemma SameWaiters(pcs: map<nat, RwPC>, pcs': map<nat, RwPC>)
    requires pcs.Keys == pcs'.Keys
    requires forall u :: u in pcs ==> pcs'[u] == WakenedRw(pcs[u]) || (pcs[u] == NotifyingAll && pcs'[u] == Outside)
    ensures WaitingToRead(pcs') == WaitingToRead(pcs) && WaitingToWrite(pcs') == WaitingToWrite(pcs)
  {
    var r := (pc: RwPC) => pc == ReadAsleep || pc == ReadWoken;
    var w := (pc: RwPC) => pc == WriteAsleep || pc == WriteWoken;
    assert ThreadsAt(pcs, r) == ThreadsAt(pcs', r);
    assert ThreadsAt(pcs, w) == ThreadsAt(pcs', w);
  }

  lemma RwNotifyKeeps(s: RwState, t: nat)
    requires RwInv(s) && t in s.pcs && s.pcs[t] == NotifyingAll
    ensures RwInv(RwState(s.v, (map u | u in s.pcs :: WakenedRw(s.pcs[u]))[t := Outside]))
  {
    var s' := RwState(s.v, (map u | u in s.pcs :: WakenedRw(s.pcs[u]))[t := Outside]);
    SameWaiters(s.pcs, s'.pcs);
    hide OwnersOk, WaitingToRead, WaitingToWrite;
    forall u | u in s'.pcs
      ensures WaiterOk(s'.v, u, s'.pcs[u])
    {
      assert WaiterOk(s.v, u, s.pcs[u]);
    }
  }

  lemma RwStepKeeps(s: RwState, e: RwEvent)
    requires RwInv(s) && RwStep(s, e).Some?
    ensures RwInv(RwStep(s, e).value)
  {
    hide RwInv, ReadPass, WritePass, UnlockRwPass, DestroyPass;
    match e {
      case ReadLock(t, tryOnly) => ReadKeeps(s, t, tryOnly, false);
      case WriteLock(t, tryOnly) => WriteKeeps(s, t, tryOnly, false);
      case RwUnlock(t) => RwUnlockKeeps(s, t);
      case RwDestroy(t) => RwDestroyKeeps(s, t);
      case RwWake(t) => RwWakeKeeps(s, t);
      case RwResume(t) =>
        if s.pcs[t] == ReadWoken { ReadKeeps(s, t, false, true); } else { WriteKeeps(s, t, false, true); }
      case RwNotifyAll(t) => RwNotifyKeeps(s, t);
    }
  }

  lemma {:induction false} RwRunKeeps(s: RwState, events: seq<RwEvent>)
    requires RwInv(s) && RwRun(s, events).Some?
    ensures RwInv(RwRun(s, events).value)
    decreases |events|
  {
    hide RwInv, RwStep;
    if events != [] {
      RwStepKeeps(s, events[0]);
      RwRunKeeps(RwStep(s, events[0]).value, events[1..]);
    }
  }

  lemma RwReachableOk(s: RwState)
    requires RwReachable(s)
    ensures RwInv(s)
  {
    var s0, events :| RwInit(s0) && RwRun(s0, events) == Some(s);
    CountPositive(s0.pcs, (pc: RwPC) => pc == ReadAsleep || pc == ReadWoken);
    CountPositive(s0.pcs, (pc: RwPC) => pc == WriteAsleep || pc == WriteWoken);
    RwRunKeeps(s0, events);
  }

  // ---- Main results ----

  /** In every reachable state a writer excludes readers, the reader total is the sum of the depths,
      the waiter counters are exact, and a destroyed lock has no owner and no waiter. */
  lemma RwlockSafe(s: RwState)
    requires RwReachable(s)
    ensures s.v.writer.Some? ==> s.v.readers == map[] && s.v.total == 0
    ensures s.v.total == SumDepths(s.v.readers) && forall t :: t in s.v.readers ==> 1 <= s.v.readers[t]
    ensures s.v.waitingReaders == |set t | t in s.pcs && (s.pcs[t] == ReadAsleep || s.pcs[t] == ReadWoken)|
    ensures s.v.waitingWriters == |set t | t in s.pcs && (s.pcs[t] == WriteAsleep || s.pcs[t] == WriteWoken)|
    ensures s.v.destroyed ==> s.v.writer == None && s.v.readers == map[]
    ensures s.v.destroyed ==> s.v.waitingReaders == 0 && s.v.waitingWriters == 0
  {
    RwReachableOk(s);
    if s.v.total == 0 { NoReadersAtZero(s.v); }
    assert ThreadsAt(s.pcs, (pc: RwPC) => pc == ReadAsleep || pc == ReadWoken)
        == set t | t in s.pcs && (s.pcs[t] == ReadAsleep || s.pcs[t] == ReadWoken);
    assert ThreadsAt(s.pcs, (pc: RwPC) => pc == WriteAsleep || pc == WriteWoken)
        == set t | t in s.pcs && (s.pcs[t] == WriteAsleep || s.pcs[t] == WriteWoken);
  }

  /** No lost wakeup: a sleeper the lock would let through now has a `notify_all` outstanding. */
  lemma RwlockNoLostWakeup(s: RwState, t: nat)
    requires RwReachable(s) && t in s.pcs
    requires (s.pcs[t] == ReadAsleep && MayRead(s.v, t)) || (s.pcs[t] == WriteAsleep && MayWrite(s.v))
    ensures exists u :: u in s.pcs && s.pcs[u] == NotifyingAll
  {
    RwReachableOk(s);
    assert Stranded(s, t);
  }

  /** Writer preference: a thread becomes a reader only while no writer owns the lock or waits for it. */
  lemma WriterPreference(s: RwState, e: RwEvent, u: nat)
    requires RwReachable(s) && RwStep(s, e).Some?
    requires u !in s.v.readers && u in RwStep(s, e).value.v.readers
    ensures u == e.t && s.v.writer == None && s.v.waitingWriters == 0 && !s.v.destroyed
  {
  }

  /** Once destroyed, always destroyed: whatever follows, no thread owns the lock again. */
  lemma {:induction false} DestroyedForGood(s: RwState, events: seq<RwEvent>)
    requires RwReachable(s) && s.v.destroyed && RwRun(s, events).Some?
    ensures var s' := RwRun(s, events).value;
      s'.v.destroyed && s'.v.writer == None && s'.v.readers == map[]
  {
    RwReachableOk(s);
    DestroyedStays(s, events);
  }

  lemma {:induction false} DestroyedStays(s: RwState, events: seq<RwEvent>)
    requires RwInv(s) && s.v.destroyed && RwRun(s, events).Some?
    ensures var s' := RwRun(s, events).value;
      s'.v.destroyed && s'.v.writer == None && s'.v.readers == map[]
    decreases |events|
  {
    if events == [] {
      NoReadersAtZero(s.v);
    } else {
      RwStepKeeps(s, events[0]);
      DestroyedOneStep(s, events[0]);
      DestroyedStays(RwStep(s, events[0]).value, events[1..]);
    }
  }

  lemma DestroyedOneStep(s: RwState, e: RwEvent)
    requires s.v.destroyed && RwStep(s, e).Some?
    ensures RwStep(s, e).value.v.destroyed
  {
  }

  /** `pthread_rwlock_destroy` succeeds exactly when nobody owns the lock or waits for it. */
  lemma RwlockDestroyExact(s: RwState)
    requires RwReachable(s)
    ensures DestroyPass(s.v).1 == OK <==>
      && !s.v.destroyed && s.v.writer == None && s.v.readers == map[]
      && forall t :: t in s.pcs ==> s.pcs[t] == Outside || s.pcs[t] == NotifyingAll
  {
    RwReachableOk(s);
    if s.v.total == 0 { NoReadersAtZero(s.v); }
    CountPositive(s.pcs, (pc: RwPC) => pc == ReadAsleep || pc == ReadWoken);
    CountPositive(s.pcs, (pc: RwPC) => pc == WriteAsleep || pc == WriteWoken);
  }
}
