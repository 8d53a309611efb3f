/** How many levels of a read-write lock each thread holds, over whole runs, and what its calls answer
    (`src/pthread.rs`). */
module RwlockLevels {
  import opened Wrappers
  import opened Counting
  import opened PthreadMutex
  import opened PthreadRwlock
  import opened RwlockSystem
  import opened RwlockSafety

  // ---- Answers ----

  /** What a call returns once this event has decided it; `None` while it sleeps. */
  function RwAnswer(s: RwState, e: RwEvent): Option<Errno> {
    match e
    case ReadLock(t, tryOnly) => CodeOf(ReadPass(s.v, t, tryOnly, false).1)
    case WriteLock(t, tryOnly) => CodeOf(WritePass(s.v, t, tryOnly, false).1)
    case RwUnlock(t) => Some(UnlockRwPass(s.v, t).1)
    case RwDestroy(t) => Some(DestroyPass(s.v).1)
    case RwResume(t) =>
      if t !in s.pcs then None
      else if s.pcs[t] == ReadWoken then CodeOf(ReadPass(s.v, t, false, true).1)
      else if s.pcs[t] == WriteWoken then CodeOf(WritePass(s.v, t, false, true).1)
      else None
    case _ => None
  }

  ghost predicate WriterWaits(s: RwState) {
    exists u :: u in s.pcs && (s.pcs[u] == WriteAsleep || s.pcs[u] == WriteWoken)
  }

  predicate Unowned(s: RwState) {
    s.v.writer == None && s.v.readers == map[]
  }

  lemma TotalsExact(s: RwState)
    requires RwInv(s)
    ensures s.v.total == 0 <==> s.v.readers == map[]
    ensures s.v.waitingWriters == 0 <==> !WriterWaits(s)
    ensures forall t :: DepthOf(s.v, t) <= s.v.total
  {
    if s.v.total == 0 { NoReadersAtZero(s.v); }
    CountPositive(s.pcs, (pc: RwPC) => pc == WriteAsleep || pc == WriteWoken);
    forall t
      ensures DepthOf(s.v, t) <= s.v.total
    {
      if t in s.v.readers { SumDepthsWithout(s.v.readers, t); }
    }
  }

  /** The reader total never passes the width of its counter. */
  predicate Fits(s: RwState) {
    s.v.total <= USIZE_MAX
  }

  lemma StepFits(s: RwState, e: RwEvent)
    requires Fits(s) && RwStep(s, e).Some?
    ensures Fits(RwStep(s, e).value)
  {
  }

  lemma {:induction false} RunFits(s: RwState, events: seq<RwEvent>)
    requires Fits(s) && RwRun(s, events).Some?
    ensures Fits(RwRun(s, events).value)
    decreases |events|
  {
    hide RwStep, Fits;
    if events != [] {
      StepFits(s, events[0]);
      RunFits(RwStep(s, events[0]).value, events[1..]);
    }
  }

  lemma ReachableFits(s: RwState)
    requires RwReachable(s)
    ensures Fits(s)
  {
    var s0, events :| RwInit(s0) && RwRun(s0, events) == Some(s);
    RunFits(s0, events);
  }

  /** What a read lock call answers, fresh or woken; a thread that already reads is let past waiting writers,
      and only a total at the counter's limit is `EAGAIN`. */
  lemma ReadAnswers(s: RwState, e: RwEvent)
    requires RwReachable(s) && RwStep(s, e).Some?
    requires e.ReadLock? || (e.RwResume? && s.pcs[e.t] == ReadWoken)
    ensures var t, v := e.t, s.v;
      var tryOnly := e.ReadLock? && e.tryOnly;
      var blocked := v.writer.Some? || (WriterWaits(s) && t !in v.readers);
      RwAnswer(s, e)
      == if v.destroyed then Some(EINVAL)
         else if v.writer == Some(t) then Some(if tryOnly then EBUSY else EDEADLK)
         else if blocked then if tryOnly then Some(EBUSY) else None
         else Some(if v.total == USIZE_MAX then EAGAIN else OK)
    ensures RwAnswer(s, e) == None <==> RwStep(s, e).value.pcs[e.t] == ReadAsleep
  {
    RwReachableOk(s);
    ReachableFits(s);
    TotalsExact(s);
    hide RwInv, WriterWaits;
  }

  /** What a write lock call answers. */
  lemma WriteAnswers(s: RwState, e: RwEvent)
    requires RwReachable(s) && RwStep(s, e).Some?
    requires e.WriteLock? || (e.RwResume? && s.pcs[e.t] == WriteWoken)
    ensures var t, v := e.t, s.v;
      var tryOnly := e.WriteLock? && e.tryOnly;
      RwAnswer(s, e)
      == if v.destroyed then Some(EINVAL)
         else if v.writer == Some(t) then Some(if tryOnly then EBUSY else EDEADLK)
         else if Unowned(s) then Some(OK)
         else if tryOnly then Some(EBUSY) else None
    ensures RwAnswer(s, e) == None <==> RwStep(s, e).value.pcs[e.t] == WriteAsleep
  {
    RwReachableOk(s);
    TotalsExact(s);
    hide RwInv;
  }

  /** An unlock succeeds exactly for an owner, and notifies exactly when it leaves the lock unowned. */
  lemma UnlockAnswers(s: RwState, t: nat)
    requires RwReachable(s) && RwStep(s, RwUnlock(t)).Some?
    ensures var s' := RwStep(s, RwUnlock(t)).value;
      && (s.v.writer == Some(t) || t in s.v.readers <==> RwAnswer(s, RwUnlock(t)) == Some(OK))
      && (RwAnswer(s, RwUnlock(t)) == Some(OK) || RwAnswer(s, RwUnlock(t)) == Some(EINVAL))
      && (RwAnswer(s, RwUnlock(t)) == Some(EINVAL) ==> s'.v == s.v)
      && (s'.pcs[t] == NotifyingAll <==> RwAnswer(s, RwUnlock(t)) == Some(OK) && Unowned(s'))
  {
    RwReachableOk(s);
    TotalsExact(s);
    RwStepKeeps(s, RwUnlock(t));
    TotalsExact(RwStep(s, RwUnlock(t)).value);
    if s.v.destroyed { UnownedWhenDestroyed(s); }
    hide RwInv, WriterWaits;
  }

  lemma UnownedWhenDestroyed(s: RwState)
    requires RwInv(s) && s.v.destroyed
    ensures Unowned(s)
  {
    NoReadersAtZero(s.v);
  }

  // ---- Levels ----

  /** A read lock call of `t` returns 0. */
  predicate TakesRead(s: RwState, e: RwEvent, t: nat) {
    && e.t == t && RwAnswer(s, e) == Some(OK)
    && (e.ReadLock? || (e.RwResume? && t in s.pcs && s.pcs[t] == ReadWoken))
  }

  /** A write lock call of `t` returns 0. */
  predicate TakesWrite(s: RwState, e: RwEvent, t: nat) {
    && e.t == t && RwAnswer(s, e) == Some(OK)
    && (e.WriteLock? || (e.RwResume? && t in s.pcs && s.pcs[t] == WriteWoken))
  }

  /** An unlock call of the writer `t` returns 0. */
  predicate GivesWrite(s: RwState, e: RwEvent, t: nat) {
    e == RwUnlock(t) && RwAnswer(s, e) == Some(OK) && s.v.writer == Some(t)
  }

  /** An unlock call of `t`, not the writer, returns 0. */
  predicate GivesRead(s: RwState, e: RwEvent, t: nat) {
    e == RwUnlock(t) && RwAnswer(s, e) == Some(OK) && s.v.writer != Some(t)
  }

  function WriteLevel(v: RwVars, t: nat): nat {
    One(v.writer == Some(t))
  }

  lemma ReadPassLevels(v: RwVars, u: nat, tryOnly: bool, registered: bool, t: nat)
    ensures var (v', pass) := ReadPass(v, u, tryOnly, registered);
      && DepthOf(v', t) == DepthOf(v, t) + One(u == t && pass == Return(OK))
      && WriteLevel(v', t) == WriteLevel(v, t)
  {
  }

  lemma WritePassLevels(v: RwVars, u: nat, tryOnly: bool, registered: bool, t: nat)
    ensures var (v', pass) := WritePass(v, u, tryOnly, registered);
      && DepthOf(v', t) == DepthOf(v, t)
      && WriteLevel(v', t) == WriteLevel(v, t) + One(u == t && pass == Return(OK))
  {
  }

  lemma UnlockPassLevels(v: RwVars, u: nat, t: nat)
    requires u in v.readers ==> 1 <= v.readers[u]
    ensures var (v', code, notify) := UnlockRwPass(v, u);
      && DepthOf(v', t) == DepthOf(v, t) - One(u == t && code == OK && v.writer != Some(u))
      && WriteLevel(v', t) == WriteLevel(v, t) - One(u == t && code == OK && v.writer == Some(u))
  {
  }

  /** Each event changes each thread's read depth and write ownership by that thread's own successful calls, and
      by nothing else. */
  lemma RwStepBalanced(s: RwState, e: RwEvent, t: nat)
    requires RwInv(s) && RwStep(s, e).Some?
    ensures var v' := RwStep(s, e).value.v;
      && DepthOf(v', t) == DepthOf(s.v, t) + One(TakesRead(s, e, t)) - One(GivesRead(s, e, t))
      && WriteLevel(v', t) == WriteLevel(s.v, t) + One(TakesWrite(s, e, t)) - One(GivesWrite(s, e, t))
  {
    assert e.t in s.v.readers ==> 1 <= s.v.readers[e.t];
    hide RwInv, ReadPass, WritePass, UnlockRwPass, DepthOf, WriteLevel;
    match e {
      case ReadLock(u, tryOnly) => ReadPassLevels(s.v, u, tryOnly, false, t);
      case WriteLock(u, tryOnly) => WritePassLevels(s.v, u, tryOnly, false, t);
      case RwResume(u) =>
        ReadPassLevels(s.v, u, false, true, t);
        WritePassLevels(s.v, u, false, true, t);
      case RwUnlock(u) => UnlockPassLevels(s.v, u, t);
      case _ => SameLevels(s, e, t);
    }
  }

  lemma SameLevels(s: RwState, e: RwEvent, t: nat)
    requires RwStep(s, e).Some? && (e.RwDestroy? || e.RwWake? || e.RwNotifyAll?)
    ensures var v' := RwStep(s, e).value.v;
      DepthOf(v', t) == DepthOf(s.v, t) && WriteLevel(v', t) == WriteLevel(s.v, t)
  {
  }

  // ---- Whole runs ----

  datatype Calls = Calls(readLocks: nat, readUnlocks: nat, writeLocks: nat, writeUnlocks: nat)

  /** The calls of `t` that a run answers with 0. */
  ghost function CallsAlong(s: RwState, events: seq<RwEvent>, t: nat): Calls
    decreases |events|
  {
    if events == [] || RwStep(s, events[0]).None? then Calls(0, 0, 0, 0)
    else
      var e := events[0];
      var rest := CallsAlong(RwStep(s, e).value, events[1..], t);
      Calls(rest.readLocks + One(TakesRead(s, e, t)), rest.readUnlocks + One(GivesRead(s, e, t)),
            rest.writeLocks + One(TakesWrite(s, e, t)), rest.writeUnlocks + One(GivesWrite(s, e, t)))
  }

  lemma {:induction false} LevelsAlongRun(s: RwState, events: seq<RwEvent>, t: nat)
    requires RwInv(s) && RwRun(s, events).Some?
    ensures var n := CallsAlong(s, events, t);
      var v' := RwRun(s, events).value.v;
      && DepthOf(v', t) == DepthOf(s.v, t) + n.readLocks - n.readUnlocks
      && WriteLevel(v', t) == WriteLevel(s.v, t) + n.writeLocks - n.writeUnlocks
    decreases |events|
  {
    hide RwInv, RwStep, DepthOf, WriteLevel, TakesRead, GivesRead, TakesWrite, GivesWrite;
    if events != [] {
      RwStepKeeps(s, events[0]);
      RwStepBalanced(s, events[0], t);
      LevelsAlongRun(RwStep(s, events[0]).value, events[1..], t);
    }
  }

  lemma InitReaches(s0: RwState, events: seq<RwEvent>)
    requires RwInit(s0) && RwRun(s0, events).Some?
    ensures RwInv(s0) && RwReachable(RwRun(s0, events).value)
  {
    assert RwRun(s0, []) == Some(s0);
    assert RwReachable(s0);
    RwReachableOk(s0);
    hide RwInv;
  }

  /** In every run, the read locks of a thread answered with 0 less its read unlocks are its read depth, and it is
      the writer exactly when its write locks outnumber its write unlocks, which is by one. */
  lemma LocksLessUnlocks(s0: RwState, events: seq<RwEvent>, t: nat)
    requires RwInit(s0) && RwRun(s0, events).Some?
    ensures var n := CallsAlong(s0, events, t);
      var v := RwRun(s0, events).value.v;
      && DepthOf(v, t) == n.readLocks - n.readUnlocks
      && (t in v.readers <==> n.readUnlocks < n.readLocks)
      && (v.writer == Some(t) <==> n.writeUnlocks < n.writeLocks)
      && n.writeUnlocks <= n.writeLocks <= n.writeUnlocks + 1
  {
    InitReaches(s0, events);
    LevelsAlongRun(s0, events, t);
    ReadersHaveLevels(RwRun(s0, events).value);
    hide RwInv, RwRun, CallsAlong;
  }

  lemma ReadersHaveLevels(s: RwState)
    requires RwReachable(s)
    ensures forall t :: t in s.v.readers <==> 0 < DepthOf(s.v, t)
  {
    RwReachableOk(s);
  }

  /** A write lock call returns 0 only when every thread, the caller included, has given back every read and write
      level it took. */
  lemma WriterTakesUnowned(s0: RwState, events: seq<RwEvent>, e: RwEvent, t: nat, u: nat)
    requires RwInit(s0) && RwRun(s0, events).Some?
    requires RwStep(RwRun(s0, events).value, e).Some? && TakesWrite(RwRun(s0, events).value, e, t)
    ensures var n := CallsAlong(s0, events, u);
      n.readLocks == n.readUnlocks && n.writeLocks == n.writeUnlocks
  {
    var s := RwRun(s0, events).value;
    InitReaches(s0, events);
    WriteAnswers(s, e);
    LocksLessUnlocks(s0, events, u);
    hide RwInv, RwRun, CallsAlong, RwStep, RwAnswer;
  }
}
