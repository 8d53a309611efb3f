/** What every run of the mutex and condition-variable system guarantees. */
module PthreadSafety {
  import opened Wrappers
  import opened Counting
  import opened PthreadMutex
  import opened PthreadCond
  import opened PthreadSystem
  import opened PthreadSystemProof

  lemma InitOk(s: State)
    requires Init(s)
    ensures Inv(s)
  {
    forall m
      ensures MutexOkAt(s.mutexes, s.pcs, m)
    {
      NoneCounted(s, m, 0);
    }
    forall c
      ensures CondOkAt(s.conds, s.ledgers, s.pcs, c)
    {
      NoneCounted(s, 0, c);
    }
  }

  lemma NoneCounted(s: State, m: nat, c: nat)
    requires Init(s)
    ensures MutexCounts(s.pcs, m) == NO_MUTEX && CondCounts(s.pcs, c) == NO_COND
  {
    CountPositive(s.pcs, (pc: PC) => MutexSleeper(pc, m));
    CountPositive(s.pcs, (pc: PC) => MutexWoken(pc, m));
    CountPositive(s.pcs, (pc: PC) => MutexNotifier(pc, m));
    CountPositive(s.pcs, (pc: PC) => CondReference(pc, m));
    CountPositive(s.pcs, (pc: PC) => EnteringCond(pc, c));
    CountPositive(s.pcs, (pc: PC) => CondSleeper(pc, c));
    CountPositive(s.pcs, (pc: PC) => CondWoken(pc, c));
    CountPositive(s.pcs, (pc: PC) => pc == Signalling(c));
    CountPositive(s.pcs, (pc: PC) => pc == Broadcasting(c));
    CountPositive(s.pcs, (pc: PC) => Answered(pc, c));
  }

  lemma ResumeKeeps(s: State, t: nat, expired: bool)
    requires Inv(s) && ResumeStep(s, t, expired).Some?
    ensures Inv(ResumeStep(s, t, expired).value)
  {
    assert ThreadOk(s.mutexes, s.conds.Keys, t, s.pcs[t]);
    hide Inv, TestStep, RelockStep, ResumePass;
    match s.pcs[t] {
      case LockWoken(m) => ResumeLockKeeps(s, t, m);
      case CondWait(Woken, w) => TestKeeps(s, t, expired);
      case CondWait(RelockWoken, w) => RelockKeeps(s, t, true);
      case _ =>
    }
  }

  lemma NotifyOneKeeps(s: State, t: nat, chosen: Option<nat>)
    requires Inv(s) && t in s.pcs && NotifiesOne(s.pcs[t]) && ValidChoice(s, s.pcs[t], chosen)
    ensures Inv(Move(WakeOne(s, chosen), t, AfterNotify(s.pcs[t])))
  {
    hide Inv, WakeOne, ValidChoice;
    match s.pcs[t] {
      case Signalling(c) => SignalDeliveredKeeps(s, t, chosen, c);
      case Notifying(m) => UnlockDeliveredKeeps(s, t, chosen, m);
      case CondWait(_, w) => UnlockDeliveredKeeps(s, t, chosen, w.mutex);
      case _ =>
    }
  }

  /** Every event keeps the invariant. */
  lemma StepKeeps(s: State, e: Event)
    requires Inv(s) && Step(s, e).Some?
    ensures Inv(Step(s, e).value)
  {
    hide Inv, LockStep, UnlockStep, CondEnterStep, CondUnlockStep, TestStep, RelockStep, ReenterStep, CondReturnStep,
      GrantStep, CondDestroyStep, ResumeStep, Wakened, WakeOne, WakeAll, ValidChoice;
    match e {
      case MutexInit(m, kind) => MutexInitKeeps(s, m, kind);
      case MutexDestroy(m) =>
        if s.mutexes[m].live && DestroyCode(s.mutexes[m]) == OK { MutexDestroyKeeps(s, m); }
      case Lock(t, m, tryOnly) => LockKeeps(s, t, m, tryOnly);
      case Unlock(t, m) => UnlockKeeps(s, t, m);
      case CondEnter(t, c, m, timed) => CondEnterKeeps(s, t, c, m, timed);
      case CondUnlock(t) => CondUnlockKeeps(s, t);
      case CondTest(t, expired) => TestKeeps(s, t, expired);
      case Relock(t) => RelockKeeps(s, t, false);
      case Reenter(t) => ReenterKeeps(s, t);
      case CondReturn(t) => CondReturnKeeps(s, t);
      case Signal(t, c) => GrantKeeps(s, t, c, false);
      case Broadcast(t, c) => GrantKeeps(s, t, c, true);
      case CondDestroy(c) => CondDestroyKeeps(s, c);
      case Wake(t) => WakeKeeps(s, t);
      case Resume(t, expired) => ResumeKeeps(s, t, expired);
      case NotifyOne(t, chosen) => NotifyOneKeeps(s, t, chosen);
      case NotifyAll(t) => BroadcastDeliveredKeeps(s, t, s.pcs[t].c);
    }
  }

  lemma {:induction false} RunKeeps(s: State, events: seq<Event>)
    requires Inv(s) && Run(s, events).Some?
    ensures Inv(Run(s, events).value)
    decreases |events|
  {
    hide Inv, Step;
    if events != [] {
      StepKeeps(s, events[0]);
      RunKeeps(Step(s, events[0]).value, events[1..]);
    }
  }

  /** States some run reaches. */
  ghost predicate Reachable(s: State) {
    exists s0, events :: Init(s0) && Run(s0, events) == Some(s)
  }

  lemma ReachableOk(s: State)
    requires Reachable(s)
    ensures Inv(s)
  {
    hide Inv, Step;
    var s0, events :| Init(s0) && Run(s0, events) == Some(s);
    InitOk(s0);
    RunKeeps(s0, events);
  }

  // ---- Mutexes ----

  /** Threads inside a lock call or a relock that the mutex counts as waiters. */
  function LockWaiters(s: State, m: nat): set<nat> {
    set t | t in s.pcs && (MutexSleeper(s.pcs[t], m) || MutexWoken(s.pcs[t], m))
  }

  /** Threads inside a condition wait on the mutex. */
  function CondWaiters(s: State, m: nat): set<nat> {
    set t | t in s.pcs && CondReference(s.pcs[t], m)
  }

  lemma WaitersCounted(s: State, m: nat)
    ensures MutexCounts(s.pcs, m).sleeping + MutexCounts(s.pcs, m).woken == |LockWaiters(s, m)|
    ensures MutexCounts(s.pcs, m).references == |CondWaiters(s, m)|
  {
    CountMerge(s.pcs, s.pcs, (pc: PC) => MutexSleeper(pc, m) || MutexWoken(pc, m),
               (pc: PC) => MutexSleeper(pc, m), (pc: PC) => MutexWoken(pc, m));
    assert LockWaiters(s, m) == ThreadsAt(s.pcs, (pc: PC) => MutexSleeper(pc, m) || MutexWoken(pc, m));
    assert CondWaiters(s, m) == ThreadsAt(s.pcs, (pc: PC) => CondReference(pc, m));
  }

  /** In every reachable state the lock fields are consistent, the counters are exact and a free
      mutex with a sleeper has somebody on the way. */
  lemma MutexSafety(s: State, m: nat)
    requires Reachable(s) && m in s.mutexes
    ensures var v := s.mutexes[m];
      && (v.owner == None <==> v.depth == 0)
      && (v.kind != RECURSIVE ==> v.depth <= 1)
      && v.waiters == |LockWaiters(s, m)| && v.condWaiters == |CondWaiters(s, m)|
    ensures s.mutexes[m].owner == None && (exists t :: t in s.pcs && MutexSleeper(s.pcs[t], m))
      ==> exists u :: u in s.pcs && (MutexWoken(s.pcs[u], m) || MutexNotifier(s.pcs[u], m))
  {
    ReachableOk(s);
    assert MutexOkAt(s.mutexes, s.pcs, m);
    WaitersCounted(s, m);
    CountPositive(s.pcs, (pc: PC) => MutexSleeper(pc, m));
    CountPositive(s.pcs, (pc: PC) => MutexWoken(pc, m));
    CountPositive(s.pcs, (pc: PC) => MutexNotifier(pc, m));
  }

  /** `pthread_mutex_destroy` succeeds exactly when nobody holds the mutex, waits for it or is in a
      condition wait on it. */
  lemma MutexDestroyExact(s: State, m: nat)
    requires Reachable(s) && m in s.mutexes
    ensures DestroyCode(s.mutexes[m]) == OK
      <==> s.mutexes[m].owner == None && LockWaiters(s, m) == {} && CondWaiters(s, m) == {}
  {
    MutexSafety(s, m);
  }

  /** Inside some call on the mutex: asleep or woken in a lock call, in a condition wait, or unlocking. */
  predicate InsideMutex(pc: PC, m: nat) {
    MutexSleeper(pc, m) || MutexWoken(pc, m) || CondReference(pc, m) || MutexNotifier(pc, m)
  }

  /** When a destroy succeeds, the threads still inside a call on the mutex are exactly the unlockers that
      have not notified yet. */
  lemma DestroyMissesOnlyNotifiers(s: State, m: nat, t: nat)
    requires Reachable(s) && m in s.mutexes && DestroyCode(s.mutexes[m]) == OK && t in s.pcs
    ensures InsideMutex(s.pcs[t], m) <==> s.pcs[t] == Notifying(m)
  {
    MutexDestroyExact(s, m);
    assert t !in LockWaiters(s, m) && t !in CondWaiters(s, m);
  }

  /** So a destroy succeeds with nobody inside a call exactly when, besides, no unlocker is at its notification. */
  lemma DestroyIsQuietIff(s: State, m: nat)
    requires Reachable(s) && m in s.mutexes
    ensures (s.mutexes[m].owner == None && forall t :: t in s.pcs ==> !InsideMutex(s.pcs[t], m))
      <==> (DestroyCode(s.mutexes[m]) == OK && forall t :: t in s.pcs ==> s.pcs[t] != Notifying(m))
  {
    MutexDestroyExact(s, m);
    if DestroyCode(s.mutexes[m]) == OK {
      forall t | t in s.pcs ensures InsideMutex(s.pcs[t], m) <==> s.pcs[t] == Notifying(m) {
        DestroyMissesOnlyNotifiers(s, m, t);
      }
    } else if s.mutexes[m].owner == None {
      if LockWaiters(s, m) != {} {
        var t :| t in LockWaiters(s, m);
        assert InsideMutex(s.pcs[t], m);
      } else {
        var t :| t in CondWaiters(s, m);
        assert InsideMutex(s.pcs[t], m);
      }
    }
  }

  /** From every reachable state whose owner can unlock with nobody else around, a destroy can come in between. */
  lemma DestroyOvertakesNotifier(s: State, t: nat, m: nat)
    requires Reachable(s) && m in s.mutexes && s.mutexes[m].live && t in s.pcs && s.pcs[t] == Idle
    requires s.mutexes[m].owner == Some(t) && s.mutexes[m].depth == 1
    requires LockWaiters(s, m) == {} && CondWaiters(s, m) == {}
    ensures Run(s, [Unlock(t, m), MutexDestroy(m)]).Some?
    ensures var s' := Run(s, [Unlock(t, m), MutexDestroy(m)]).value;
      m in s'.mutexes && !s'.mutexes[m].live && t in s'.pcs && s'.pcs[t] == Notifying(m)
  {
    MutexSafety(s, m);
    var e1, e2 := Unlock(t, m), MutexDestroy(m);
    var s1 := Step(s, e1).value;
    assert [e1, e2][1..] == [e2] && [e2][1..] == [];
    var s2 := Step(s1, e2).value;
    assert Run(s2, []) == Some(s2);
    assert Run(s1, [e2]) == Some(s2);
  }

  /** The critical sections take a mutex from nobody; only its owner's unlock frees it. */
  lemma PassesKeepOwner(v: MutexVars, t: nat, u: nat)
    requires v.owner == Some(u)
    ensures forall tryOnly :: LockPass(v, t, tryOnly).0.owner == Some(u)
    ensures ResumePass(v, t).0.owner == Some(u)
    ensures forall forCondWait ::
      var v' := UnlockPass(v, t, forCondWait).0; v'.owner == Some(u) || (t == u && v'.owner == None)
  {
  }

  /** The release that may follow: the owner's own unlock, direct or inside its condition wait. */
  predicate Releases(s: State, e: Event, m: nat, u: nat) {
    e == Unlock(u, m) || (e == CondUnlock(u) && u in s.pcs && CondReference(s.pcs[u], m))
  }

  lemma ResumeKeepsOwner(s: State, t: nat, expired: bool, m: nat, u: nat)
    requires ResumeStep(s, t, expired).Some? && m in s.mutexes && s.mutexes[m].owner == Some(u)
    ensures var s' := ResumeStep(s, t, expired).value; m in s'.mutexes && s'.mutexes[m].owner == Some(u)
  {
    PassesKeepOwner(s.mutexes[m], t, u);
    hide LockPass, ResumePass, TestPass, AfterLock, AfterRelock, AfterTest;
  }

  lemma PassEventKeepsOwner(s: State, e: Event, m: nat, u: nat)
    requires e.Lock? || e.Relock? || e.Reenter? || e.Unlock? || e.CondUnlock?
    requires Step(s, e).Some? && m in s.mutexes && s.mutexes[m].owner == Some(u)
    ensures var s' := Step(s, e).value;
      m in s'.mutexes && (s'.mutexes[m].owner == Some(u) || (s'.mutexes[m].owner == None && Releases(s, e, m, u)))
  {
    PassesKeepOwner(s.mutexes[m], e.t, u);
    hide LockPass, ResumePass, UnlockPass, AfterLock, AfterRelock, AfterReenter;
  }

  /** Nobody loses a mutex: the owner changes only by the owner's own release. */
  lemma OwnershipKept(s: State, e: Event, m: nat, u: nat)
    requires Step(s, e).Some? && m in s.mutexes && s.mutexes[m].owner == Some(u)
    ensures var s' := Step(s, e).value;
      m in s'.mutexes && (s'.mutexes[m].owner == Some(u) || (s'.mutexes[m].owner == None && Releases(s, e, m, u)))
  {
    if e.Lock? || e.Relock? || e.Reenter? || e.Unlock? || e.CondUnlock? {
      PassEventKeepsOwner(s, e, m, u);
    } else if e.Resume? {
      ResumeKeepsOwner(s, e.t, e.expired, m, u);
    } else {
      OtherEventKeepsOwner(s, e, m, u);
    }
    hide Step, Releases;
  }

  lemma OtherEventKeepsOwner(s: State, e: Event, m: nat, u: nat)
    requires !(e.Lock? || e.Relock? || e.Reenter? || e.Unlock? || e.CondUnlock? || e.Resume?)
    requires Step(s, e).Some? && m in s.mutexes && s.mutexes[m].owner == Some(u)
    ensures var s' := Step(s, e).value; m in s'.mutexes && s'.mutexes[m].owner == Some(u)
  {
    hide TestPass, SignalPass, BroadcastPass, ValidChoice, Wakened, Reaches, Sleeping, AfterTest, AfterNotify;
  }

  // ---- Condition waits ----

  /** The run keeps `t` inside its library call throughout. */
  ghost predicate StaysInside(s: State, events: seq<Event>, t: nat)
    decreases |events|
  {
    events != [] ==>
      && Step(s, events[0]).Some?
      && var s' := Step(s, events[0]).value;
      && t in s'.pcs && s'.pcs[t] != Idle && StaysInside(s', events[1..], t)
  }

  predicate SameWait(a: PC, b: PC) {
    && a.CondWait? && b.CondWait? && a.w.mutex == b.w.mutex && a.w.cond == b.w.cond
    && a.w.depth == b.w.depth && a.w.timed == b.w.timed
  }

  lemma PcsKeepWait(w: WaitRecord, phase: Phase)
    ensures forall code :: SameWait(CondWait(phase, w), AfterTest(w, code))
    ensures forall kind, pass :: SameWait(CondWait(phase, w), AfterRelock(w, kind, pass))
    ensures forall i: nat, pass :: SameWait(CondWait(phase, w), AfterReenter(w, i, pass))
    ensures SameWait(CondWait(phase, w), Wakened(CondWait(phase, w)))
    ensures SameWait(CondWait(phase, w), AfterNotify(CondWait(phase, w)))
    ensures forall next :: SameWait(CondWait(phase, w), CondWait(next, w))
  {
  }

  predicate MovesWaiter(e: Event) {
    e.CondUnlock? || e.CondTest? || e.Relock? || e.Reenter? || e.CondReturn? || e.Resume?
  }

  predicate MovesOthers(e: Event) {
    e.Wake? || e.NotifyOne? || e.NotifyAll?
  }

  /** Calls start at idle threads only. */
  lemma CallsKeepWait(s: State, e: Event, t: nat)
    requires Step(s, e).Some? && t in s.pcs && s.pcs[t].CondWait? && !MovesWaiter(e) && !MovesOthers(e)
    ensures var s' := Step(s, e).value; t in s'.pcs && s'.pcs[t] == s.pcs[t]
  {
    hide LockPass, UnlockPass, SignalPass, BroadcastPass;
  }

  lemma WakeupsKeepWait(s: State, e: Event, t: nat)
    requires Step(s, e).Some? && t in s.pcs && s.pcs[t].CondWait? && MovesOthers(e)
    ensures var s' := Step(s, e).value; t in s'.pcs && SameWait(s.pcs[t], s'.pcs[t])
  {
    PcsKeepWait(s.pcs[t].w, s.pcs[t].phase);
    WakenedTwice(s.pcs[t]);
    hide Wakened, Reaches, ValidChoice, AfterNotify, Sleeping;
  }

  lemma WakenedTwice(pc: PC)
    requires pc.CondWait?
    ensures Wakened(pc).CondWait? && SameWait(pc, Wakened(pc)) && AfterNotify(Wakened(pc)).CondWait?
    ensures SameWait(pc, AfterNotify(Wakened(pc)))
  {
  }

  lemma ResumedKeepsWait(s: State, u: nat, expired: bool, t: nat)
    requires ResumeStep(s, u, expired).Some? && t in s.pcs && s.pcs[t].CondWait?
    ensures var s' := ResumeStep(s, u, expired).value; t in s'.pcs && SameWait(s.pcs[t], s'.pcs[t])
  {
    PcsKeepWait(s.pcs[t].w, s.pcs[t].phase);
    assert SameWait(s.pcs[t], s.pcs[t]);
    hide LockPass, ResumePass, TestPass, SameWait, AfterTest, AfterRelock;
  }

  lemma WaitersKeepWait(s: State, e: Event, t: nat)
    requires Step(s, e).Some? && t in s.pcs && s.pcs[t].CondWait? && MovesWaiter(e)
    ensures var s' := Step(s, e).value; t in s'.pcs && (s'.pcs[t] == Idle || SameWait(s.pcs[t], s'.pcs[t]))
  {
    if e.Resume? {
      ResumedKeepsWait(s, e.t, e.expired, t);
    }
    PcsKeepWait(s.pcs[t].w, s.pcs[t].phase);
    assert SameWait(s.pcs[t], s.pcs[t]);
    hide LockPass, ResumePass, UnlockPass, TestPass, SameWait, AfterTest, AfterRelock, AfterReenter, ResumeStep;
  }

  /** A wait keeps its mutex, condition variable and recorded depth until it returns. */
  lemma WaitRecordKept(s: State, e: Event, t: nat)
    requires Inv(s) && Step(s, e).Some? && t in s.pcs && s.pcs[t].CondWait?
    ensures var s' := Step(s, e).value;
      t in s'.pcs && (s'.pcs[t] == Idle || SameWait(s.pcs[t], s'.pcs[t]))
  {
    hide Inv, Step;
    if MovesWaiter(e) {
      WaitersKeepWait(s, e, t);
    } else if MovesOthers(e) {
      WakeupsKeepWait(s, e, t);
    } else {
      CallsKeepWait(s, e, t);
    }
  }

  lemma {:induction false} WaitKeptAlongRun(s: State, events: seq<Event>, t: nat)
    requires Inv(s) && Run(s, events).Some? && StaysInside(s, events, t) && t in s.pcs && s.pcs[t].CondWait?
    ensures var s' := Run(s, events).value;
      Inv(s') && t in s'.pcs && SameWait(s.pcs[t], s'.pcs[t])
    decreases |events|
  {
    hide Inv, Step;
    if events != [] {
      StepKeeps(s, events[0]);
      WaitRecordKept(s, events[0], t);
      WaitKeptAlongRun(Step(s, events[0]).value, events[1..], t);
    }
  }

  lemma EnterRecordsDepth(s: State, t: nat, c: nat, m: nat, timed: bool)
    requires CondEnterStep(s, t, c, m, timed).Some?
    ensures var s1 := CondEnterStep(s, t, c, m, timed).value;
      && t in s1.pcs
      && (s1.pcs[t].CondWait? ==>
        && m in s.mutexes && s.mutexes[m].owner == Some(t)
        && s1.pcs[t] == CondWait(Referenced, WaitRecord(c, m, timed, s.mutexes[m].depth, OK)))
  {
  }

  lemma ReturnOwns(s: State, t: nat)
    requires Inv(s) && InPhase(s, t, Leaving)
    ensures var w := s.pcs[t].w;
      && (w.code == OK || (w.code == ETIMEDOUT && w.timed))
      && CondReturnStep(s, t).Some?
      && var s' := CondReturnStep(s, t).value;
      && t in s'.pcs && s'.pcs[t] == Idle && w.mutex in s'.mutexes
      && s'.mutexes[w.mutex].owner == Some(t) && s'.mutexes[w.mutex].depth == w.depth
  {
    assert ThreadOk(s.mutexes, s.conds.Keys, t, s.pcs[t]);
  }

  /** A condition wait ends in one way only: its last step, past the relock. The exit of a failed unlock
      is never taken. */
  lemma WaitLeavesByReturn(s: State, e: Event, t: nat)
    requires Inv(s) && Step(s, e).Some? && t in s.pcs && s.pcs[t].CondWait?
    requires var s' := Step(s, e).value; t in s'.pcs && s'.pcs[t] == Idle
    ensures e == CondReturn(t) && InPhase(s, t, Leaving)
  {
    if e == CondUnlock(t) {
      CondUnlockKeeps(s, t);
    }
    if MovesOthers(e) {
      WakeupsKeepWait(s, e, t);
    } else if !MovesWaiter(e) {
      CallsKeepWait(s, e, t);
    } else if e.Resume? {
      ResumedKeepsWait(s, e.t, e.expired, t);
    } else {
      WaiterLeaves(s, e, t);
    }
    hide Inv, Step;
  }

  lemma WaiterLeaves(s: State, e: Event, t: nat)
    requires e.CondUnlock? || e.CondTest? || e.Relock? || e.Reenter? || e.CondReturn?
    requires Step(s, e).Some? && t in s.pcs && s.pcs[t].CondWait?
    requires var s' := Step(s, e).value; t in s'.pcs && s'.pcs[t] == Idle
    ensures e == CondUnlock(t) || (e == CondReturn(t) && InPhase(s, t, Leaving))
  {
    hide LockPass, ResumePass, UnlockPass, TestPass;
  }

  /** Past the ownership check every return of a condition wait leaves its caller owning the mutex at the
      depth of its entry, whatever everybody else did in between, and is 0 or, if timed, `ETIMEDOUT`. */
  lemma CondWaitRestoresDepth(s: State, t: nat, c: nat, m: nat, timed: bool, s1: State, events: seq<Event>, s2: State,
                              last: Event, s3: State)
    requires Reachable(s)
    requires Step(s, CondEnter(t, c, m, timed)) == Some(s1) && t in s1.pcs && s1.pcs[t].CondWait?
    requires Run(s1, events) == Some(s2) && StaysInside(s1, events, t)
    requires Step(s2, last) == Some(s3) && t in s3.pcs && s3.pcs[t] == Idle
    ensures m in s.mutexes && s.mutexes[m].owner == Some(t)
    ensures t in s2.pcs && s2.pcs[t].CondWait?
    ensures last == CondReturn(t)
    ensures var code := s2.pcs[t].w.code; code == OK || (code == ETIMEDOUT && timed)
    ensures m in s3.mutexes && s3.mutexes[m].owner == Some(t) && s3.mutexes[m].depth == s.mutexes[m].depth
  {
    hide Inv, StaysInside, Run, InPhase, CondEnterStep, CondReturnStep;
    ReachableOk(s);
    StepKeeps(s, CondEnter(t, c, m, timed));
    EnterRecordsDepth(s, t, c, m, timed);
    WaitKeptAlongRun(s1, events, t);
    WaitLeavesByReturn(s2, last, t);
    ReturnOwns(s2, t);
  }

  /** The relock inside a wait sleeps or succeeds, and each further level of a recursive mutex succeeds at
      once: no reachable state makes a relock report an error. */
  lemma RelockNeverFails(s: State, t: nat)
    requires Reachable(s) && t in s.pcs && s.pcs[t].CondWait? && s.pcs[t].w.mutex in s.mutexes
    ensures var v := s.mutexes[s.pcs[t].w.mutex];
      match s.pcs[t].phase
      case Relocking => var pass := LockPass(v, t, false).1; pass == Sleep || pass == Return(OK)
      case RelockWoken => var pass := ResumePass(v, t).1; pass == Sleep || pass == Return(OK)
      case Reentering(i) => LockPass(v, t, false) == (v.(depth := i + 1), Return(OK))
      case _ => true
  {
    ReachableOk(s);
    assert ThreadOk(s.mutexes, s.conds.Keys, t, s.pcs[t]);
  }

  // ---- Wakeup credits ----

  /** Threads a condition variable counts as waiters. */
  function Waiters(s: State, c: nat): set<nat> {
    set t | t in s.pcs && (EnteringCond(s.pcs[t], c) || CondSleeper(s.pcs[t], c) || CondWoken(s.pcs[t], c))
  }

  /** Waits already answered with 0 that have not returned yet. */
  function AnsweredWaits(s: State, c: nat): set<nat> {
    set t | t in s.pcs && Answered(s.pcs[t], c)
  }

  lemma CondThreadsCounted(s: State, c: nat)
    ensures CondCounts(s.pcs, c).entering + CondCounts(s.pcs, c).sleeping + CondCounts(s.pcs, c).woken
         == |Waiters(s, c)|
    ensures CondCounts(s.pcs, c).answered == |AnsweredWaits(s, c)|
  {
    CountMerge(s.pcs, s.pcs, (pc: PC) => CondSleeper(pc, c) || CondWoken(pc, c),
               (pc: PC) => CondSleeper(pc, c), (pc: PC) => CondWoken(pc, c));
    CountMerge(s.pcs, s.pcs, (pc: PC) => EnteringCond(pc, c) || CondSleeper(pc, c) || CondWoken(pc, c),
               (pc: PC) => EnteringCond(pc, c), (pc: PC) => CondSleeper(pc, c) || CondWoken(pc, c));
    assert Waiters(s, c)
        == ThreadsAt(s.pcs, (pc: PC) => EnteringCond(pc, c) || CondSleeper(pc, c) || CondWoken(pc, c));
    assert AnsweredWaits(s, c) == ThreadsAt(s.pcs, (pc: PC) => Answered(pc, c));
  }

  /** Threads woken from the condition variable that have not tested yet. */
  function WokenWaits(s: State, c: nat): set<nat> {
    set t | t in s.pcs && CondWoken(s.pcs[t], c)
  }

  /** Signallers whose notification is outstanding. */
  function Signallers(s: State, c: nat): set<nat> {
    set t | t in s.pcs && s.pcs[t] == Signalling(c)
  }

  /** In every reachable state: credits never exceed waiters, every credit granted is pending, being
      returned or returned as 0, and each pending credit has a woken thread or a signaller of its own, unless a
      broadcast is outstanding. */
  lemma CondAccounting(s: State, c: nat)
    requires Reachable(s) && c in s.conds
    ensures c in s.ledgers
    ensures s.conds[c].waiters == |Waiters(s, c)| && s.conds[c].pending <= s.conds[c].waiters
    ensures s.ledgers[c].granted == s.conds[c].pending + |AnsweredWaits(s, c)| + s.ledgers[c].returned
    ensures s.conds[c].pending <= |WokenWaits(s, c)| + |Signallers(s, c)|
         || exists u :: u in s.pcs && s.pcs[u] == Broadcasting(c)
    ensures 0 < s.conds[c].pending
      ==> exists u :: u in s.pcs && (CondWoken(s.pcs[u], c) || s.pcs[u] == Signalling(c) || s.pcs[u] == Broadcasting(c))
  {
    ReachableOk(s);
    assert CondOkAt(s.conds, s.ledgers, s.pcs, c);
    CondThreadsCounted(s, c);
    assert WokenWaits(s, c) == ThreadsAt(s.pcs, (pc: PC) => CondWoken(pc, c));
    assert Signallers(s, c) == ThreadsAt(s.pcs, (pc: PC) => pc == Signalling(c));
    CountPositive(s.pcs, (pc: PC) => CondWoken(pc, c));
    CountPositive(s.pcs, (pc: PC) => pc == Signalling(c));
    CountPositive(s.pcs, (pc: PC) => pc == Broadcasting(c));
  }

  /** A wait that times out took no credit: none was pending, and none is counted as returned. */
  lemma TimeoutTakesNoCredit(s: State, e: Event, t: nat)
    requires Reachable(s) && Step(s, e).Some? && (e == CondTest(t, true) || e == Resume(t, true))
    requires var s' := Step(s, e).value; t in s'.pcs && s'.pcs[t].CondWait? && s'.pcs[t].phase == Relocking
    ensures var s' := Step(s, e).value;
      var w := s'.pcs[t].w;
      && w.cond in s.conds && w.cond in s'.conds && s'.ledgers == s.ledgers
      && (w.code == ETIMEDOUT <==> s.conds[w.cond].pending == 0)
      && s'.conds[w.cond].pending == s.conds[w.cond].pending - if w.code == ETIMEDOUT then 0 else 1
  {
    ReachableOk(s);
    assert ThreadOk(s.mutexes, s.conds.Keys, t, s.pcs[t]);
    hide Inv, LockPass, ResumePass;
  }
}
