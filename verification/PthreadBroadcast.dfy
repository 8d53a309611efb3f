/** Whom `pthread_cond_signal` and `pthread_cond_broadcast` reach, and when a condition variable can be destroyed
    (`src/pthread.rs`). */
module PthreadBroadcast {
  import opened Wrappers
  import opened PthreadMutex
  import opened PthreadCond
  import opened PthreadSystem
  import opened PthreadSystemProof
  import opened PthreadSafety

  // ---- One call ----

  lemma WaitersExact(s: State, c: nat)
    requires Inv(s)
    ensures CondOf(s, c).waiters == |Waiters(s, c)| && CondOf(s, c).pending <= |Waiters(s, c)|
    ensures c in s.conds ==> CondOf(s, c) == s.conds[c]
  {
    CondOfOk(s, c);
    CondThreadsCounted(s, c);
  }

  /** A call by a thread outside the library changes nobody's place in a wait. */
  lemma OutsiderKeepsWaiters(s: State, t: nat, pc: PC, c: nat)
    requires IdleThread(s, t) && !pc.CondWait?
    ensures Waiters(Move(s, t, pc), c) == Waiters(s, c)
  {
  }

  /** Whether a call on `c` finds the host lock free and the condition variable usable. */
  predicate Callable(s: State, t: nat, c: nat) {
    IdleThread(s, t) && c in s.conds && !s.conds[c].destroyed && s.conds[c].holder == None
  }

  /** A broadcast leaves one credit for each thread waiting; it notifies unless there is none. */
  lemma BroadcastExact(s: State, t: nat, c: nat)
    requires Reachable(s) && Callable(s, t, c)
    ensures Step(s, Broadcast(t, c)).Some?
    ensures var s' := Step(s, Broadcast(t, c)).value;
      && c in s'.conds && s'.conds[c] == s.conds[c].(pending := |Waiters(s, c)|)
      && Waiters(s', c) == Waiters(s, c)
      && s'.pcs == s.pcs[t := if Waiters(s, c) == {} then Idle else Broadcasting(c)]
  {
    ReachableOk(s);
    WaitersExact(s, c);
    OutsiderKeepsWaiters(s, t, Idle, c);
    OutsiderKeepsWaiters(s, t, Broadcasting(c), c);
    var s' := Step(s, Broadcast(t, c)).value;
    var q := if Waiters(s, c) == {} then Idle else Broadcasting(c);
    assert Waiters(s', c) == Waiters(Move(s, t, q), c);
    hide Inv, Waiters;
  }

  /** A signal adds one credit while there are fewer credits than waiting threads. */
  lemma SignalExact(s: State, t: nat, c: nat)
    requires Reachable(s) && Callable(s, t, c)
    ensures Step(s, Signal(t, c)).Some?
    ensures var s' := Step(s, Signal(t, c)).value;
      var before := s.conds[c].pending;
      && c in s'.conds
      && s'.conds[c] == s.conds[c].(pending := if before < |Waiters(s, c)| then before + 1 else before)
      && Waiters(s', c) == Waiters(s, c)
      && s'.pcs == s.pcs[t := if Waiters(s, c) == {} then Idle else Signalling(c)]
  {
    ReachableOk(s);
    WaitersExact(s, c);
    OutsiderKeepsWaiters(s, t, Idle, c);
    OutsiderKeepsWaiters(s, t, Signalling(c), c);
    var s' := Step(s, Signal(t, c)).value;
    var q := if Waiters(s, c) == {} then Idle else Signalling(c);
    assert Waiters(s', c) == Waiters(Move(s, t, q), c);
    hide Inv, Waiters;
  }

  /** `pthread_cond_destroy` marks the condition variable exactly when no thread waits. */
  lemma CondDestroyExact(s: State, c: nat)
    requires Reachable(s) && CondOf(s, c).holder == None
    ensures Step(s, CondDestroy(c)).Some?
    ensures var s' := Step(s, CondDestroy(c)).value;
      CondOf(s', c).destroyed <==> CondOf(s, c).destroyed || Waiters(s, c) == {}
  {
    ReachableOk(s);
    WaitersExact(s, c);
    hide Inv, Waiters;
  }

  // ---- Runs after a broadcast ----

  /** A credit for every thread waiting. */
  predicate Covered(s: State, c: nat) {
    c in s.conds && s.conds[c].pending == |Waiters(s, c)|
  }

  /** A thread starts a wait on `c`. */
  ghost predicate EntersWait(s: State, e: Event, c: nat) {
    e.CondEnter? && e.c == c && Step(s, e).Some? && e.t in Step(s, e).value.pcs && Step(s, e).value.pcs[e.t].CondWait?
  }

  ghost predicate NobodyEnters(s: State, events: seq<Event>, c: nat)
    decreases |events|
  {
    events != [] ==>
      !EntersWait(s, events[0], c) && Step(s, events[0]).Some? && NobodyEnters(Step(s, events[0]).value, events[1..], c)
  }

  /** Equal counters. */
  predicate Even(s: State, c: nat) {
    c in s.conds && s.conds[c].pending == s.conds[c].waiters
  }

  lemma CoveredIsEven(s: State, c: nat)
    requires Inv(s)
    ensures Covered(s, c) <==> Even(s, c)
  {
    WaitersExact(s, c);
    hide Inv, Waiters;
  }

  lemma TesterWaits(s: State, t: nat)
    requires Inv(s) && MayTest(s, t)
    ensures 1 <= s.conds[s.pcs[t].w.cond].waiters
  {
    TesterCounted(s, t);
  }

  lemma TestKeepsEven(s: State, t: nat, expired: bool, c: nat)
    requires Inv(s) && MayTest(s, t) && TestStep(s, t, expired).Some? && Even(s, c)
    ensures Even(TestStep(s, t, expired).value, c)
    ensures var s' := TestStep(s, t, expired).value;
      s.pcs[t].w.cond == c ==> t in s'.pcs && s'.pcs[t] == CondWait(Relocking, s.pcs[t].w.(code := OK))
  {
    TesterWaits(s, t);
    hide Inv, MayTest;
  }

  lemma ResumeKeepsEven(s: State, t: nat, expired: bool, c: nat)
    requires Inv(s) && ResumeStep(s, t, expired).Some? && Even(s, c)
    ensures Even(ResumeStep(s, t, expired).value, c)
  {
    assert ThreadOk(s.mutexes, s.conds.Keys, t, s.pcs[t]);
    hide Inv, TestStep, ResumePass, LockPass, AfterLock, AfterRelock;
    if s.pcs[t].CondWait? && s.pcs[t].phase == Woken {
      TestKeepsEven(s, t, expired, c);
    }
  }

  lemma CondUnlockKeepsEven(s: State, t: nat, c: nat)
    requires Inv(s) && CondUnlockStep(s, t).Some? && Even(s, c)
    ensures Even(CondUnlockStep(s, t).value, c)
  {
    assert InPhase(s, t, Referenced);
    ReleaseMoves(s, t);
    ReleaseStep(s, t);
    hide Inv, UnlockPass, CondUnlockStep;
  }

  lemma CondCallKeepsEven(s: State, e: Event, c: nat)
    requires e.Signal? || e.Broadcast? || e.CondDestroy? || (e.CondEnter? && !EntersWait(s, e, c))
    requires Step(s, e).Some? && Even(s, c)
    ensures Even(Step(s, e).value, c)
  {
  }

  lemma OtherKeepsEven(s: State, e: Event, c: nat)
    requires !(e.Signal? || e.Broadcast? || e.CondDestroy? || e.CondEnter? || e.CondUnlock? || e.CondTest? || e.Resume?)
    requires Step(s, e).Some? && Even(s, c)
    ensures Even(Step(s, e).value, c)
  {
    hide LockPass, UnlockPass, AfterLock, AfterRelock, AfterReenter, Wakened, Reaches, ValidChoice, AfterNotify;
  }

  lemma StepKeepsEven(s: State, e: Event, c: nat)
    requires Inv(s) && Step(s, e).Some? && Even(s, c) && !EntersWait(s, e, c)
    ensures Even(Step(s, e).value, c)
  {
    hide Inv, CondUnlockStep, TestStep, ResumeStep, Even, EntersWait, GrantStep, CondEnterStep, CondDestroyStep;
    match e {
      case CondUnlock(t) => CondUnlockKeepsEven(s, t, c);
      case CondTest(t, expired) => TestKeepsEven(s, t, expired, c);
      case Resume(t, expired) => ResumeKeepsEven(s, t, expired, c);
      case Signal(_, _) => CondCallKeepsEven(s, e, c);
      case Broadcast(_, _) => CondCallKeepsEven(s, e, c);
      case CondDestroy(_) => CondCallKeepsEven(s, e, c);
      case CondEnter(_, _, _, _) => CondCallKeepsEven(s, e, c);
      case _ => OtherKeepsEven(s, e, c);
    }
  }

  // ---- Nobody is left behind ----

  predicate WaitsOn(pc: PC, c: nat) {
    EnteringCond(pc, c) || CondSleeper(pc, c) || CondWoken(pc, c)
  }

  lemma WakenedStillWaits(pc: PC, c: nat)
    requires WaitsOn(pc, c)
    ensures WaitsOn(Wakened(pc), c) && WaitsOn(AfterNotify(pc), c) && WaitsOn(AfterNotify(Wakened(pc)), c)
  {
  }

  lemma WakeupsKeepWaiting(s: State, e: Event, u: nat, c: nat)
    requires Step(s, e).Some? && MovesOthers(e) && u in s.pcs && WaitsOn(s.pcs[u], c)
    ensures var s' := Step(s, e).value; u in s'.pcs && WaitsOn(s'.pcs[u], c)
  {
    WakenedStillWaits(s.pcs[u], c);
    hide Wakened, Reaches, ValidChoice, AfterNotify, Sleeping, WaitsOn;
  }

  /** Moves of threads past their test, and of other threads. */
  lemma MovesKeepWaiting(s: State, e: Event, u: nat, c: nat)
    requires Step(s, e).Some? && u in s.pcs && WaitsOn(s.pcs[u], c)
    requires e.Relock? || e.Reenter? || e.CondReturn? || ((e.CondTest? || e.Resume? || e.CondUnlock?) && e.t != u)
    ensures var s' := Step(s, e).value; u in s'.pcs && s'.pcs[u] == s.pcs[u]
  {
    hide LockPass, UnlockPass, ResumePass, TestPass, AfterLock, AfterRelock, AfterReenter, AfterTest;
  }

  lemma ReleaseKeepsWaiting(s: State, u: nat, c: nat)
    requires Inv(s) && CondUnlockStep(s, u).Some? && u in s.pcs && WaitsOn(s.pcs[u], c)
    ensures var s' := CondUnlockStep(s, u).value; u in s'.pcs && WaitsOn(s'.pcs[u], c)
  {
    assert InPhase(s, u, Referenced);
    ReleaseMoves(s, u);
    ReleaseStep(s, u);
    hide Inv, UnlockPass, CondUnlockStep;
  }

  predicate TestOf(e: Event, u: nat) {
    (e.CondTest? || e.Resume?) && e.t == u
  }

  /** The test of a waiting thread while there is a credit for each. */
  lemma CoveredTest(s: State, e: Event, u: nat, c: nat)
    requires Inv(s) && Step(s, e).Some? && TestOf(e, u) && Even(s, c) && u in s.pcs && WaitsOn(s.pcs[u], c)
    ensures var s' := Step(s, e).value;
      u in s'.pcs && s'.pcs[u] == CondWait(Relocking, s.pcs[u].w.(code := OK))
  {
    assert ThreadOk(s.mutexes, s.conds.Keys, u, s.pcs[u]);
    hide Inv, TestStep, RelockStep;
    TestKeepsEven(s, u, e.expired, c);
  }

  /** Under a credit for each, a thread stops waiting only by its own test, which answers 0. */
  lemma WaiterOnlyAnswered(s: State, e: Event, u: nat, c: nat)
    requires Inv(s) && Step(s, e).Some? && Even(s, c) && u in s.pcs && WaitsOn(s.pcs[u], c)
    ensures var s' := Step(s, e).value;
      u in s'.pcs && if TestOf(e, u) then s'.pcs[u] == CondWait(Relocking, s.pcs[u].w.(code := OK))
                     else WaitsOn(s'.pcs[u], c)
  {
    hide Inv, Step, WaitsOn, Even, TestOf;
    if TestOf(e, u) {
      CoveredTest(s, e, u, c);
    } else if MovesOthers(e) {
      WakeupsKeepWaiting(s, e, u, c);
    } else {
      OwnMoveKeepsWaiting(s, e, u, c);
    }
  }

  lemma OwnMoveKeepsWaiting(s: State, e: Event, u: nat, c: nat)
    requires Inv(s) && Step(s, e).Some? && u in s.pcs && WaitsOn(s.pcs[u], c) && !TestOf(e, u) && !MovesOthers(e)
    ensures var s' := Step(s, e).value; u in s'.pcs && WaitsOn(s'.pcs[u], c)
  {
    if e == CondUnlock(u) {
      ReleaseKeepsWaiting(s, u, c);
    } else if MovesWaiter(e) {
      MovesKeepWaiting(s, e, u, c);
    } else {
      CallsKeepWait(s, e, u);
    }
    hide Inv, Step, WaitsOn;
  }

  lemma WaitersAre(s: State, c: nat)
    ensures forall u :: u in Waiters(s, c) <==> u in s.pcs && WaitsOn(s.pcs[u], c)
  {
  }

  lemma {:induction false} EvenAlongRun(s: State, events: seq<Event>, c: nat)
    requires Inv(s) && Run(s, events).Some? && Even(s, c) && NobodyEnters(s, events, c)
    ensures Inv(Run(s, events).value) && Even(Run(s, events).value, c)
    decreases |events|
  {
    hide Inv, Step, Even, EntersWait;
    if events != [] {
      StepKeeps(s, events[0]);
      StepKeepsEven(s, events[0], c);
      EvenAlongRun(Step(s, events[0]).value, events[1..], c);
    }
  }

  /** A broadcast releases every thread that waits when it is sent. As long as nobody else enters a wait, in any run
      from it there stays a credit for each thread still waiting, and each of their tests, however often the host
      wakes whom, and even past a deadline, answers 0 at once: nobody goes back to sleep and nobody times out. */
  lemma BroadcastReleasesAll(s: State, t: nat, c: nat, s1: State, events: seq<Event>, s2: State, e: Event, s3: State,
                             u: nat)
    requires Reachable(s) && Callable(s, t, c)
    requires Step(s, Broadcast(t, c)) == Some(s1)
    requires Run(s1, events) == Some(s2) && NobodyEnters(s1, events, c) && Step(s2, e) == Some(s3)
    requires u in Waiters(s2, c)
    ensures c in s2.conds && s2.conds[c].pending == |Waiters(s2, c)|
    ensures u in s2.pcs && u in s3.pcs
    ensures TestOf(e, u) ==>
      Answered(s3.pcs[u], c) && s3.pcs[u].phase == Relocking && SameWait(s2.pcs[u], s3.pcs[u])
    ensures !TestOf(e, u) ==> u in Waiters(s3, c)
  {
    BroadcastExact(s, t, c);
    ReachableOk(s);
    StepKeeps(s, Broadcast(t, c));
    CoveredIsEven(s1, c);
    hide Inv, Step, Run, NobodyEnters, Even, Waiters, WaitsOn, TestOf, Callable;
    EvenAlongRun(s1, events, c);
    CoveredIsEven(s2, c);
    WaitersAre(s2, c);
    WaitersAre(s3, c);
    WaiterOnlyAnswered(s2, e, u, c);
    AnsweredAtTest(s2.pcs[u], c);
  }

  lemma AnsweredAtTest(pc: PC, c: nat)
    requires WaitsOn(pc, c)
    ensures var q := CondWait(Relocking, pc.w.(code := OK)); Answered(q, c) && SameWait(pc, q)
  {
  }
}
