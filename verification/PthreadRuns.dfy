/** Concrete runs of the mutex and condition-variable system, and what decides whether a wait sleeps. */
module PthreadRuns {
  import opened Wrappers
  import opened Counting
  import opened PthreadMutex
  import opened PthreadCond
  import opened PthreadSystem
  import opened PthreadSafety

  // ---- A wait's first test ----

  /** A wait is answered at its first test, without sleeping, exactly when a credit is pending there. */
  lemma FirstTestExact(s: State, t: nat, expired: bool)
    requires Reachable(s) && InPhase(s, t, Testing) && (expired ==> s.pcs[t].w.timed)
    ensures var c := s.pcs[t].w.cond;
      var r := Step(s, CondTest(t, expired));
      && r.Some? && t in r.value.pcs && r.value.pcs[t].CondWait? && c in r.value.conds
      && (r.value.pcs[t].phase == Relocking && r.value.pcs[t].w.code == OK <==> 0 < s.conds[c].pending)
      && (r.value.pcs[t].phase == Asleep <==> s.conds[c].pending == 0 && !expired)
      && (0 < s.conds[c].pending ==> InPhase(r.value, t, Relocking))
      && r.value.conds[c].pending == s.conds[c].pending - One(0 < s.conds[c].pending)
  {
    ReachableOk(s);
    assert ThreadOk(s.mutexes, s.conds.Keys, t, s.pcs[t]);
    hide Inv;
  }

  /** Two threads at once cannot be between the entry of a wait and its first test. */
  lemma OneEntering(s: State, c: nat, t: nat, u: nat)
    requires Inv(s) && c in s.conds
    requires t in s.pcs && EnteringCond(s.pcs[t], c) && u in s.pcs && EnteringCond(s.pcs[u], c)
    ensures t == u && s.conds[c].holder.Some?
  {
    assert CondOkAt(s.conds, s.ledgers, s.pcs, c);
    var at := ThreadsAt(s.pcs, (pc: PC) => EnteringCond(pc, c));
    assert t in at && u in at && |at| == CondCounts(s.pcs, c).entering;
    assert |at - {t}| == |at| - 1;
  }

  /** While a thread enters a wait, no other event touches the credits. */
  lemma EntryFreezesCredits(s: State, e: Event, t: nat, c: nat)
    requires Inv(s) && Step(s, e).Some? && c in s.conds && t in s.pcs && EnteringCond(s.pcs[t], c)
    requires forall expired :: e != CondTest(t, expired)
    ensures c in Step(s, e).value.conds && Step(s, e).value.conds[c].pending == s.conds[c].pending
  {
    OneEntering(s, c, t, t);
    if e.CondTest? && e.t in s.pcs && EnteringCond(s.pcs[e.t], c) {
      OneEntering(s, c, t, e.t);
    }
    hide Inv, LockPass, ResumePass, UnlockPass;
  }

  /** The run keeps `t` between the entry of its wait and its first test. */
  ghost predicate StaysEntering(s: State, events: seq<Event>, t: nat, c: nat)
    decreases |events|
  {
    events != [] ==>
      && Step(s, events[0]).Some?
      && var s' := Step(s, events[0]).value;
      && t in s'.pcs && EnteringCond(s'.pcs[t], c) && StaysEntering(s', events[1..], t, c)
  }

  lemma TestEndsEntry(s: State, t: nat, expired: bool, c: nat)
    requires Step(s, CondTest(t, expired)).Some?
    ensures var s' := Step(s, CondTest(t, expired)).value; t in s'.pcs && !EnteringCond(s'.pcs[t], c)
  {
  }

  lemma {:induction false} CreditsFrozenAlongRun(s: State, events: seq<Event>, t: nat, c: nat)
    requires Inv(s) && Run(s, events).Some? && StaysEntering(s, events, t, c)
    requires c in s.conds && t in s.pcs && EnteringCond(s.pcs[t], c)
    ensures var s' := Run(s, events).value; Inv(s') && c in s'.conds && s'.conds[c].pending == s.conds[c].pending
    decreases |events|
  {
    hide Inv, Step, EnteringCond;
    if events != [] {
      var e := events[0];
      if e.CondTest? && e.t == t {
        TestEndsEntry(s, t, e.expired, c);
      }
      StepKeeps(s, e);
      EntryFreezesCredits(s, e, t, c);
      CreditsFrozenAlongRun(Step(s, e).value, events[1..], t, c);
    }
  }

  /** Whether a wait is answered without sleeping is decided at its entry: exactly when a credit is pending
      then, whatever everybody else does until its first test. */
  lemma SleepDecidedAtEntry(s: State, t: nat, c: nat, m: nat, timed: bool, s1: State, events: seq<Event>, s2: State,
                            expired: bool)
    requires Reachable(s)
    requires Step(s, CondEnter(t, c, m, timed)) == Some(s1) && t in s1.pcs && s1.pcs[t].CondWait?
    requires Run(s1, events) == Some(s2) && StaysEntering(s1, events, t, c) && InPhase(s2, t, Testing)
    requires s2.pcs[t].w.cond == c && (expired ==> s2.pcs[t].w.timed)
    ensures var r := Step(s2, CondTest(t, expired));
      && r.Some? && t in r.value.pcs && r.value.pcs[t].CondWait?
      && (r.value.pcs[t].phase == Relocking && r.value.pcs[t].w.code == OK <==> 0 < CondOf(s, c).pending)
  {
    ReachableOk(s);
    StepKeeps(s, CondEnter(t, c, m, timed));
    EntryPending(s, t, c, m, timed);
    hide Inv, StaysEntering, Run, InPhase, CondEnterStep, EnteringCond;
    CreditsFrozenAlongRun(s1, events, t, c);
    FirstTestFrom(s2, t, expired);
  }

  lemma EntryPending(s: State, t: nat, c: nat, m: nat, timed: bool)
    requires CondEnterStep(s, t, c, m, timed).Some?
    ensures var s1 := CondEnterStep(s, t, c, m, timed).value;
      t in s1.pcs && (s1.pcs[t].CondWait? ==>
        EnteringCond(s1.pcs[t], c) && c in s1.conds && s1.conds[c].pending == CondOf(s, c).pending)
  {
  }

  lemma FirstTestFrom(s: State, t: nat, expired: bool)
    requires Inv(s) && InPhase(s, t, Testing) && (expired ==> s.pcs[t].w.timed)
    ensures var r := Step(s, CondTest(t, expired));
      && r.Some? && t in r.value.pcs && r.value.pcs[t].CondWait?
      && (r.value.pcs[t].phase == Relocking && r.value.pcs[t].w.code == OK <==> 0 < s.conds[s.pcs[t].w.cond].pending)
  {
    assert ThreadOk(s.mutexes, s.conds.Keys, t, s.pcs[t]);
    hide Inv;
  }

  // ---- Runs of three threads, one mutex and one condition variable ----

  function Threads(p0: PC, p1: PC, p2: PC): map<nat, PC> {
    map[0 := p0, 1 := p1, 2 := p2]
  }

  /** The state with mutex 0 and condition variable 0. */
  function World(mv: MutexVars, cv: CondVars, l: Ledger, p0: PC, p1: PC, p2: PC): State {
    State(map[0 := mv], map[0 := cv], map[0 := l], Threads(p0, p1, p2))
  }

  /** The state before the condition variable's first use. */
  function MutexWorld(mv: MutexVars, p0: PC): State {
    State(map[0 := mv], map[], map[], Threads(p0, Idle, Idle))
  }

  const THREE_THREADS := State(map[], map[], map[], Threads(Idle, Idle, Idle))

  function Held(owner: Option<nat>, condWaiters: nat): MutexVars {
    MutexVars(NORMAL, owner, if owner == None then 0 else 1, 0, condWaiters, true)
  }

  const WAIT := WaitRecord(0, 0, false, 1, OK)

  lemma {:induction false} RunSnoc(s0: State, events: seq<Event>, s: State, e: Event, s': State)
    requires Run(s0, events) == Some(s) && Step(s, e) == Some(s')
    ensures Run(s0, events + [e]) == Some(s')
    decreases |events|
  {
    hide Step;
    if events == [] {
      assert ([] + [e])[1..] == [] && Run(s', []) == Some(s');
    } else {
      assert (events + [e])[0] == events[0] && (events + [e])[1..] == events[1..] + [e];
      RunSnoc(Step(s0, events[0]).value, events[1..], s, e, s');
    }
  }

  lemma Replaced<V>(a: V, b: V)
    ensures var m: map<nat, V> := map[0 := a]; m[0 := b] == map[0 := b]
  {
  }

  lemma ThreadMoves(p0: PC, p1: PC, p2: PC, q: PC)
    ensures Threads(p0, p1, p2)[0 := q] == Threads(q, p1, p2)
    ensures Threads(p0, p1, p2)[1 := q] == Threads(p0, q, p2)
    ensures Threads(p0, p1, p2)[2 := q] == Threads(p0, p1, q)
  {
    ThreeKeys(p0, p1, p2, q);
  }

  lemma ThreeKeys<V>(a: V, b: V, c: V, q: V)
    ensures var m: map<nat, V> := map[0 := a, 1 := b, 2 := c];
      && m[0 := q] == map[0 := q, 1 := b, 2 := c]
      && m[1 := q] == map[0 := a, 1 := q, 2 := c]
      && m[2 := q] == map[0 := a, 1 := b, 2 := q]
  {
  }

  lemma MutexWorldSteps()
    ensures Step(THREE_THREADS, MutexInit(0, NORMAL)) == Some(MutexWorld(Held(None, 0), Idle))
    ensures Step(MutexWorld(Held(None, 0), Idle), Lock(0, 0, false)) == Some(MutexWorld(Held(Some(0), 0), Idle))
    ensures Step(MutexWorld(Held(Some(0), 0), Idle), Unlock(0, 0)) == Some(MutexWorld(Held(None, 0), Notifying(0)))
    ensures Step(MutexWorld(Held(None, 0), Notifying(0)), MutexDestroy(0))
         == Some(MutexWorld(Held(None, 0).(live := false), Notifying(0)))
  {
    ThreadMoves(Idle, Idle, Idle, Idle);
    ThreadMoves(Idle, Idle, Idle, Notifying(0));
    Replaced(Held(None, 0), Held(Some(0), 0));
    Replaced(Held(Some(0), 0), Held(None, 0));
    Replaced(Held(None, 0), Held(None, 0).(live := false));
  }

  /** A run in which a destroy succeeds before the unlocker has notified. */
  lemma DestroyBeforeNotifyRun()
    ensures var events := [MutexInit(0, NORMAL), Lock(0, 0, false), Unlock(0, 0), MutexDestroy(0)];
      && Init(THREE_THREADS) && Run(THREE_THREADS, events).Some?
      && var s := Run(THREE_THREADS, events).value;
      && Reachable(s) && !s.mutexes[0].live && s.pcs[0] == Notifying(0)
  {
    MutexWorldSteps();
    hide Step;
    var s3 := MutexWorld(Held(None, 0), Notifying(0));
    var s4 := MutexWorld(Held(None, 0).(live := false), Notifying(0));
    RunSnoc(THREE_THREADS, [], THREE_THREADS, MutexInit(0, NORMAL), MutexWorld(Held(None, 0), Idle));
    RunSnoc(THREE_THREADS, [MutexInit(0, NORMAL)], MutexWorld(Held(None, 0), Idle), Lock(0, 0, false),
            MutexWorld(Held(Some(0), 0), Idle));
    RunSnoc(THREE_THREADS, [MutexInit(0, NORMAL), Lock(0, 0, false)], MutexWorld(Held(Some(0), 0), Idle), Unlock(0, 0),
            s3);
    RunSnoc(THREE_THREADS, [MutexInit(0, NORMAL), Lock(0, 0, false), Unlock(0, 0)], s3, MutexDestroy(0), s4);
  }

  // ---- A signal sent to a sleeper, taken by a latecomer ----

  function Credits(waiters: nat, pending: nat, holder: Option<nat>): CondVars {
    CondVars(waiters, pending, holder, false)
  }

  function Waiting(phase: Phase): PC {
    CondWait(phase, WAIT)
  }

  /** Thread 0 entering its wait, the mutex with this owner. */
  function FirstEntering(owner: Option<nat>, phase: Phase): State {
    World(Held(owner, 1), Credits(1, 0, Some(0)), Ledger(0, 0), Waiting(phase), Idle, Idle)
  }

  /** One credit granted while thread 0 is the only waiter. */
  function Signalled(owner: Option<nat>, phase: Phase, p2: PC): State {
    World(Held(owner, 1), Credits(1, 1, None), Ledger(1, 0), Waiting(phase), Idle, p2)
  }

  /** Thread 1 entering its wait on top. */
  function SecondEntering(owner: Option<nat>, phase: Phase): State {
    World(Held(owner, 2), Credits(2, 1, Some(1)), Ledger(1, 0), Waiting(Woken), Waiting(phase), Idle)
  }

  /** The credit gone to thread 1. */
  function Taken(phase: Phase): State {
    World(Held(None, 2), Credits(1, 0, None), Ledger(1, 0), Waiting(phase), Waiting(Relocking), Idle)
  }

  /** Thread 0 asleep as the only waiter. */
  function SleeperWorld(): State {
    World(Held(None, 1), Credits(1, 0, None), Ledger(0, 0), Waiting(Asleep), Idle, Idle)
  }

  /** Thread 1 entering its wait after thread 2 signalled and the host woke thread 0. */
  function LatecomerWorld(): State {
    SecondEntering(None, Testing)
  }

  /** Thread 1 answered with 0, thread 0 asleep again. */
  function TakenWorld(): State {
    Taken(Asleep)
  }

  lemma SleeperEnters()
    ensures Step(MutexWorld(Held(Some(0), 0), Idle), CondEnter(0, 0, 0, false))
         == Some(FirstEntering(Some(0), Referenced))
  {
    Replaced(Held(Some(0), 0), Held(Some(0), 1));
    ThreadMoves(Idle, Idle, Idle, Waiting(Referenced));
  }

  lemma SleeperUnlocks()
    ensures Step(FirstEntering(Some(0), Referenced), CondUnlock(0))
         == Some(FirstEntering(None, Unlocked))
  {
    Replaced(Held(Some(0), 1), Held(None, 1));
    Replaced(Ledger(0, 0), Ledger(0, 0));
    ThreadMoves(Waiting(Referenced), Idle, Idle, Waiting(Unlocked));
  }

  lemma SleeperNotifies()
    ensures Step(FirstEntering(None, Unlocked), NotifyOne(0, None))
         == Some(FirstEntering(None, Testing))
  {
    Replaced(Ledger(0, 0), Ledger(0, 0));
    ThreadMoves(Waiting(Unlocked), Idle, Idle, Waiting(Testing));
  }

  lemma SleeperTests()
    ensures Step(FirstEntering(None, Testing), CondTest(0, false))
         == Some(SleeperWorld())
  {
    Replaced(Credits(1, 0, Some(0)), Credits(1, 0, None));
    Replaced(Ledger(0, 0), Ledger(0, 0));
    ThreadMoves(Waiting(Testing), Idle, Idle, Waiting(Asleep));
  }

  lemma Signals()
    ensures Step(SleeperWorld(), Signal(2, 0))
         == Some(Signalled(None, Asleep, Signalling(0)))
  {
    Replaced(Credits(1, 0, None), Credits(1, 1, None));
    Replaced(Ledger(0, 0), Ledger(1, 0));
    ThreadMoves(Waiting(Asleep), Idle, Idle, Signalling(0));
  }

  lemma Wakes()
    ensures Step(Signalled(None, Asleep, Signalling(0)), NotifyOne(2, Some(0)))
         == Some(Signalled(None, Woken, Idle))
  {
    Replaced(Ledger(1, 0), Ledger(1, 0));
    ThreadMoves(Waiting(Asleep), Idle, Signalling(0), Waiting(Woken));
    ThreadMoves(Waiting(Asleep), Idle, Signalling(0), Idle);
    ThreadMoves(Waiting(Woken), Idle, Signalling(0), Idle);
  }

  lemma LatecomerLocks()
    ensures Step(Signalled(None, Woken, Idle), Lock(1, 0, false))
         == Some(Signalled(Some(1), Woken, Idle))
  {
    ThreadMoves(Waiting(Woken), Idle, Idle, Idle);
    Replaced(Held(None, 1), Held(Some(1), 1));
    Replaced(Ledger(1, 0), Ledger(1, 0));
  }

  lemma LatecomerEnters()
    ensures Step(Signalled(Some(1), Woken, Idle), CondEnter(1, 0, 0, false))
         == Some(SecondEntering(Some(1), Referenced))
  {
    Replaced(Held(Some(1), 1), Held(Some(1), 2));
    Replaced(Credits(1, 1, None), Credits(2, 1, Some(1)));
    Replaced(Ledger(1, 0), Ledger(1, 0));
    ThreadMoves(Waiting(Woken), Idle, Idle, Waiting(Referenced));
  }

  lemma LatecomerUnlocks()
    ensures Step(SecondEntering(Some(1), Referenced), CondUnlock(1))
         == Some(SecondEntering(None, Unlocked))
  {
    Replaced(Held(Some(1), 2), Held(None, 2));
    Replaced(Ledger(1, 0), Ledger(1, 0));
    ThreadMoves(Waiting(Woken), Waiting(Referenced), Idle, Waiting(Unlocked));
  }

  lemma LatecomerNotifies()
    ensures Step(SecondEntering(None, Unlocked), NotifyOne(1, None))
         == Some(LatecomerWorld())
  {
    Replaced(Ledger(1, 0), Ledger(1, 0));
    ThreadMoves(Waiting(Woken), Waiting(Unlocked), Idle, Waiting(Testing));
  }

  lemma LatecomerTests()
    ensures Step(LatecomerWorld(), CondTest(1, false))
         == Some(Taken(Woken))
  {
    Replaced(Credits(2, 1, Some(1)), Credits(1, 0, None));
    Replaced(Ledger(1, 0), Ledger(1, 0));
    ThreadMoves(Waiting(Woken), Waiting(Testing), Idle, Waiting(Relocking));
  }

  lemma SleeperResumes()
    ensures Step(Taken(Woken), Resume(0, false))
         == Some(TakenWorld())
  {
    Replaced(Credits(1, 0, None), Credits(1, 0, None));
    Replaced(Ledger(1, 0), Ledger(1, 0));
    ThreadMoves(Waiting(Woken), Waiting(Relocking), Idle, Waiting(Asleep));
  }

  const SIGNAL_RUN: seq<Event> := [
    MutexInit(0, NORMAL), Lock(0, 0, false),
    CondEnter(0, 0, 0, false), CondUnlock(0), NotifyOne(0, None), CondTest(0, false),
    Signal(2, 0), NotifyOne(2, Some(0)), Lock(1, 0, false),
    CondEnter(1, 0, 0, false), CondUnlock(1), NotifyOne(1, None), CondTest(1, false),
    Resume(0, false)]

  lemma RunOn(k: nat, s: State, s': State)
    requires k < |SIGNAL_RUN| && Run(THREE_THREADS, SIGNAL_RUN[..k]) == Some(s) && Step(s, SIGNAL_RUN[k]) == Some(s')
    ensures Run(THREE_THREADS, SIGNAL_RUN[..k + 1]) == Some(s')
  {
    hide Step, Run;
    assert SIGNAL_RUN[..k] + [SIGNAL_RUN[k]] == SIGNAL_RUN[..k + 1];
    RunSnoc(THREE_THREADS, SIGNAL_RUN[..k], s, SIGNAL_RUN[k], s');
  }

  lemma RunToSleeper()
    ensures Run(THREE_THREADS, SIGNAL_RUN[..6]) == Some(SleeperWorld())
  {
    hide Step, Run, MutexWorld, SleeperWorld, FirstEntering;
    RunNothing();
    MutexWorldSteps();
    SleeperEnters();
    SleeperUnlocks();
    SleeperNotifies();
    SleeperTests();
    RunOn(0, THREE_THREADS, MutexWorld(Held(None, 0), Idle));
    RunOn(1, MutexWorld(Held(None, 0), Idle), MutexWorld(Held(Some(0), 0), Idle));
    var s3 := FirstEntering(Some(0), Referenced);
    var s4 := FirstEntering(None, Unlocked);
    var s5 := FirstEntering(None, Testing);
    RunOn(2, MutexWorld(Held(Some(0), 0), Idle), s3);
    RunOn(3, s3, s4);
    RunOn(4, s4, s5);
    RunOn(5, s5, SleeperWorld());
  }

  lemma RunNothing()
    ensures Run(THREE_THREADS, SIGNAL_RUN[..0]) == Some(THREE_THREADS)
  {
    assert SIGNAL_RUN[..0] == [];
  }

  lemma RunToLatecomer()
    ensures Run(THREE_THREADS, SIGNAL_RUN[..12]) == Some(LatecomerWorld())
  {
    hide Step, Run, SleeperWorld, LatecomerWorld, Signalled, SecondEntering;
    RunToSleeper();
    Signals();
    Wakes();
    LatecomerLocks();
    LatecomerEnters();
    LatecomerUnlocks();
    LatecomerNotifies();
    var s7 := Signalled(None, Asleep, Signalling(0));
    var s8 := Signalled(None, Woken, Idle);
    var s9 := Signalled(Some(1), Woken, Idle);
    var s10 := SecondEntering(Some(1), Referenced);
    var s11 := SecondEntering(None, Unlocked);
    RunOn(6, SleeperWorld(), s7);
    RunOn(7, s7, s8);
    RunOn(8, s8, s9);
    RunOn(9, s9, s10);
    RunOn(10, s10, s11);
    RunOn(11, s11, LatecomerWorld());
  }

  /** A signal is not reserved for the threads that wait when it is sent: a run in which thread 0 is the
      only waiter at the signal, is even woken for it, and goes back to sleep because thread 1, which
      entered its wait later, took the credit at its first test. */
  lemma SignalTakenByLatecomer()
    ensures Init(THREE_THREADS) && SIGNAL_RUN[6] == Signal(2, 0)
    ensures Run(THREE_THREADS, SIGNAL_RUN[..6]) == Some(SleeperWorld())
    ensures Waiters(SleeperWorld(), 0) == {0} && SleeperWorld().pcs[0].CondWait? && SleeperWorld().pcs[1] == Idle
    ensures Reachable(LatecomerWorld()) && InPhase(LatecomerWorld(), 1, Testing)
    ensures LatecomerWorld().conds[0].pending == 1
    ensures Run(THREE_THREADS, SIGNAL_RUN) == Some(TakenWorld())
    ensures Answered(TakenWorld().pcs[1], 0) && CondSleeper(TakenWorld().pcs[0], 0)
    ensures TakenWorld().conds[0].pending == 0
  {
    WorldFacts();
    hide Step, Run, Init, LatecomerWorld, TakenWorld, SleeperWorld, Taken, Waiters, InPhase, CondSleeper, Answered;
    RunToSleeper();
    RunToLatecomer();
    LatecomerTests();
    SleeperResumes();
    var s13 := Taken(Woken);
    RunOn(12, LatecomerWorld(), s13);
    RunOn(13, s13, TakenWorld());
    assert SIGNAL_RUN[..14] == SIGNAL_RUN;
  }

  lemma WorldFacts()
    ensures Init(THREE_THREADS) && SIGNAL_RUN[6] == Signal(2, 0)
    ensures Waiters(SleeperWorld(), 0) == {0} && SleeperWorld().pcs[0].CondWait? && SleeperWorld().pcs[1] == Idle
    ensures InPhase(LatecomerWorld(), 1, Testing) && LatecomerWorld().conds[0].pending == 1
    ensures Answered(TakenWorld().pcs[1], 0) && CondSleeper(TakenWorld().pcs[0], 0)
    ensures TakenWorld().conds[0].pending == 0
  {
  }
}
