/** How many levels of a mutex a thread holds, over whole runs, and what lock and unlock calls answer
    (`src/pthread.rs`). */
module PthreadLevels {
  import opened Wrappers
  import opened Counting
  import opened PthreadMutex
  import opened PthreadCond
  import opened PthreadSystem
  import opened PthreadSystemProof
  import opened PthreadSafety

  // ---- Answers ----

  /** What a lock or unlock call returns once this event has decided it; `None` while it sleeps. */
  function CallAnswer(s: State, e: Event): Option<Errno> {
    match e
    case Lock(t, m, tryOnly) =>
      if m !in s.mutexes then None
      else if !s.mutexes[m].live then Some(EINVAL)
      else CodeOf(LockPass(s.mutexes[m], t, tryOnly).1)
    case Unlock(t, m) =>
      if m !in s.mutexes then None
      else if !s.mutexes[m].live then Some(EINVAL)
      else Some(UnlockPass(s.mutexes[m], t, false).1)
    case Resume(t, _) =>
      if t in s.pcs && s.pcs[t].LockWoken? && s.pcs[t].m in s.mutexes then
        CodeOf(ResumePass(s.mutexes[s.pcs[t].m], t).1)
      else None
    case _ => None
  }

  /** The event leaves `t` asleep in its lock call. */
  ghost predicate FallsAsleep(s: State, e: Event, t: nat, m: nat) {
    Step(s, e).Some? && t in Step(s, e).value.pcs && Step(s, e).value.pcs[t] == LockAsleep(m)
  }

  /** A lock or trylock call answers by the owner and the mutex type alone, and sleeps otherwise. */
  lemma LockAnswers(s: State, t: nat, m: nat, tryOnly: bool)
    requires IdleThread(s, t) && m in s.mutexes && s.mutexes[m].live
    ensures var v := s.mutexes[m];
      var e := Lock(t, m, tryOnly);
      var again := v.owner == Some(t) && v.kind == RECURSIVE;
      && (CallAnswer(s, e) == Some(OK) <==> v.owner == None || again)
      && (CallAnswer(s, e) == Some(EBUSY) <==> tryOnly && v.owner.Some? && !again)
      && (CallAnswer(s, e) == Some(EDEADLK) <==> !tryOnly && v.owner == Some(t) && v.kind == ERRORCHECK)
      && (CallAnswer(s, e) == None <==> FallsAsleep(s, e, t, m))
      && (CallAnswer(s, e) == None
          <==> !tryOnly && v.owner.Some? && !again && !(v.owner == Some(t) && v.kind == ERRORCHECK))
  {
  }

  /** A woken locker answers the same way. */
  lemma ResumedLockAnswers(s: State, t: nat, m: nat, expired: bool)
    requires t in s.pcs && s.pcs[t] == LockWoken(m) && m in s.mutexes
    ensures var v := s.mutexes[m];
      var e := Resume(t, expired);
      var again := v.owner == Some(t) && v.kind == RECURSIVE;
      && (CallAnswer(s, e) == Some(OK) <==> v.owner == None || again)
      && (CallAnswer(s, e) == Some(EDEADLK) <==> v.owner == Some(t) && v.kind == ERRORCHECK)
      && (CallAnswer(s, e) == None <==> FallsAsleep(s, e, t, m))
      && (CallAnswer(s, e).Some? ==> CallAnswer(s, e) == Some(OK) || CallAnswer(s, e) == Some(EDEADLK))
  {
  }

  /** An unlock by the owner succeeds; any other is refused and changes nothing. In every reachable state the
      owner's unlock frees the mutex exactly at the last level, and then it is about to notify; otherwise the
      owner keeps the mutex one level lower and nobody moves. */
  lemma UnlockExact(s: State, t: nat, m: nat)
    requires Reachable(s) && IdleThread(s, t) && m in s.mutexes && s.mutexes[m].live
    ensures var v := s.mutexes[m];
      var e := Unlock(t, m);
      && Step(s, e).Some?
      && var s' := Step(s, e).value;
      && m in s'.mutexes && t in s'.pcs
      && (CallAnswer(s, e) == if v.owner == Some(t) then Some(OK) else Some(EPERM))
      && (v.owner != Some(t) ==> s'.mutexes[m] == v && s'.pcs == s.pcs)
      && (v.owner == Some(t) && v.depth == 1 ==>
            s'.mutexes[m] == v.(owner := None, depth := 0) && s'.pcs == s.pcs[t := Notifying(m)])
      && (v.owner == Some(t) && v.depth != 1 ==>
            v.kind == RECURSIVE && s'.mutexes[m] == v.(depth := Decrement(v.depth)) && s'.pcs == s.pcs)
  {
    ReachableOk(s);
    assert MutexOkAt(s.mutexes, s.pcs, m);
    hide Inv, MutexCounts;
    assert s.pcs[t := Idle] == s.pcs;
  }

  // ---- Levels ----

  /** The levels of a mutex a thread holds; inside a condition wait, those it gave up and will get back. */
  function Level(s: State, t: nat, m: nat): nat {
    if t in s.pcs && CondReference(s.pcs[t], m) then s.pcs[t].w.depth
    else if m in s.mutexes && s.mutexes[m].owner == Some(t) then s.mutexes[m].depth
    else 0
  }

  /** A lock call of `t` on `m` returns 0. */
  predicate Locks(s: State, e: Event, t: nat, m: nat) {
    && CallAnswer(s, e) == Some(OK)
    && ((e.Lock? && e.t == t && e.m == m) || (e.Resume? && e.t == t && t in s.pcs && s.pcs[t] == LockWoken(m)))
  }

  /** An unlock call of `t` on `m` returns 0. */
  predicate Unlocks(s: State, e: Event, t: nat, m: nat) {
    CallAnswer(s, e) == Some(OK) && e == Unlock(t, m)
  }

  predicate Balanced(s: State, e: Event, s': State, t: nat, m: nat) {
    Level(s', t, m) == Level(s, t, m) + One(Locks(s, e, t, m)) - One(Unlocks(s, e, t, m))
  }

  lemma LockBalanced(s: State, u: nat, k: nat, tryOnly: bool, t: nat, m: nat)
    requires Inv(s) && LockStep(s, u, k, tryOnly).Some?
    ensures Balanced(s, Lock(u, k, tryOnly), LockStep(s, u, k, tryOnly).value, t, m)
  {
    assert MutexOkAt(s.mutexes, s.pcs, k);
    hide Inv, MutexCounts;
  }

  lemma UnlockBalanced(s: State, u: nat, k: nat, t: nat, m: nat)
    requires Inv(s) && UnlockStep(s, u, k).Some?
    ensures Balanced(s, Unlock(u, k), UnlockStep(s, u, k).value, t, m)
  {
    assert MutexOkAt(s.mutexes, s.pcs, k);
    hide Inv, MutexCounts;
  }

  lemma EnterSameLevel(s: State, u: nat, c: nat, k: nat, timed: bool, t: nat, m: nat)
    requires CondEnterStep(s, u, c, k, timed).Some?
    ensures Level(CondEnterStep(s, u, c, k, timed).value, t, m) == Level(s, t, m)
  {
  }

  /** A step that leaves the mutexes alone and keeps every wait leaves the levels alone. */
  lemma SameMutexesSameLevel(s: State, s': State, t: nat, m: nat)
    requires s'.mutexes == s.mutexes && (t in s'.pcs <==> t in s.pcs)
    requires t in s.pcs ==>
      (s.pcs[t].CondWait? <==> s'.pcs[t].CondWait?) && (s.pcs[t].CondWait? ==> SameWait(s.pcs[t], s'.pcs[t]))
    ensures Level(s', t, m) == Level(s, t, m)
  {
  }

  /** A thread that moves on inside its wait, changing at most its mutex, changes no level. */
  lemma WaiterSameLevel(s: State, s': State, u: nat, q: PC, v: MutexVars, t: nat, m: nat)
    requires u in s.pcs && SameWait(s.pcs[u], q) && s.pcs[u].w.mutex in s.mutexes
    requires s'.pcs == s.pcs[u := q] && s'.mutexes == s.mutexes[s.pcs[u].w.mutex := v]
    requires OwnerStep(s.mutexes[s.pcs[u].w.mutex], v, u)
    ensures Level(s', t, m) == Level(s, t, m)
  {
  }

  /** The critical sections change a mutex only as its owner or to become its owner. */
  lemma PassesAreOwnerSteps(v: MutexVars, t: nat)
    ensures forall tryOnly :: OwnerStep(v, LockPass(v, t, tryOnly).0, t)
    ensures forall forCondWait :: OwnerStep(v, UnlockPass(v, t, forCondWait).0, t)
    ensures OwnerStep(v, ResumePass(v, t).0, t)
  {
  }

  lemma CondUnlockSameLevel(s: State, u: nat, t: nat, m: nat)
    requires Inv(s) && CondUnlockStep(s, u).Some?
    ensures Level(CondUnlockStep(s, u).value, t, m) == Level(s, t, m)
  {
    assert InPhase(s, u, Referenced);
    ReleaseMoves(s, u);
    ReleaseStep(s, u);
    var w := s.pcs[u].w;
    var v := UnlockPass(s.mutexes[w.mutex], u, true).0;
    PassesAreOwnerSteps(s.mutexes[w.mutex], u);
    hide Inv, UnlockPass, CondUnlockStep, Level, OwnerStep;
    WaiterSameLevel(s, CondUnlockStep(s, u).value, u, CondWait(Unlocked, w), v, t, m);
  }

  lemma TestSameLevel(s: State, u: nat, expired: bool, t: nat, m: nat)
    requires u in s.pcs && s.pcs[u].CondWait? && s.pcs[u].w.cond in s.conds && TestStep(s, u, expired).Some?
    ensures Level(TestStep(s, u, expired).value, t, m) == Level(s, t, m)
  {
    PcsKeepWait(s.pcs[u].w, s.pcs[u].phase);
    hide TestPass, AfterTest, Level;
    SameMutexesSameLevel(s, TestStep(s, u, expired).value, t, m);
  }

  lemma RelockSameLevel(s: State, u: nat, resumed: bool, t: nat, m: nat)
    requires u in s.pcs && s.pcs[u].CondWait? && s.pcs[u].w.mutex in s.mutexes
    ensures Level(RelockStep(s, u, resumed), t, m) == Level(s, t, m)
  {
    var w := s.pcs[u].w;
    var mv := s.mutexes[w.mutex];
    PcsKeepWait(w, s.pcs[u].phase);
    PassesAreOwnerSteps(mv, u);
    var (v, pass) := if resumed then ResumePass(mv, u) else LockPass(mv, u, false);
    hide LockPass, ResumePass, AfterRelock, OwnerStep, SameWait, Level;
    WaiterSameLevel(s, RelockStep(s, u, resumed), u, AfterRelock(w, v.kind, pass), v, t, m);
  }

  lemma ReenterSameLevel(s: State, u: nat, t: nat, m: nat)
    requires ReenterStep(s, u).Some?
    ensures Level(ReenterStep(s, u).value, t, m) == Level(s, t, m)
  {
    var w := s.pcs[u].w;
    var mv := s.mutexes[w.mutex];
    PcsKeepWait(w, s.pcs[u].phase);
    PassesAreOwnerSteps(mv, u);
    var (v, pass) := LockPass(mv, u, false);
    hide LockPass, ResumePass, AfterReenter, OwnerStep, SameWait, Level;
    WaiterSameLevel(s, ReenterStep(s, u).value, u, AfterReenter(w, s.pcs[u].phase.i, pass), v, t, m);
  }

  /** The wait returns with the levels it gave up. */
  lemma ReturnSameLevel(s: State, u: nat, t: nat, m: nat)
    requires Inv(s) && CondReturnStep(s, u).Some?
    ensures Level(CondReturnStep(s, u).value, t, m) == Level(s, t, m)
  {
    ReturnOwns(s, u);
    hide Inv;
  }

  lemma WokenLockBalanced(s: State, u: nat, k: nat, expired: bool, t: nat, m: nat)
    requires u in s.pcs && s.pcs[u] == LockWoken(k) && k in s.mutexes
    ensures var (v, pass) := ResumePass(s.mutexes[k], u);
      Balanced(s, Resume(u, expired), Move(SetMutex(s, k, v), u, AfterLock(k, pass)), t, m)
  {
  }

  lemma ResumeBalanced(s: State, u: nat, expired: bool, t: nat, m: nat)
    requires ResumeStep(s, u, expired).Some?
    ensures Balanced(s, Resume(u, expired), ResumeStep(s, u, expired).value, t, m)
  {
    hide TestStep, RelockStep, ResumePass, AfterLock, Level;
    match s.pcs[u] {
      case LockWoken(k) => WokenLockBalanced(s, u, k, expired, t, m);
      case CondWait(Woken, w) => TestSameLevel(s, u, expired, t, m);
      case CondWait(RelockWoken, w) => RelockSameLevel(s, u, true, t, m);
      case _ =>
    }
  }

  lemma WakeupKeepsOutside(s: State, e: Event, t: nat)
    requires Step(s, e).Some? && t in s.pcs && !s.pcs[t].CondWait? && MovesOthers(e)
    ensures var s' := Step(s, e).value; t in s'.pcs && !s'.pcs[t].CondWait?
  {
    WakenedOutside(s.pcs[t]);
    hide Wakened, Reaches, ValidChoice, AfterNotify, Sleeping;
  }

  lemma WakenedOutside(pc: PC)
    requires !pc.CondWait?
    ensures !Wakened(pc).CondWait? && !AfterNotify(pc).CondWait? && !AfterNotify(Wakened(pc)).CondWait?
  {
  }

  lemma WakeupSameLevel(s: State, e: Event, t: nat, m: nat)
    requires Step(s, e).Some? && MovesOthers(e)
    ensures Level(Step(s, e).value, t, m) == Level(s, t, m)
  {
    if t in s.pcs && s.pcs[t].CondWait? { WakeupsKeepWait(s, e, t); }
    if t in s.pcs && !s.pcs[t].CondWait? { WakeupKeepsOutside(s, e, t); }
    WakeupFrame(s, e, t);
    hide Step, Level, SameWait;
    SameMutexesSameLevel(s, Step(s, e).value, t, m);
  }

  lemma WakeupFrame(s: State, e: Event, t: nat)
    requires Step(s, e).Some? && MovesOthers(e)
    ensures Step(s, e).value.mutexes == s.mutexes && (t in Step(s, e).value.pcs <==> t in s.pcs)
  {
    hide Wakened, Reaches, ValidChoice, AfterNotify, Sleeping;
  }

  lemma GrantSameLevel(s: State, u: nat, c: nat, all: bool, t: nat, m: nat)
    requires GrantStep(s, u, c, all).Some?
    ensures Level(GrantStep(s, u, c, all).value, t, m) == Level(s, t, m)
  {
    hide SignalPass, BroadcastPass;
  }

  lemma LifetimeSameLevel(s: State, e: Event, t: nat, m: nat)
    requires Step(s, e).Some? && (e.MutexInit? || e.MutexDestroy? || e.CondDestroy?)
    ensures Level(Step(s, e).value, t, m) == Level(s, t, m)
  {
  }

  /** Every event changes every thread's levels by its own successful locks and unlocks, and by nothing else. */
  lemma StepBalanced(s: State, e: Event, t: nat, m: nat)
    requires Inv(s) && Step(s, e).Some?
    ensures Balanced(s, e, Step(s, e).value, t, m)
  {
    hide Inv, LockStep, UnlockStep, CondEnterStep, CondUnlockStep, TestStep, RelockStep, ReenterStep, CondReturnStep,
      GrantStep, ResumeStep, ValidChoice, Level, LockPass, UnlockPass, ResumePass;
    match e {
      case Lock(u, k, tryOnly) => LockBalanced(s, u, k, tryOnly, t, m);
      case Unlock(u, k) => UnlockBalanced(s, u, k, t, m);
      case Resume(u, expired) => ResumeBalanced(s, u, expired, t, m);
      case CondEnter(u, c, k, timed) => EnterSameLevel(s, u, c, k, timed, t, m);
      case CondUnlock(u) => CondUnlockSameLevel(s, u, t, m);
      case CondTest(u, expired) => TestSameLevel(s, u, expired, t, m);
      case Relock(u) => RelockSameLevel(s, u, false, t, m);
      case Reenter(u) => ReenterSameLevel(s, u, t, m);
      case CondReturn(u) => ReturnSameLevel(s, u, t, m);
      case Signal(u, c) => GrantSameLevel(s, u, c, false, t, m);
      case Broadcast(u, c) => GrantSameLevel(s, u, c, true, t, m);
      case Wake(_) => WakeupSameLevel(s, e, t, m);
      case NotifyOne(_, _) => WakeupSameLevel(s, e, t, m);
      case NotifyAll(_) => WakeupSameLevel(s, e, t, m);
      case _ => LifetimeSameLevel(s, e, t, m);
    }
  }

  // ---- Whole runs ----

  /** How many lock calls of `t` on `m` a run answers with 0. */
  ghost function LocksAlong(s: State, events: seq<Event>, t: nat, m: nat): nat
    decreases |events|
  {
    if events == [] || Step(s, events[0]).None? then 0
    else One(Locks(s, events[0], t, m)) + LocksAlong(Step(s, events[0]).value, events[1..], t, m)
  }

  /** How many unlock calls of `t` on `m` a run answers with 0. */
  ghost function UnlocksAlong(s: State, events: seq<Event>, t: nat, m: nat): nat
    decreases |events|
  {
    if events == [] || Step(s, events[0]).None? then 0
    else One(Unlocks(s, events[0], t, m)) + UnlocksAlong(Step(s, events[0]).value, events[1..], t, m)
  }

  lemma {:induction false} LevelsAlongRun(s: State, events: seq<Event>, t: nat, m: nat)
    requires Inv(s) && Run(s, events).Some?
    ensures Level(Run(s, events).value, t, m)
         == Level(s, t, m) + LocksAlong(s, events, t, m) - UnlocksAlong(s, events, t, m)
    decreases |events|
  {
    hide Inv, Step, Level, Locks, Unlocks;
    if events != [] {
      StepKeeps(s, events[0]);
      StepBalanced(s, events[0], t, m);
      LevelsAlongRun(Step(s, events[0]).value, events[1..], t, m);
    }
  }

  lemma InitLevel(s: State, t: nat, m: nat)
    requires Init(s)
    ensures Level(s, t, m) == 0
  {
  }

  /** In every run, the successful locks of a thread less its successful unlocks are the levels it holds, given up
      or not to a condition wait; outside its own condition wait it owns the mutex at exactly that depth, and
      with none left it does not own it. */
  lemma LocksLessUnlocks(s0: State, events: seq<Event>, t: nat, m: nat)
    requires Init(s0) && Run(s0, events).Some?
    ensures var s := Run(s0, events).value;
      var held := LocksAlong(s0, events, t, m) - UnlocksAlong(s0, events, t, m);
      && 0 <= held
      && (t in s.pcs && CondReference(s.pcs[t], m) ==> s.pcs[t].w.depth == held)
      && (!(t in s.pcs && CondReference(s.pcs[t], m)) ==>
        && (0 < held <==> m in s.mutexes && s.mutexes[m].owner == Some(t))
        && (0 < held ==> s.mutexes[m].depth == held))
  {
    var s := Run(s0, events).value;
    InitOk(s0);
    InitLevel(s0, t, m);
    LevelsAlongRun(s0, events, t, m);
    RunKeeps(s0, events);
    assert MutexOkAt(s.mutexes, s.pcs, m);
    hide Inv, MutexCounts, Run, LocksAlong, UnlocksAlong;
  }
}
