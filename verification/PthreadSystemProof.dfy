/** Safety of the mutex and condition-variable system over every run. */
module PthreadSystemProof {
  import opened Wrappers
  import opened Counting
  import opened PthreadMutex
  import opened PthreadCond
  import opened PthreadSystem

  // ---- Counting one move ----

  lemma MutexCountsMove(pcs: map<nat, PC>, t: nat, q: PC, m: nat)
    requires t in pcs
    ensures MutexCounts(pcs[t := q], m) == ShiftMutex(MutexCounts(pcs, m), MutexClass(pcs[t], m), MutexClass(q, m))
  {
    CountMove(pcs, t, q, (pc: PC) => MutexSleeper(pc, m));
    CountMove(pcs, t, q, (pc: PC) => MutexWoken(pc, m));
    CountMove(pcs, t, q, (pc: PC) => MutexNotifier(pc, m));
    CountMove(pcs, t, q, (pc: PC) => CondReference(pc, m));
  }

  lemma CondCountsMove(pcs: map<nat, PC>, t: nat, q: PC, c: nat)
    requires t in pcs
    ensures CondCounts(pcs[t := q], c) == ShiftCond(CondCounts(pcs, c), CondClass(pcs[t], c), CondClass(q, c))
  {
    CountMove(pcs, t, q, (pc: PC) => EnteringCond(pc, c));
    CountMove(pcs, t, q, (pc: PC) => CondSleeper(pc, c));
    CountMove(pcs, t, q, (pc: PC) => CondWoken(pc, c));
    CountMove(pcs, t, q, (pc: PC) => pc == Signalling(c));
    CountMove(pcs, t, q, (pc: PC) => pc == Broadcasting(c));
    CountMove(pcs, t, q, (pc: PC) => Answered(pc, c));
  }

  /** Thread `t` changes a mutex only as its owner or to become its owner. */
  predicate OwnerStep(v: MutexVars, v': MutexVars, t: nat) {
    && v'.kind == v.kind && v'.live == v.live
    && ((v'.owner == v.owner && v'.depth == v.depth)
        || ((v.owner == None || v.owner == Some(t)) && (v'.owner == None || v'.owner == Some(t))))
  }

  lemma MutexesKept(mutexes: map<nat, MutexVars>, pcs: map<nat, PC>, t: nat, q: PC, m: nat, v: MutexVars)
    requires MutexesOk(mutexes, pcs) && t in pcs && m in mutexes
    requires forall k :: k != m ==> MutexClass(pcs[t], k) == MutexClass(q, k)
    requires MutexOk(v, ShiftMutex(MutexCounts(pcs, m), MutexClass(pcs[t], m), MutexClass(q, m)))
    ensures MutexesOk(mutexes[m := v], pcs[t := q])
  {
    hide MutexCounts, MutexClass, MutexOk;
    var mutexes', pcs' := mutexes[m := v], pcs[t := q];
    forall k
      ensures MutexOkAt(mutexes', pcs', k)
    {
      assert MutexOkAt(mutexes, pcs, k);
      MutexCountsMove(pcs, t, q, k);
    }
  }

  /** A move between places no mutex counts. */
  lemma MutexesUntouched(mutexes: map<nat, MutexVars>, pcs: map<nat, PC>, t: nat, q: PC)
    requires MutexesOk(mutexes, pcs) && t in pcs
    requires forall k :: MutexClass(pcs[t], k) == MutexClass(q, k)
    ensures MutexesOk(mutexes, pcs[t := q])
  {
    hide MutexCounts, MutexClass, MutexOk;
    var pcs' := pcs[t := q];
    forall k
      ensures MutexOkAt(mutexes, pcs', k)
    {
      assert MutexOkAt(mutexes, pcs, k);
      MutexCountsMove(pcs, t, q, k);
    }
  }

  lemma CondsKept(conds: map<nat, CondVars>, ledgers: map<nat, Ledger>, pcs: map<nat, PC>,
                  t: nat, q: PC, c: nat, v: CondVars, l: Ledger)
    requires CondsOk(conds, ledgers, pcs) && t in pcs
    requires forall k :: k != c ==> CondClass(pcs[t], k) == CondClass(q, k)
    requires CondOk(v, l, ShiftCond(CondCounts(pcs, c), CondClass(pcs[t], c), CondClass(q, c)))
    ensures CondsOk(conds[c := v], ledgers[c := l], pcs[t := q])
  {
    hide CondCounts, CondClass, CondOk;
    var conds', ledgers', pcs' := conds[c := v], ledgers[c := l], pcs[t := q];
    forall k
      ensures CondOkAt(conds', ledgers', pcs', k)
    {
      assert CondOkAt(conds, ledgers, pcs, k);
      CondCountsMove(pcs, t, q, k);
    }
  }

  /** A move between places no condition variable counts. */
  lemma CondsUntouched(conds: map<nat, CondVars>, ledgers: map<nat, Ledger>, pcs: map<nat, PC>, t: nat, q: PC)
    requires CondsOk(conds, ledgers, pcs) && t in pcs
    requires forall k :: CondClass(pcs[t], k) == CondClass(q, k)
    ensures CondsOk(conds, ledgers, pcs[t := q])
  {
    hide CondCounts, CondClass, CondOk;
    var pcs' := pcs[t := q];
    forall k
      ensures CondOkAt(conds, ledgers, pcs', k)
    {
      assert CondOkAt(conds, ledgers, pcs, k);
      CondCountsMove(pcs, t, q, k);
    }
  }

  lemma ThreadsKept(mutexes: map<nat, MutexVars>, conds: set<nat>, pcs: map<nat, PC>,
                    t: nat, q: PC, m: nat, v: MutexVars, conds': set<nat>)
    requires ThreadsOk(mutexes, conds, pcs) && t in pcs && m in mutexes && conds <= conds'
    requires OwnerStep(mutexes[m], v, t)
    requires ThreadOk(mutexes[m := v], conds', t, q)
    ensures ThreadsOk(mutexes[m := v], conds', pcs[t := q])
  {
    forall u | u in pcs && u != t
      ensures ThreadOk(mutexes[m := v], conds', u, pcs[u])
    {
      assert ThreadOk(mutexes, conds, u, pcs[u]);
    }
  }

  // ---- Classes of condition-wait phases ----

  function PhaseMutexClass(phase: Phase): MutexCount {
    MutexCount(One(phase == RelockAsleep), One(phase == RelockWoken), One(phase == Unlocked), 1)
  }

  function PhaseCondClass(phase: Phase, code: Errno): CondCount {
    var after := phase.Relocking? || phase.RelockAsleep? || phase.RelockWoken? || phase.Reentering? || phase.Leaving?;
    CondCount(One(phase == Referenced || phase == Unlocked || phase == Testing),
              One(phase == Asleep), One(phase == Woken),
              0, 0, One(after && code == OK))
  }

  lemma WaitClasses(phase: Phase, w: WaitRecord)
    ensures forall k :: MutexClass(CondWait(phase, w), k) == if k == w.mutex then PhaseMutexClass(phase) else NO_MUTEX
    ensures forall k ::
      CondClass(CondWait(phase, w), k) == if k == w.cond then PhaseCondClass(phase, w.code) else NO_COND
  {
  }

  lemma OtherClasses(pc: PC)
    requires !pc.CondWait?
    ensures forall k ::
      MutexClass(pc, k) == MutexCount(One(pc == LockAsleep(k)), One(pc == LockWoken(k)), One(pc == Notifying(k)), 0)
    ensures forall k :: CondClass(pc, k) == CondCount(0, 0, 0, One(pc == Signalling(k)), One(pc == Broadcasting(k)), 0)
  {
  }

  // ---- One critical section, over counts alone ----

  lemma LockPassOk(v: MutexVars, n: MutexCount, t: nat, tryOnly: bool)
    requires MutexOk(v, n) && Natural(n) && v.live
    ensures var (v', pass) := LockPass(v, t, tryOnly);
      && OwnerStep(v, v', t)
      && MutexOk(v', n.(sleeping := n.sleeping + One(pass.Sleep?)))
      && (pass == Return(OK) ==> v'.owner == Some(t) && v'.depth == if v.owner == None then 1 else v.depth + 1)
      && (pass == Return(OK) && v.owner == Some(t) ==> v.kind == RECURSIVE)
      && (pass != Return(OK) ==> v'.owner == v.owner)
      && (pass.Return? && pass.code != OK ==> tryOnly || v.owner == Some(t))
  {
  }

  lemma ResumePassOk(v: MutexVars, n: MutexCount, t: nat)
    requires MutexOk(v, n) && Natural(n) && v.live && 1 <= n.woken
    ensures var (v', pass) := ResumePass(v, t);
      && OwnerStep(v, v', t)
      && MutexOk(v', n.(sleeping := n.sleeping + One(pass.Sleep?), woken := n.woken - 1))
      && (pass == Return(OK) ==> v'.owner == Some(t) && v'.depth == if v.owner == None then 1 else v.depth + 1)
      && (pass != Return(OK) ==> v'.owner == v.owner)
      && (pass.Return? && pass.code != OK ==> v.owner == Some(t))
  {
  }

  lemma UnlockPassOk(v: MutexVars, n: MutexCount, t: nat, forCondWait: bool)
    requires MutexOk(v, n) && Natural(n) && v.live
    ensures var (v', code, notify) := UnlockPass(v, t, forCondWait);
      && OwnerStep(v, v', t)
      && MutexOk(v', n.(notifying := n.notifying + One(notify)))
      && (code == OK <==> v.owner == Some(t))
      && (code == OK && forCondWait ==> notify && v'.owner == None)
  {
  }

  // ---- Every event keeps the invariant ----

  lemma LockKeeps(s: State, t: nat, m: nat, tryOnly: bool)
    requires Inv(s) && LockStep(s, t, m, tryOnly).Some?
    ensures Inv(LockStep(s, t, m, tryOnly).value)
  {
    hide MutexCounts, CondCounts, MutexClass, CondClass, LockPass, MutexOk, CondsOk, ThreadsOk;
    if s.mutexes[m].live {
      var (v, pass) := LockPass(s.mutexes[m], t, tryOnly);
      var q := AfterLock(m, pass);
      assert MutexOkAt(s.mutexes, s.pcs, m);
      LockPassOk(s.mutexes[m], MutexCounts(s.pcs, m), t, tryOnly);
      OtherClasses(Idle);
      OtherClasses(q);
      MutexesKept(s.mutexes, s.pcs, t, q, m, v);
      CondsUntouched(s.conds, s.ledgers, s.pcs, t, q);
      ThreadsKept(s.mutexes, s.conds.Keys, s.pcs, t, q, m, v, s.conds.Keys);
    }
  }

  lemma UnlockKeeps(s: State, t: nat, m: nat)
    requires Inv(s) && UnlockStep(s, t, m).Some?
    ensures Inv(UnlockStep(s, t, m).value)
  {
    hide MutexCounts, CondCounts, MutexClass, CondClass, UnlockPass, MutexOk, CondsOk, ThreadsOk;
    if s.mutexes[m].live {
      var (v, code, notify) := UnlockPass(s.mutexes[m], t, false);
      var q := if notify then Notifying(m) else Idle;
      assert MutexOkAt(s.mutexes, s.pcs, m);
      UnlockPassOk(s.mutexes[m], MutexCounts(s.pcs, m), t, false);
      OtherClasses(Idle);
      OtherClasses(q);
      MutexesKept(s.mutexes, s.pcs, t, q, m, v);
      CondsUntouched(s.conds, s.ledgers, s.pcs, t, q);
      ThreadsKept(s.mutexes, s.conds.Keys, s.pcs, t, q, m, v, s.conds.Keys);
    }
  }

  lemma CondOfOk(s: State, c: nat)
    requires CondsOk(s.conds, s.ledgers, s.pcs)
    ensures CondOk(CondOf(s, c), LedgerOf(s, c), CondCounts(s.pcs, c))
  {
    assert CondOkAt(s.conds, s.ledgers, s.pcs, c);
  }

  lemma EnterOk(v: CondVars, l: Ledger, n: CondCount, t: nat)
    requires CondOk(v, l, n) && NaturalCond(n) && v.holder == None && !v.destroyed
    ensures CondOk(v.(waiters := v.waiters + 1, holder := Some(t)), l, n.(entering := n.entering + 1))
  {
  }

  lemma ReferenceOk(v: MutexVars, n: MutexCount, t: nat)
    requires MutexOk(v, n) && v.live && v.owner == Some(t)
    ensures MutexOk(v.(condWaiters := v.condWaiters + 1), n.(references := n.references + 1))
    ensures 1 <= v.depth && (v.kind != RECURSIVE ==> v.depth == 1)
  {
  }

  lemma CondEnterConds(s: State, t: nat, c: nat, w: WaitRecord)
    requires CondsOk(s.conds, s.ledgers, s.pcs) && IdleThread(s, t) && w.cond == c
    requires CondOf(s, c).holder == None && !CondOf(s, c).destroyed
    ensures var v := CondOf(s, c);
      CondsOk(s.conds[c := v.(waiters := v.waiters + 1, holder := Some(t))], s.ledgers[c := LedgerOf(s, c)],
              s.pcs[t := CondWait(Referenced, w)])
  {
    hide CondCounts, CondClass, CondOk, CondsOk, CondOf, LedgerOf;
    var v := CondOf(s, c);
    var q := CondWait(Referenced, w);
    OtherClasses(Idle);
    WaitClasses(Referenced, w);
    CondOfOk(s, c);
    EnterOk(v, LedgerOf(s, c), CondCounts(s.pcs, c), t);
    CondsKept(s.conds, s.ledgers, s.pcs, t, q, c, v.(waiters := v.waiters + 1, holder := Some(t)), LedgerOf(s, c));
  }

  lemma CondEnterMutexes(s: State, t: nat, m: nat, w: WaitRecord)
    requires MutexesOk(s.mutexes, s.pcs) && IdleThread(s, t) && w.mutex == m && m in s.mutexes
    requires s.mutexes[m].live && s.mutexes[m].owner == Some(t)
    ensures var mv := s.mutexes[m];
      MutexesOk(s.mutexes[m := mv.(condWaiters := mv.condWaiters + 1)], s.pcs[t := CondWait(Referenced, w)])
    ensures 1 <= s.mutexes[m].depth && (s.mutexes[m].kind != RECURSIVE ==> s.mutexes[m].depth == 1)
  {
    var mv := s.mutexes[m];
    assert MutexOkAt(s.mutexes, s.pcs, m);
    hide MutexCounts, MutexClass, MutexOk, MutexesOk;
    OtherClasses(Idle);
    WaitClasses(Referenced, w);
    ReferenceOk(mv, MutexCounts(s.pcs, m), t);
    MutexesKept(s.mutexes, s.pcs, t, CondWait(Referenced, w), m, mv.(condWaiters := mv.condWaiters + 1));
  }

  lemma CondEnterKeeps(s: State, t: nat, c: nat, m: nat, timed: bool)
    requires Inv(s) && CondEnterStep(s, t, c, m, timed).Some?
    ensures Inv(CondEnterStep(s, t, c, m, timed).value)
  {
    hide CondOf, LedgerOf, CondsOk, MutexesOk, ThreadsOk;
    if CondEnterStep(s, t, c, m, timed).value != s {
      var mv := s.mutexes[m];
      var w := WaitRecord(c, m, timed, mv.depth, OK);
      CondEnterConds(s, t, c, w);
      CondEnterMutexes(s, t, m, w);
      ThreadsKept(s.mutexes, s.conds.Keys, s.pcs, t, CondWait(Referenced, w), m,
                  mv.(condWaiters := mv.condWaiters + 1), s.conds.Keys + {c});
      assert CondEnterStep(s, t, c, m, timed).value.conds.Keys == s.conds.Keys + {c};
    }
  }

  /** A thread moves on inside its wait, changing at most its mutex. */
  lemma WaitMoves(s: State, t: nat, next: Phase, v: MutexVars)
    requires Inv(s) && t in s.pcs && s.pcs[t].CondWait? && s.pcs[t].w.mutex in s.mutexes && s.pcs[t].w.cond in s.conds
    requires var w := s.pcs[t].w;
      && OwnerStep(s.mutexes[w.mutex], v, t) && WaitOk(v, t, next, w)
      && MutexOk(v, ShiftMutex(MutexCounts(s.pcs, w.mutex), PhaseMutexClass(s.pcs[t].phase), PhaseMutexClass(next)))
      && PhaseCondClass(s.pcs[t].phase, w.code) == PhaseCondClass(next, w.code)
    ensures Inv(Move(SetMutex(s, s.pcs[t].w.mutex, v), t, CondWait(next, s.pcs[t].w)))
  {
    var w := s.pcs[t].w;
    var q := CondWait(next, w);
    WaitThreadOk(s.mutexes, s.conds.Keys, t, next, w, v);
    hide MutexCounts, CondCounts, MutexClass, CondClass, PhaseMutexClass, PhaseCondClass, ShiftMutex;
    hide MutexOk, MutexesOk, CondsOk, ThreadsOk, ThreadOk, WaitOk, OwnerStep;
    PhaseMutexes(s.pcs[t].phase, next, w, MutexCounts(s.pcs, w.mutex));
    MutexesKept(s.mutexes, s.pcs, t, q, w.mutex, v);
    PhaseConds(s.pcs[t].phase, next, w);
    CondsUntouched(s.conds, s.ledgers, s.pcs, t, q);
    ThreadsKept(s.mutexes, s.conds.Keys, s.pcs, t, q, w.mutex, v, s.conds.Keys);
  }

  lemma WaitThreadOk(mutexes: map<nat, MutexVars>, conds: set<nat>, t: nat, next: Phase, w: WaitRecord, v: MutexVars)
    requires w.mutex in mutexes && w.cond in conds && WaitOk(v, t, next, w)
    ensures ThreadOk(mutexes[w.mutex := v], conds, t, CondWait(next, w))
  {
    hide WaitOk;
  }

  lemma PhaseMutexes(p: Phase, q: Phase, w: WaitRecord, n: MutexCount)
    ensures forall k :: k != w.mutex ==> MutexClass(CondWait(p, w), k) == MutexClass(CondWait(q, w), k)
    ensures ShiftMutex(n, MutexClass(CondWait(p, w), w.mutex), MutexClass(CondWait(q, w), w.mutex))
         == ShiftMutex(n, PhaseMutexClass(p), PhaseMutexClass(q))
  {
    WaitClasses(p, w);
    WaitClasses(q, w);
    hide MutexClass, CondClass, PhaseMutexClass, PhaseCondClass, ShiftMutex;
  }

  lemma PhaseConds(p: Phase, q: Phase, w: WaitRecord)
    requires PhaseCondClass(p, w.code) == PhaseCondClass(q, w.code)
    ensures forall k :: CondClass(CondWait(p, w), k) == CondClass(CondWait(q, w), k)
  {
    WaitClasses(p, w);
    WaitClasses(q, w);
    hide MutexClass, CondClass, PhaseMutexClass, PhaseCondClass;
  }

  /** The full release inside a wait: its caller is the owner, so it succeeds. */
  lemma ReleasePassOk(v: MutexVars, n: MutexCount, t: nat, w: WaitRecord)
    requires MutexOk(v, n) && Natural(n) && WaitOk(v, t, Referenced, w)
    ensures var (v', code, notify) := UnlockPass(v, t, true);
      && code == OK && OwnerStep(v, v', t) && WaitOk(v', t, Unlocked, w)
      && MutexOk(v', ShiftMutex(n, PhaseMutexClass(Referenced), PhaseMutexClass(Unlocked)))
  {
  }

  lemma ReleaseStep(s: State, t: nat)
    requires InPhase(s, t, Referenced) && UnlockPass(s.mutexes[s.pcs[t].w.mutex], t, true).1 == OK
    ensures var w := s.pcs[t].w;
      var v := UnlockPass(s.mutexes[w.mutex], t, true).0;
      CondUnlockStep(s, t) == Some(Move(SetMutex(s, w.mutex, v), t, CondWait(Unlocked, w)))
    ensures InPhase(CondUnlockStep(s, t).value, t, Unlocked)
  {
    hide UnlockPass;
  }

  lemma ReleaseMoves(s: State, t: nat)
    requires Inv(s) && InPhase(s, t, Referenced)
    ensures var w := s.pcs[t].w;
      var (v, code, notify) := UnlockPass(s.mutexes[w.mutex], t, true);
      code == OK && Inv(Move(SetMutex(s, w.mutex, v), t, CondWait(Unlocked, w)))
  {
    var w := s.pcs[t].w;
    assert ThreadOk(s.mutexes, s.conds.Keys, t, s.pcs[t]);
    assert MutexOkAt(s.mutexes, s.pcs, w.mutex);
    hide Inv, MutexCounts, UnlockPass, MutexOk, WaitOk, OwnerStep, PhaseMutexClass, ShiftMutex;
    ReleasePassOk(s.mutexes[w.mutex], MutexCounts(s.pcs, w.mutex), t, w);
    WaitMoves(s, t, Unlocked, UnlockPass(s.mutexes[w.mutex], t, true).0);
  }

  lemma CondUnlockKeeps(s: State, t: nat)
    requires Inv(s) && CondUnlockStep(s, t).Some?
    ensures Inv(CondUnlockStep(s, t).value)
    ensures InPhase(CondUnlockStep(s, t).value, t, Unlocked)
  {
    assert InPhase(s, t, Referenced);
    hide Inv, UnlockPass, CondUnlockStep;
    ReleaseMoves(s, t);
    ReleaseStep(s, t);
  }

  /** What one test does to the threads it counts: `first` from the entry, otherwise from a wakeup. */
  function AfterTestCounts(n: CondCount, first: bool, code: Option<Errno>): CondCount {
    n.(entering := n.entering - One(first), woken := n.woken - One(!first),
       sleeping := n.sleeping + One(code.None?), answered := n.answered + One(code == Some(OK)))
  }

  lemma TestPassOk(v: CondVars, l: Ledger, n: CondCount, first: bool, expired: bool)
    requires CondOk(v, l, n) && NaturalCond(n)
    requires if first then n.entering == 1 else 1 <= n.woken && v.holder == None
    ensures var (v', code) := TestPass(v, expired);
      && CondOk(v'.(holder := None), l, AfterTestCounts(n, first, code))
      && (code == None || code == Some(OK) || (code == Some(ETIMEDOUT) && expired))
  {
  }

  lemma EnteringCounted(pcs: map<nat, PC>, t: nat, c: nat)
    requires t in pcs
    ensures EnteringCond(pcs[t], c) ==> 1 <= CondCounts(pcs, c).entering
    ensures CondWoken(pcs[t], c) ==> 1 <= CondCounts(pcs, c).woken
  {
    CountPositive(pcs, (pc: PC) => EnteringCond(pc, c));
    CountPositive(pcs, (pc: PC) => CondWoken(pc, c));
  }

  predicate MayTest(s: State, t: nat) {
    InPhase(s, t, Testing) || (InPhase(s, t, Woken) && s.conds[s.pcs[t].w.cond].holder.None?)
  }

  /** The tester is the entering thread or one of the woken ones. */
  lemma TesterCounted(s: State, t: nat)
    requires CondsOk(s.conds, s.ledgers, s.pcs) && MayTest(s, t)
    ensures var c := s.pcs[t].w.cond;
      && c in s.ledgers && CondOk(s.conds[c], s.ledgers[c], CondCounts(s.pcs, c))
      && if s.pcs[t].phase == Testing then CondCounts(s.pcs, c).entering == 1
         else 1 <= CondCounts(s.pcs, c).woken && s.conds[c].holder == None
  {
    EnteringCounted(s.pcs, t, s.pcs[t].w.cond);
    CondOfOk(s, s.pcs[t].w.cond);
  }

  lemma TestClasses(phase: Phase, w: WaitRecord, code: Option<Errno>, n: CondCount)
    requires (phase == Testing || phase == Woken) && w.code == OK
    ensures var p, q := CondWait(phase, w), AfterTest(w, code);
      && ShiftCond(n, CondClass(p, w.cond), CondClass(q, w.cond)) == AfterTestCounts(n, phase == Testing, code)
      && forall k :: k != w.cond ==> CondClass(p, k) == CondClass(q, k)
  {
  }

  lemma TestConds(s: State, t: nat, expired: bool)
    requires CondsOk(s.conds, s.ledgers, s.pcs) && MayTest(s, t) && s.pcs[t].w.code == OK
    ensures var w := s.pcs[t].w;
      var (v, code) := TestPass(s.conds[w.cond], expired);
      && w.cond in s.ledgers
      && CondsOk(s.conds[w.cond := v.(holder := None)], s.ledgers[w.cond := s.ledgers[w.cond]],
                 s.pcs[t := AfterTest(w, code)])
      && (code == None || code == Some(OK) || (code == Some(ETIMEDOUT) && expired))
  {
    hide CondCounts, CondClass, ShiftCond, AfterTestCounts, TestPass, CondOk, CondsOk, AfterTest;
    var w := s.pcs[t].w;
    var c := w.cond;
    TesterCounted(s, t);
    TestPassOk(s.conds[c], s.ledgers[c], CondCounts(s.pcs, c), s.pcs[t].phase == Testing, expired);
    var (v, code) := TestPass(s.conds[c], expired);
    TestClasses(s.pcs[t].phase, w, code, CondCounts(s.pcs, c));
    CondsKept(s.conds, s.ledgers, s.pcs, t, AfterTest(w, code), c, v.(holder := None), s.ledgers[c]);
  }

  lemma TestKeeps(s: State, t: nat, expired: bool)
    requires Inv(s) && MayTest(s, t) && TestStep(s, t, expired).Some?
    ensures Inv(TestStep(s, t, expired).value)
  {
    var w := s.pcs[t].w;
    assert ThreadOk(s.mutexes, s.conds.Keys, t, s.pcs[t]);
    hide MutexCounts, CondCounts, MutexClass, CondClass, MutexesOk, CondsOk, ThreadsOk, TestPass;
    TestConds(s, t, expired);
    var q := AfterTest(w, TestPass(s.conds[w.cond], expired).1);
    WaitClasses(s.pcs[t].phase, w);
    WaitClasses(q.phase, q.w);
    assert s.ledgers[w.cond := s.ledgers[w.cond]] == s.ledgers;
    MutexesUntouched(s.mutexes, s.pcs, t, q);
    assert s.mutexes[w.mutex := s.mutexes[w.mutex]] == s.mutexes;
    ThreadsKept(s.mutexes, s.conds.Keys, s.pcs, t, q, w.mutex, s.mutexes[w.mutex], s.conds.Keys);
  }

  lemma WokenCounted(pcs: map<nat, PC>, t: nat, m: nat)
    requires t in pcs && MutexWoken(pcs[t], m)
    ensures 1 <= MutexCounts(pcs, m).woken
  {
    CountPositive(pcs, (pc: PC) => MutexWoken(pc, m));
  }

  /** The first relock of a wait: it never reports an error, and it leaves the thread where its wait record says. */
  lemma RelockPassOk(v: MutexVars, n: MutexCount, t: nat, w: WaitRecord, resumed: bool)
    requires MutexOk(v, n) && Natural(n) && (resumed ==> 1 <= n.woken)
    requires WaitOk(v, t, if resumed then RelockWoken else Relocking, w)
    ensures var (v', pass) := if resumed then ResumePass(v, t) else LockPass(v, t, false);
      var next := RelockPhase(w, v'.kind, pass);
      && OwnerStep(v, v', t)
      && AfterRelock(w, v'.kind, pass) == CondWait(next, w)
      && MutexOk(v', ShiftMutex(n, PhaseMutexClass(if resumed then RelockWoken else Relocking), PhaseMutexClass(next)))
      && WaitOk(v', t, next, w)
  {
    if resumed { ResumePassOk(v, n, t); } else { LockPassOk(v, n, t, false); }
  }

  function RelockPhase(w: WaitRecord, kind: MutexType, pass: Pass): Phase {
    if pass == Sleep then RelockAsleep else if kind == RECURSIVE && 1 < w.depth then Reentering(1) else Leaving
  }

  lemma RelockKeeps(s: State, t: nat, resumed: bool)
    requires Inv(s) && InPhase(s, t, if resumed then RelockWoken else Relocking)
    ensures Inv(RelockStep(s, t, resumed))
  {
    var w := s.pcs[t].w;
    var mv := s.mutexes[w.mutex];
    assert ThreadOk(s.mutexes, s.conds.Keys, t, s.pcs[t]);
    assert MutexOkAt(s.mutexes, s.pcs, w.mutex);
    if resumed { WokenCounted(s.pcs, t, w.mutex); }
    hide Inv, MutexCounts, MutexOk, WaitOk, OwnerStep, LockPass, ResumePass, AfterRelock, PhaseMutexClass, ShiftMutex;
    RelockPassOk(mv, MutexCounts(s.pcs, w.mutex), t, w, resumed);
    var (v, pass) := if resumed then ResumePass(mv, t) else LockPass(mv, t, false);
    WaitMoves(s, t, RelockPhase(w, v.kind, pass), v);
  }

  /** A further level of a recursive relock. */
  lemma ReenterPassOk(v: MutexVars, n: MutexCount, t: nat, w: WaitRecord, i: nat)
    requires MutexOk(v, n) && Natural(n) && WaitOk(v, t, Reentering(i), w)
    ensures LockPass(v, t, false) == (v.(depth := i + 1), Return(OK))
    ensures OwnerStep(v, v.(depth := i + 1), t)
    ensures var next := if i + 1 < w.depth then Reentering(i + 1) else Leaving;
      && AfterReenter(w, i, Return(OK)) == CondWait(next, w)
      && MutexOk(v.(depth := i + 1), ShiftMutex(n, PhaseMutexClass(Reentering(i)), PhaseMutexClass(next)))
      && WaitOk(v.(depth := i + 1), t, next, w)
  {
  }

  lemma ReenterKeeps(s: State, t: nat)
    requires Inv(s) && ReenterStep(s, t).Some?
    ensures Inv(ReenterStep(s, t).value)
  {
    var w := s.pcs[t].w;
    var i := s.pcs[t].phase.i;
    var mv := s.mutexes[w.mutex];
    assert ThreadOk(s.mutexes, s.conds.Keys, t, s.pcs[t]);
    assert MutexOkAt(s.mutexes, s.pcs, w.mutex);
    hide Inv, MutexCounts, MutexOk, WaitOk, OwnerStep, LockPass, AfterReenter, PhaseMutexClass, ShiftMutex;
    ReenterPassOk(mv, MutexCounts(s.pcs, w.mutex), t, w, i);
    WaitMoves(s, t, if i + 1 < w.depth then Reentering(i + 1) else Leaving, mv.(depth := i + 1));
  }

  lemma ReferenceCounted(pcs: map<nat, PC>, t: nat)
    requires t in pcs && pcs[t].CondWait?
    ensures 1 <= MutexCounts(pcs, pcs[t].w.mutex).references
  {
    var m := pcs[t].w.mutex;
    CountPositive(pcs, (pc: PC) => CondReference(pc, m));
  }

  lemma ReleaseOk(v: MutexVars, n: MutexCount)
    requires MutexOk(v, n) && Natural(n) && 1 <= n.references
    ensures MutexOk(v.(condWaiters := Decrement(v.condWaiters)), n.(references := n.references - 1))
  {
  }

  lemma AnswerOk(v: CondVars, l: Ledger, n: CondCount, code: Errno)
    requires CondOk(v, l, n)
    ensures CondOk(v, Answer(l, code), n.(answered := n.answered - One(code == OK)))
  {
  }

  function Answer(l: Ledger, code: Errno): Ledger {
    if code == OK then l.(returned := l.returned + 1) else l
  }

  lemma LeavingClasses(w: WaitRecord, n: CondCount)
    ensures ShiftCond(n, CondClass(CondWait(Leaving, w), w.cond), CondClass(Idle, w.cond))
         == n.(answered := n.answered - One(w.code == OK))
    ensures forall k :: k != w.cond ==> CondClass(CondWait(Leaving, w), k) == CondClass(Idle, k)
  {
  }

  lemma CondReturnConds(s: State, t: nat)
    requires CondsOk(s.conds, s.ledgers, s.pcs) && InPhase(s, t, Leaving)
    ensures var w := s.pcs[t].w;
      CondsOk(s.conds, s.ledgers[w.cond := Answer(LedgerOf(s, w.cond), w.code)], s.pcs[t := Idle])
  {
    var w := s.pcs[t].w;
    hide CondCounts, MutexClass, CondClass, CondOk, CondsOk, Answer, LedgerOf, ShiftCond;
    CondOfOk(s, w.cond);
    AnswerOk(CondOf(s, w.cond), LedgerOf(s, w.cond), CondCounts(s.pcs, w.cond), w.code);
    LeavingClasses(w, CondCounts(s.pcs, w.cond));
    CondsKept(s.conds, s.ledgers, s.pcs, t, Idle, w.cond, s.conds[w.cond], Answer(LedgerOf(s, w.cond), w.code));
    assert s.conds[w.cond := s.conds[w.cond]] == s.conds;
  }

  lemma CondReturnMutexes(s: State, t: nat)
    requires MutexesOk(s.mutexes, s.pcs) && InPhase(s, t, Leaving)
    ensures var w := s.pcs[t].w;
      var mv := s.mutexes[w.mutex];
      MutexesOk(s.mutexes[w.mutex := mv.(condWaiters := Decrement(mv.condWaiters))], s.pcs[t := Idle])
  {
    var w := s.pcs[t].w;
    var mv := s.mutexes[w.mutex];
    assert MutexOkAt(s.mutexes, s.pcs, w.mutex);
    ReferenceCounted(s.pcs, t);
    hide MutexCounts, MutexClass, MutexOk, MutexesOk;
    ReleaseOk(mv, MutexCounts(s.pcs, w.mutex));
    WaitClasses(Leaving, w);
    OtherClasses(Idle);
    MutexesKept(s.mutexes, s.pcs, t, Idle, w.mutex, mv.(condWaiters := Decrement(mv.condWaiters)));
  }

  lemma CondReturnKeeps(s: State, t: nat)
    requires Inv(s) && CondReturnStep(s, t).Some?
    ensures Inv(CondReturnStep(s, t).value)
  {
    var w := s.pcs[t].w;
    var mv := s.mutexes[w.mutex];
    assert w.cond in s.conds && s.conds.Keys == s.ledgers.Keys;
    hide MutexesOk, CondsOk, ThreadsOk;
    CondReturnConds(s, t);
    CondReturnMutexes(s, t);
    ThreadsKept(s.mutexes, s.conds.Keys, s.pcs, t, Idle, w.mutex,
                mv.(condWaiters := Decrement(mv.condWaiters)), s.conds.Keys);
  }

  lemma GrantOk(v: CondVars, l: Ledger, n: CondCount, all: bool)
    requires CondOk(v, l, n) && NaturalCond(n) && v.holder == None
    ensures var (v', notify) := if all then BroadcastPass(v) else SignalPass(v);
      && v.pending <= v'.pending
      && CondOk(v', l.(granted := l.granted + v'.pending - v.pending),
                n.(signalling := n.signalling + One(notify && !all),
                   broadcasting := n.broadcasting + One(notify && all)))
  {
  }

  lemma GrantKeeps(s: State, t: nat, c: nat, all: bool)
    requires Inv(s) && GrantStep(s, t, c, all).Some?
    ensures Inv(GrantStep(s, t, c, all).value)
  {
    hide MutexCounts, CondCounts, MutexClass, CondClass, CondOk, MutexesOk, CondsOk, BroadcastPass, SignalPass;
    if c in s.conds && !s.conds[c].destroyed {
      var s' := GrantStep(s, t, c, all).value;
      CondOfOk(s, c);
      GrantOk(CondOf(s, c), LedgerOf(s, c), CondCounts(s.pcs, c), all);
      OtherClasses(Idle);
      OtherClasses(s'.pcs[t]);
      CondsKept(s.conds, s.ledgers, s.pcs, t, s'.pcs[t], c, s'.conds[c], s'.ledgers[c]);
      MutexesUntouched(s.mutexes, s.pcs, t, s'.pcs[t]);
    }
  }

  lemma CondDestroyKeeps(s: State, c: nat)
    requires Inv(s) && CondDestroyStep(s, c).Some?
    ensures Inv(CondDestroyStep(s, c).value)
  {
    var s' := CondDestroyStep(s, c).value;
    if s' != s {
      CondDestroyConds(s, c);
      hide MutexesOk, CondsOk;
      assert s'.conds.Keys == s.conds.Keys + {c};
    }
  }

  lemma CondDestroyOk(v: CondVars, l: Ledger, n: CondCount)
    requires CondOk(v, l, n) && v.waiters == 0
    ensures CondOk(v.(destroyed := true), l, n)
  {
  }

  lemma CondDestroyConds(s: State, c: nat)
    requires CondsOk(s.conds, s.ledgers, s.pcs) && CondOf(s, c).waiters == 0
    ensures CondsOk(s.conds[c := CondOf(s, c).(destroyed := true)], s.ledgers[c := LedgerOf(s, c)], s.pcs)
  {
    hide CondCounts, CondOk;
    CondOfOk(s, c);
    CondDestroyOk(CondOf(s, c), LedgerOf(s, c), CondCounts(s.pcs, c));
    var conds', ledgers' := s.conds[c := CondOf(s, c).(destroyed := true)], s.ledgers[c := LedgerOf(s, c)];
    hide CondOf, LedgerOf;
    forall k
      ensures CondOkAt(conds', ledgers', s.pcs, k)
    {
      assert CondOkAt(s.conds, s.ledgers, s.pcs, k);
    }
  }

  lemma MutexInitKeeps(s: State, m: nat, kind: MutexType)
    requires Inv(s) && m !in s.mutexes
    ensures Inv(SetMutex(s, m, FreshMutex(kind)))
  {
    hide MutexCounts, CondCounts, CondsOk;
    var s' := SetMutex(s, m, FreshMutex(kind));
    forall k
      ensures MutexOkAt(s'.mutexes, s'.pcs, k)
    {
      assert MutexOkAt(s.mutexes, s.pcs, k);
    }
  }

  lemma UncountedThread(pcs: map<nat, PC>, t: nat, m: nat)
    requires t in pcs
    requires var n := MutexCounts(pcs, m); n.sleeping == 0 && n.woken == 0 && n.references == 0
    ensures !MutexSleeper(pcs[t], m) && !MutexWoken(pcs[t], m) && !CondReference(pcs[t], m)
  {
    CountPositive(pcs, (pc: PC) => MutexSleeper(pc, m));
    CountPositive(pcs, (pc: PC) => MutexWoken(pc, m));
    CountPositive(pcs, (pc: PC) => CondReference(pc, m));
  }

  lemma MutexDestroyKeeps(s: State, m: nat)
    requires Inv(s) && m in s.mutexes && DestroyCode(s.mutexes[m]) == OK
    ensures Inv(SetMutex(s, m, s.mutexes[m].(live := false)))
  {
    hide MutexCounts, CondCounts, CondsOk;
    var s' := SetMutex(s, m, s.mutexes[m].(live := false));
    forall k
      ensures MutexOkAt(s'.mutexes, s'.pcs, k)
    {
      assert MutexOkAt(s.mutexes, s.pcs, k);
    }
    assert MutexOkAt(s.mutexes, s.pcs, m);
    forall t | t in s'.pcs
      ensures ThreadOk(s'.mutexes, s'.conds.Keys, t, s'.pcs[t])
    {
      UncountedThread(s.pcs, t, m);
      assert ThreadOk(s.mutexes, s.conds.Keys, t, s.pcs[t]);
    }
  }

  lemma ResumeLockKeeps(s: State, t: nat, m: nat)
    requires Inv(s) && t in s.pcs && s.pcs[t] == LockWoken(m) && m in s.mutexes
    ensures var (v, pass) := ResumePass(s.mutexes[m], t);
      Inv(Move(SetMutex(s, m, v), t, AfterLock(m, pass)))
  {
    assert ThreadOk(s.mutexes, s.conds.Keys, t, s.pcs[t]);
    WokenCounted(s.pcs, t, m);
    hide MutexCounts, CondCounts, MutexClass, CondClass, ResumePass, MutexOk, CondsOk, ThreadsOk;
    var (v, pass) := ResumePass(s.mutexes[m], t);
    var q := AfterLock(m, pass);
    assert MutexOkAt(s.mutexes, s.pcs, m);
    ResumePassOk(s.mutexes[m], MutexCounts(s.pcs, m), t);
    OtherClasses(LockWoken(m));
    OtherClasses(q);
    MutexesKept(s.mutexes, s.pcs, t, q, m, v);
    CondsUntouched(s.conds, s.ledgers, s.pcs, t, q);
    ThreadsKept(s.mutexes, s.conds.Keys, s.pcs, t, q, m, v, s.conds.Keys);
  }

  // ---- Wakeups and notifications ----

  /** The counts after one sleeper woke up. */
  function WokenMutexCounts(n: MutexCount): MutexCount {
    n.(sleeping := n.sleeping - 1, woken := n.woken + 1)
  }

  function WokenCondCounts(n: CondCount): CondCount {
    n.(sleeping := n.sleeping - 1, woken := n.woken + 1)
  }

  lemma WakenedClasses(pc: PC, m: nat, c: nat)
    requires Sleeping(pc)
    ensures MutexClass(Wakened(pc), m)
         == if MutexSleeper(pc, m) then WokenMutexCounts(MutexClass(pc, m)) else MutexClass(pc, m)
    ensures CondClass(Wakened(pc), c)
         == if CondSleeper(pc, c) then WokenCondCounts(CondClass(pc, c)) else CondClass(pc, c)
  {
  }

  /** Waking a sleeper moves one thread from the sleeping to the woken count of what it sleeps on. */
  lemma WakeCounts(pcs: map<nat, PC>, u: nat, m: nat, c: nat)
    requires u in pcs && Sleeping(pcs[u])
    ensures MutexCounts(pcs[u := Wakened(pcs[u])], m)
         == if MutexSleeper(pcs[u], m) then WokenMutexCounts(MutexCounts(pcs, m)) else MutexCounts(pcs, m)
    ensures CondCounts(pcs[u := Wakened(pcs[u])], c)
         == if CondSleeper(pcs[u], c) then WokenCondCounts(CondCounts(pcs, c)) else CondCounts(pcs, c)
  {
    hide MutexCounts, CondCounts, MutexClass, CondClass, MutexSleeper, CondSleeper, Wakened;
    WakenedClasses(pcs[u], m, c);
    MutexCountsMove(pcs, u, Wakened(pcs[u]), m);
    CondCountsMove(pcs, u, Wakened(pcs[u]), c);
  }

  lemma WakenedThreadOk(mutexes: map<nat, MutexVars>, conds: set<nat>, u: nat, pc: PC)
    requires ThreadOk(mutexes, conds, u, pc)
    ensures ThreadOk(mutexes, conds, u, Wakened(pc))
  {
  }

  lemma WakeKeeps(s: State, u: nat)
    requires Inv(s) && u in s.pcs && Sleeping(s.pcs[u])
    ensures Inv(Move(s, u, Wakened(s.pcs[u])))
  {
    hide MutexCounts, CondCounts, ThreadOk, Sleeping, MutexSleeper, CondSleeper, Wakened;
    var pcs' := s.pcs[u := Wakened(s.pcs[u])];
    forall k
      ensures MutexOkAt(s.mutexes, pcs', k)
    {
      WakeCounts(s.pcs, u, k, 0);
      assert MutexOkAt(s.mutexes, s.pcs, k);
      if MutexSleeper(s.pcs[u], k) && k !in s.mutexes { assert false; }
    }
    forall k
      ensures CondOkAt(s.conds, s.ledgers, pcs', k)
    {
      WakeCounts(s.pcs, u, 0, k);
      assert CondOkAt(s.conds, s.ledgers, s.pcs, k);
    }
    forall t | t in pcs'
      ensures ThreadOk(s.mutexes, s.conds.Keys, t, pcs'[t])
    {
      assert ThreadOk(s.mutexes, s.conds.Keys, t, s.pcs[t]);
      WakenedThreadOk(s.mutexes, s.conds.Keys, t, s.pcs[t]);
    }
  }

  lemma NoSleepers(pcs: map<nat, PC>, m: nat, c: nat)
    ensures (forall u :: u in pcs ==> !MutexSleeper(pcs[u], m)) ==> MutexCounts(pcs, m).sleeping == 0
    ensures (forall u :: u in pcs ==> !CondSleeper(pcs[u], c)) ==> CondCounts(pcs, c).sleeping == 0
  {
    CountPositive(pcs, (pc: PC) => MutexSleeper(pc, m));
    CountPositive(pcs, (pc: PC) => CondSleeper(pc, c));
  }

  /** A delivered notification leaves a free mutex covered: somebody is awake, or nobody sleeps. */
  lemma NotifiedMutex(s: State, t: nat, chosen: Option<nat>, m: nat)
    requires MutexesOk(s.mutexes, s.pcs) && t in s.pcs && MutexNotifier(s.pcs[t], m) && m in s.mutexes
    requires NotifiesOne(s.pcs[t]) && ValidChoice(s, s.pcs[t], chosen)
    ensures var n := MutexCounts(WakeOne(s, chosen).pcs, m);
      MutexOk(s.mutexes[m], n.(notifying := n.notifying - 1))
  {
    assert MutexOkAt(s.mutexes, s.pcs, m);
    NotifierCounted(s.pcs, t, m);
    if chosen.Some? {
      WakeCounts(s.pcs, chosen.value, m, 0);
    } else {
      NoSleepers(s.pcs, m, 0);
    }
  }

  lemma NotifierCounted(pcs: map<nat, PC>, t: nat, m: nat)
    requires t in pcs && MutexNotifier(pcs[t], m)
    ensures 1 <= MutexCounts(pcs, m).notifying
  {
    CountPositive(pcs, (pc: PC) => MutexNotifier(pc, m));
  }

  /** A delivered signal leaves its credit covered: a thread woke up for it, or nobody sleeps. */
  lemma NotifiedCond(s: State, t: nat, chosen: Option<nat>, c: nat)
    requires CondsOk(s.conds, s.ledgers, s.pcs) && t in s.pcs && s.pcs[t] == Signalling(c) && c in s.conds
    requires ValidChoice(s, s.pcs[t], chosen)
    ensures var n := CondCounts(WakeOne(s, chosen).pcs, c);
      CondOk(s.conds[c], s.ledgers[c], n.(signalling := n.signalling - 1))
  {
    CondOfOk(s, c);
    CountPositive(s.pcs, (pc: PC) => pc == Signalling(c));
    if chosen.Some? {
      WakeCounts(s.pcs, chosen.value, 0, c);
    } else {
      NoSleepers(s.pcs, 0, c);
    }
  }

  lemma WakeOneKeeps(s: State, t: nat, chosen: Option<nat>)
    requires Inv(s) && t in s.pcs && NotifiesOne(s.pcs[t]) && ValidChoice(s, s.pcs[t], chosen)
    ensures Inv(WakeOne(s, chosen)) && t in WakeOne(s, chosen).pcs && WakeOne(s, chosen).pcs[t] == s.pcs[t]
  {
    hide Inv;
    if chosen.Some? { WakeKeeps(s, chosen.value); }
  }

  lemma SignallerMoves(s: State, t: nat, c: nat)
    requires Inv(s) && t in s.pcs && s.pcs[t] == Signalling(c) && c in s.conds
    requires var n := CondCounts(s.pcs, c); CondOk(s.conds[c], s.ledgers[c], n.(signalling := n.signalling - 1))
    ensures Inv(Move(s, t, Idle))
  {
    assert c in s.ledgers;
    hide MutexCounts, CondCounts, MutexClass, CondClass, MutexesOk, CondsOk, CondOk;
    OtherClasses(Signalling(c));
    OtherClasses(Idle);
    CondsKept(s.conds, s.ledgers, s.pcs, t, Idle, c, s.conds[c], s.ledgers[c]);
    assert s.conds[c := s.conds[c]] == s.conds && s.ledgers[c := s.ledgers[c]] == s.ledgers;
    MutexesUntouched(s.mutexes, s.pcs, t, Idle);
  }

  lemma SignalDeliveredKeeps(s: State, t: nat, chosen: Option<nat>, c: nat)
    requires Inv(s) && t in s.pcs && s.pcs[t] == Signalling(c) && ValidChoice(s, s.pcs[t], chosen)
    ensures Inv(Move(WakeOne(s, chosen), t, Idle))
  {
    assert ThreadOk(s.mutexes, s.conds.Keys, t, s.pcs[t]);
    assert NotifiesOne(s.pcs[t]);
    hide MutexCounts, CondCounts, MutexesOk, CondsOk, CondOk, ThreadsOk, ValidChoice, NotifiesOne;
    WakeOneKeeps(s, t, chosen);
    NotifiedCond(s, t, chosen, c);
    SignallerMoves(WakeOne(s, chosen), t, c);
  }

  lemma NotifierMoves(s: State, t: nat, m: nat)
    requires Inv(s) && t in s.pcs && MutexNotifier(s.pcs[t], m) && m in s.mutexes
    requires var n := MutexCounts(s.pcs, m); MutexOk(s.mutexes[m], n.(notifying := n.notifying - 1))
    ensures Inv(Move(s, t, AfterNotify(s.pcs[t])))
  {
    var p := s.pcs[t];
    var q := AfterNotify(p);
    assert ThreadOk(s.mutexes, s.conds.Keys, t, p);
    assert ThreadOk(s.mutexes, s.conds.Keys, t, q);
    NotifierClasses(p, m, MutexCounts(s.pcs, m));
    hide MutexCounts, CondCounts, MutexClass, CondClass, ShiftMutex, MutexesOk, CondsOk, MutexOk, ThreadOk;
    hide MutexNotifier, AfterNotify;
    assert s.mutexes[m := s.mutexes[m]] == s.mutexes;
    MutexesKept(s.mutexes, s.pcs, t, q, m, s.mutexes[m]);
    CondsUntouched(s.conds, s.ledgers, s.pcs, t, q);
  }

  lemma NotifierClasses(p: PC, m: nat, n: MutexCount)
    requires MutexNotifier(p, m)
    ensures var q := AfterNotify(p);
      && ShiftMutex(n, MutexClass(p, m), MutexClass(q, m)) == n.(notifying := n.notifying - 1)
      && (forall k :: k != m ==> MutexClass(p, k) == MutexClass(q, k))
      && (forall k :: CondClass(p, k) == CondClass(q, k))
  {
    if p.CondWait? {
      PhaseMutexes(Unlocked, Testing, p.w, n);
      PhaseConds(Unlocked, Testing, p.w);
    } else {
      OtherClasses(p);
      OtherClasses(Idle);
    }
  }

  lemma UnlockDeliveredKeeps(s: State, t: nat, chosen: Option<nat>, m: nat)
    requires Inv(s) && t in s.pcs && MutexNotifier(s.pcs[t], m) && ValidChoice(s, s.pcs[t], chosen)
    ensures Inv(Move(WakeOne(s, chosen), t, AfterNotify(s.pcs[t])))
  {
    assert ThreadOk(s.mutexes, s.conds.Keys, t, s.pcs[t]);
    hide MutexCounts, CondCounts, MutexOk;
    WakeOneKeeps(s, t, chosen);
    NotifiedMutex(s, t, chosen, m);
    NotifierMoves(WakeOne(s, chosen), t, m);
  }

  // ---- Broadcast ----

  lemma SameCount(pcs: map<nat, PC>, pcs': map<nat, PC>, p: PC -> bool)
    requires pcs.Keys == pcs'.Keys && forall u :: u in pcs ==> p(pcs[u]) == p(pcs'[u])
    ensures Count(pcs, p) == Count(pcs', p)
  {
    assert ThreadsAt(pcs, p) == ThreadsAt(pcs', p);
  }

  /** A thread after a broadcast on `c`. */
  function Reached(c: nat, pc: PC): PC {
    if CondSleeper(pc, c) then Wakened(pc) else pc
  }

  lemma ReachedMutexClasses(c: nat, pc: PC, m: nat)
    ensures MutexSleeper(Reached(c, pc), m) == MutexSleeper(pc, m) && MutexWoken(Reached(c, pc), m) == MutexWoken(pc, m)
    ensures MutexNotifier(Reached(c, pc), m) == MutexNotifier(pc, m)
    ensures CondReference(Reached(c, pc), m) == CondReference(pc, m)
  {
  }

  lemma ReachedCondClasses(c: nat, pc: PC, k: nat)
    ensures EnteringCond(Reached(c, pc), k) == EnteringCond(pc, k) && Answered(Reached(c, pc), k) == Answered(pc, k)
    ensures Reached(c, pc) == Signalling(k) <==> pc == Signalling(k)
    ensures Reached(c, pc) == Broadcasting(k) <==> pc == Broadcasting(k)
    ensures CondSleeper(Reached(c, pc), k) <==> CondSleeper(pc, k) && k != c
    ensures CondWoken(Reached(c, pc), k) <==> CondWoken(pc, k) || (CondSleeper(pc, k) && k == c)
  {
  }

  lemma WakeAllPcs(s: State, c: nat)
    ensures var pcs' := WakeAll(s, Broadcasting(c)).pcs;
      pcs'.Keys == s.pcs.Keys && forall u :: u in s.pcs ==> pcs'[u] == Reached(c, s.pcs[u])
  {
    hide Wakened;
  }

  lemma WakeAllMutex(s: State, c: nat, m: nat)
    ensures MutexCounts(WakeAll(s, Broadcasting(c)).pcs, m) == MutexCounts(s.pcs, m)
  {
    var pcs' := WakeAll(s, Broadcasting(c)).pcs;
    WakeAllPcs(s, c);
    hide WakeAll, Reached, MutexSleeper, MutexWoken, MutexNotifier, CondReference;
    forall u | u in s.pcs
      ensures MutexSleeper(pcs'[u], m) == MutexSleeper(s.pcs[u], m) && MutexWoken(pcs'[u], m) == MutexWoken(s.pcs[u], m)
      ensures MutexNotifier(pcs'[u], m) == MutexNotifier(s.pcs[u], m)
      ensures CondReference(pcs'[u], m) == CondReference(s.pcs[u], m)
    {
      ReachedMutexClasses(c, s.pcs[u], m);
    }
    SameCount(s.pcs, pcs', (pc: PC) => MutexSleeper(pc, m));
    SameCount(s.pcs, pcs', (pc: PC) => MutexWoken(pc, m));
    SameCount(s.pcs, pcs', (pc: PC) => MutexNotifier(pc, m));
    SameCount(s.pcs, pcs', (pc: PC) => CondReference(pc, m));
  }

  lemma WakeAllUntouched(s: State, c: nat, k: nat)
    ensures var n, n' := CondCounts(s.pcs, k), CondCounts(WakeAll(s, Broadcasting(c)).pcs, k);
      && n'.entering == n.entering && n'.signalling == n.signalling
      && n'.broadcasting == n.broadcasting && n'.answered == n.answered
  {
    var pcs' := WakeAll(s, Broadcasting(c)).pcs;
    WakeAllPcs(s, c);
    hide WakeAll, Reached, EnteringCond, CondSleeper, CondWoken, Answered;
    forall u | u in s.pcs
      ensures EnteringCond(pcs'[u], k) == EnteringCond(s.pcs[u], k) && Answered(pcs'[u], k) == Answered(s.pcs[u], k)
      ensures (pcs'[u] == Signalling(k)) == (s.pcs[u] == Signalling(k))
      ensures (pcs'[u] == Broadcasting(k)) == (s.pcs[u] == Broadcasting(k))
    {
      ReachedCondClasses(c, s.pcs[u], k);
    }
    SameCount(s.pcs, pcs', (pc: PC) => EnteringCond(pc, k));
    SameCount(s.pcs, pcs', (pc: PC) => pc == Signalling(k));
    SameCount(s.pcs, pcs', (pc: PC) => pc == Broadcasting(k));
    SameCount(s.pcs, pcs', (pc: PC) => Answered(pc, k));
  }

  /** Sleepers and woken threads of `k` after a broadcast on `c`. */
  lemma WakeAllSleepers(s: State, c: nat, k: nat)
    ensures var pcs' := WakeAll(s, Broadcasting(c)).pcs;
      && pcs'.Keys == s.pcs.Keys
      && forall u :: u in s.pcs ==>
        && (CondSleeper(pcs'[u], k) <==> CondSleeper(s.pcs[u], k) && k != c)
        && (CondWoken(pcs'[u], k) <==> CondWoken(s.pcs[u], k) || (CondSleeper(s.pcs[u], k) && k == c))
  {
    var pcs' := WakeAll(s, Broadcasting(c)).pcs;
    WakeAllPcs(s, c);
    hide WakeAll, Reached, CondSleeper, CondWoken;
    forall u | u in s.pcs
      ensures CondSleeper(pcs'[u], k) <==> CondSleeper(s.pcs[u], k) && k != c
      ensures CondWoken(pcs'[u], k) <==> CondWoken(s.pcs[u], k) || (CondSleeper(s.pcs[u], k) && k == c)
    {
      ReachedCondClasses(c, s.pcs[u], k);
    }
  }

  lemma WakeAllElsewhere(s: State, c: nat, k: nat)
    requires k != c
    ensures var n, n' := CondCounts(s.pcs, k), CondCounts(WakeAll(s, Broadcasting(c)).pcs, k);
      n'.sleeping == n.sleeping && n'.woken == n.woken
  {
    var pcs' := WakeAll(s, Broadcasting(c)).pcs;
    WakeAllSleepers(s, c, k);
    hide WakeAll, CondSleeper, CondWoken;
    SameCount(s.pcs, pcs', (pc: PC) => CondSleeper(pc, k));
    SameCount(s.pcs, pcs', (pc: PC) => CondWoken(pc, k));
  }

  lemma SleepsOrWoken(pc: PC, c: nat)
    ensures !(CondSleeper(pc, c) && CondWoken(pc, c))
  {
  }

  lemma WakeAllHere(s: State, c: nat)
    ensures var n, n' := CondCounts(s.pcs, c), CondCounts(WakeAll(s, Broadcasting(c)).pcs, c);
      n'.sleeping == 0 && n'.woken == n.sleeping + n.woken
  {
    var pcs' := WakeAll(s, Broadcasting(c)).pcs;
    WakeAllSleepers(s, c, c);
    hide WakeAll, CondSleeper, CondWoken;
    NoSleepers(pcs', 0, c);
    forall u | u in s.pcs ensures !(CondSleeper(s.pcs[u], c) && CondWoken(s.pcs[u], c)) {
      SleepsOrWoken(s.pcs[u], c);
    }
    CountMerge(s.pcs, pcs', (pc: PC) => CondWoken(pc, c), (pc: PC) => CondSleeper(pc, c), (pc: PC) => CondWoken(pc, c));
  }

  /** A broadcast empties the sleepers of its condition variable into the woken, and only those. */
  lemma WakeAllCond(s: State, c: nat, k: nat)
    ensures var n := CondCounts(s.pcs, k);
      CondCounts(WakeAll(s, Broadcasting(c)).pcs, k)
      == if k == c then n.(sleeping := 0, woken := n.sleeping + n.woken) else n
  {
    hide CondCounts, WakeAll;
    WakeAllUntouched(s, c, k);
    if k == c { WakeAllHere(s, c); } else { WakeAllElsewhere(s, c, k); }
  }

  lemma WakeAllThread(s: State, c: nat, t: nat)
    requires t in s.pcs
    ensures var s' := WakeAll(s, Broadcasting(c));
      && s'.mutexes == s.mutexes && s'.conds == s.conds && s'.ledgers == s.ledgers && s'.pcs.Keys == s.pcs.Keys
      && (s'.pcs[t] == s.pcs[t] || s'.pcs[t] == Wakened(s.pcs[t]))
      && (!Sleeping(s.pcs[t]) ==> s'.pcs[t] == s.pcs[t])
  {
  }

  lemma WakeAllKeeps(s: State, t: nat, c: nat)
    requires Inv(s) && t in s.pcs && s.pcs[t] == Broadcasting(c)
    ensures var s' := WakeAll(s, Broadcasting(c));
      && Inv(s') && t in s'.pcs && s'.pcs[t] == Broadcasting(c) && c in s'.conds
      && var n := CondCounts(s'.pcs, c); CondOk(s'.conds[c], s'.ledgers[c], n.(broadcasting := n.broadcasting - 1))
  {
    assert ThreadOk(s.mutexes, s.conds.Keys, t, s.pcs[t]);
    var s' := WakeAll(s, Broadcasting(c));
    WakeAllThread(s, c, t);
    hide MutexCounts, CondCounts, ThreadOk, WakeAll, MutexOk;
    forall k
      ensures MutexOkAt(s'.mutexes, s'.pcs, k)
    {
      WakeAllMutex(s, c, k);
      assert MutexOkAt(s.mutexes, s.pcs, k);
    }
    forall k
      ensures CondOkAt(s'.conds, s'.ledgers, s'.pcs, k)
    {
      WakeAllCond(s, c, k);
      assert CondOkAt(s.conds, s.ledgers, s.pcs, k);
    }
    WakeAllCond(s, c, c);
    assert CondOkAt(s.conds, s.ledgers, s.pcs, c);
    forall u | u in s'.pcs
      ensures ThreadOk(s'.mutexes, s'.conds.Keys, u, s'.pcs[u])
    {
      WakeAllThread(s, c, u);
      assert ThreadOk(s.mutexes, s.conds.Keys, u, s.pcs[u]);
      WakenedThreadOk(s.mutexes, s.conds.Keys, u, s.pcs[u]);
    }
  }

  lemma BroadcasterMoves(s: State, t: nat, c: nat)
    requires Inv(s) && t in s.pcs && s.pcs[t] == Broadcasting(c) && c in s.conds
    requires var n := CondCounts(s.pcs, c); CondOk(s.conds[c], s.ledgers[c], n.(broadcasting := n.broadcasting - 1))
    ensures Inv(Move(s, t, Idle))
  {
    assert c in s.ledgers;
    hide MutexCounts, CondCounts, MutexClass, CondClass, MutexesOk, CondsOk, CondOk;
    OtherClasses(Broadcasting(c));
    OtherClasses(Idle);
    CondsKept(s.conds, s.ledgers, s.pcs, t, Idle, c, s.conds[c], s.ledgers[c]);
    assert s.conds[c := s.conds[c]] == s.conds && s.ledgers[c := s.ledgers[c]] == s.ledgers;
    MutexesUntouched(s.mutexes, s.pcs, t, Idle);
  }

  lemma BroadcastDeliveredKeeps(s: State, t: nat, c: nat)
    requires Inv(s) && t in s.pcs && s.pcs[t] == Broadcasting(c)
    ensures Inv(Move(WakeAll(s, Broadcasting(c)), t, Idle))
  {
    WakeAllKeeps(s, t, c);
    hide CondCounts, MutexesOk, CondsOk, ThreadsOk, CondOk, WakeAll;
    BroadcasterMoves(WakeAll(s, Broadcasting(c)), t, c);
  }
}
