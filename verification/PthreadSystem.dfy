/** Every interleaving of mutex and condition-variable calls (`src/pthread.rs`): threads with a
    program counter each, one critical section of one host lock per event. Mutexes and condition
    variables are numbered per initialisation; host condvars may wake a sleeper at any time. */
module PthreadSystem {
  import opened Wrappers
  import opened Counting
  import opened PthreadMutex
  import opened PthreadCond

  /** Where a thread is inside `pthread_cond_wait` or `pthread_cond_timedwait`. */
  datatype Phase =
    | Referenced          // counted by the mutex, which it still owns
    | Unlocked            // mutex released, its notification outstanding
    | Testing             // about to test `pending_wakeups` for the first time
    | Asleep
    | Woken
    | Relocking           // result known, about to relock the mutex
    | RelockAsleep
    | RelockWoken
    | Reentering(i: nat)  // owns the mutex again at depth `i`, restoring the recursion depth
    | Leaving             // about to drop the mutex reference and return

  /** What a wait remembers; `code` is its return value once known. */
  datatype WaitRecord = WaitRecord(cond: nat, mutex: nat, timed: bool, depth: nat, code: Errno)

  datatype PC =
    | Idle
    | LockAsleep(m: nat)
    | LockWoken(m: nat)
    | Notifying(m: nat)
    | CondWait(phase: Phase, w: WaitRecord)
    | Signalling(c: nat)
    | Broadcasting(c: nat)

  /** Wakeup credits a condition variable has handed out, and the waits it has answered with 0. */
  datatype Ledger = Ledger(granted: nat, returned: nat)

  datatype State = State(
    mutexes: map<nat, MutexVars>,
    conds: map<nat, CondVars>,
    ledgers: map<nat, Ledger>,
    pcs: map<nat, PC>)

  datatype Event =
    | MutexInit(m: nat, kind: MutexType)
    | MutexDestroy(m: nat)
    | Lock(t: nat, m: nat, tryOnly: bool)
    | Unlock(t: nat, m: nat)
    | CondEnter(t: nat, c: nat, m: nat, timed: bool)
    | CondUnlock(t: nat)
    | CondTest(t: nat, expired: bool)
    | Relock(t: nat)
    | Reenter(t: nat)
    | CondReturn(t: nat)
    | Signal(t: nat, c: nat)
    | Broadcast(t: nat, c: nat)
    | CondDestroy(c: nat)
    | Wake(t: nat)                              // a host wakeup, spurious ones included
    | Resume(t: nat, expired: bool)             // a woken thread takes the host lock again
    | NotifyOne(t: nat, chosen: Option<nat>)    // the host wakes one sleeper, if there is one
    | NotifyAll(t: nat)

  // ---- Program counter classes ----

  predicate MutexSleeper(pc: PC, m: nat) {
    pc == LockAsleep(m) || (pc.CondWait? && pc.phase == RelockAsleep && pc.w.mutex == m)
  }

  predicate MutexWoken(pc: PC, m: nat) {
    pc == LockWoken(m) || (pc.CondWait? && pc.phase == RelockWoken && pc.w.mutex == m)
  }

  predicate MutexNotifier(pc: PC, m: nat) {
    pc == Notifying(m) || (pc.CondWait? && pc.phase == Unlocked && pc.w.mutex == m)
  }

  predicate CondReference(pc: PC, m: nat) {
    pc.CondWait? && pc.w.mutex == m
  }

  predicate EnteringCond(pc: PC, c: nat) {
    pc.CondWait? && pc.w.cond == c && (pc.phase == Referenced || pc.phase == Unlocked || pc.phase == Testing)
  }

  predicate CondSleeper(pc: PC, c: nat) {
    pc.CondWait? && pc.w.cond == c && pc.phase == Asleep
  }

  predicate CondWoken(pc: PC, c: nat) {
    pc.CondWait? && pc.w.cond == c && pc.phase == Woken
  }

  predicate Answered(pc: PC, c: nat) {
    && pc.CondWait? && pc.w.cond == c && pc.w.code == OK
    && (pc.phase == Relocking || pc.phase == RelockAsleep || pc.phase == RelockWoken
        || pc.phase.Reentering? || pc.phase == Leaving)
  }

  // ---- Steps ----

  function Move(s: State, t: nat, pc: PC): State {
    s.(pcs := s.pcs[t := pc])
  }

  function SetMutex(s: State, m: nat, v: MutexVars): State {
    s.(mutexes := s.mutexes[m := v])
  }

  function SetCond(s: State, c: nat, v: CondVars): State {
    s.(conds := s.conds[c := v])
  }

  function CondOf(s: State, c: nat): CondVars {
    if c in s.conds then s.conds[c] else FRESH_COND
  }

  function LedgerOf(s: State, c: nat): Ledger {
    if c in s.ledgers then s.ledgers[c] else Ledger(0, 0)
  }

  /** Where `pthread_mutex_lock` and `pthread_mutex_trylock` leave the thread. */
  function AfterLock(m: nat, pass: Pass): PC {
    if pass.Sleep? then LockAsleep(m) else Idle
  }

  /** Where the first relock of a condition wait leaves the thread: an error would replace the result. */
  function AfterRelock(w: WaitRecord, kind: MutexType, pass: Pass): PC {
    match pass
    case Sleep => CondWait(RelockAsleep, w)
    case Return(code) =>
      if code != OK then CondWait(Leaving, w.(code := code))
      else CondWait(if kind == RECURSIVE && 1 < w.depth then Reentering(1) else Leaving, w)
  }

  function AfterReenter(w: WaitRecord, i: nat, pass: Pass): PC {
    match pass
    case Sleep => CondWait(RelockAsleep, w)
    case Return(code) =>
      if code != OK then CondWait(Leaving, w.(code := code))
      else CondWait(if i + 1 < w.depth then Reentering(i + 1) else Leaving, w)
  }

  function AfterTest(w: WaitRecord, code: Option<Errno>): PC {
    match code
    case None => CondWait(Asleep, w)
    case Some(value) => CondWait(Relocking, w.(code := value))
  }

  /** A sleeper after the host woke it. */
  function Wakened(pc: PC): PC {
    match pc
    case LockAsleep(m) => LockWoken(m)
    case CondWait(Asleep, w) => CondWait(Woken, w)
    case CondWait(RelockAsleep, w) => CondWait(RelockWoken, w)
    case _ => pc
  }

  predicate Sleeping(pc: PC) {
    pc.LockAsleep? || (pc.CondWait? && (pc.phase == Asleep || pc.phase == RelockAsleep))
  }

  /** The host condvar a notifier is about to notify reaches this sleeper. */
  predicate Reaches(notifier: PC, pc: PC) {
    match notifier
    case Notifying(m) => MutexSleeper(pc, m)
    case CondWait(Unlocked, w) => MutexSleeper(pc, w.mutex)
    case Signalling(c) => CondSleeper(pc, c)
    case Broadcasting(c) => CondSleeper(pc, c)
    case _ => false
  }

  predicate NotifiesOne(pc: PC) {
    pc.Notifying? || pc.Signalling? || (pc.CondWait? && pc.phase == Unlocked)
  }

  function AfterNotify(pc: PC): PC {
    if pc.CondWait? then CondWait(Testing, pc.w) else Idle
  }

  /** The host's choice among the sleepers it may wake: one of them, or none when there is none. */
  ghost predicate ValidChoice(s: State, notifier: PC, chosen: Option<nat>) {
    match chosen
    case Some(u) => u in s.pcs && Reaches(notifier, s.pcs[u])
    case None => forall u :: u in s.pcs ==> !Reaches(notifier, s.pcs[u])
  }

  function WakeOne(s: State, chosen: Option<nat>): State {
    if chosen.Some? && chosen.value in s.pcs then Move(s, chosen.value, Wakened(s.pcs[chosen.value])) else s
  }

  function WakeAll(s: State, notifier: PC): State {
    s.(pcs := map u | u in s.pcs :: if Reaches(notifier, s.pcs[u]) then Wakened(s.pcs[u]) else s.pcs[u])
  }

  predicate InPhase(s: State, t: nat, phase: Phase) {
    && t in s.pcs && s.pcs[t].CondWait? && s.pcs[t].phase == phase
    && s.pcs[t].w.mutex in s.mutexes && s.pcs[t].w.cond in s.conds
  }

  predicate IdleThread(s: State, t: nat) {
    t in s.pcs && s.pcs[t] == Idle
  }

  function LockStep(s: State, t: nat, m: nat, tryOnly: bool): Option<State> {
    if !IdleThread(s, t) || m !in s.mutexes then None
    else if !s.mutexes[m].live then Some(s)
    else
      var (v, pass) := LockPass(s.mutexes[m], t, tryOnly);
      Some(Move(SetMutex(s, m, v), t, AfterLock(m, pass)))
  }

  function UnlockStep(s: State, t: nat, m: nat): Option<State> {
    if !IdleThread(s, t) || m !in s.mutexes then None
    else if !s.mutexes[m].live then Some(s)
    else
      var (v, code, notify) := UnlockPass(s.mutexes[m], t, false);
      Some(Move(SetMutex(s, m, v), t, if notify then Notifying(m) else Idle))
  }

  function CondEnterStep(s: State, t: nat, c: nat, m: nat, timed: bool): Option<State> {
    if !IdleThread(s, t) || m !in s.mutexes || CondOf(s, c).holder.Some? then None
    else if CondOf(s, c).destroyed || !s.mutexes[m].live || s.mutexes[m].owner != Some(t) then Some(s)
    else
      var v := CondOf(s, c);
      var mv := s.mutexes[m];
      var s' := SetMutex(SetCond(s, c, v.(waiters := v.waiters + 1, holder := Some(t))),
                         m, mv.(condWaiters := mv.condWaiters + 1));
      Some(Move(s'.(ledgers := s.ledgers[c := LedgerOf(s, c)]), t,
                CondWait(Referenced, WaitRecord(c, m, timed, mv.depth, OK))))
  }

  function CondUnlockStep(s: State, t: nat): Option<State> {
    if !InPhase(s, t, Referenced) then None
    else
      var w := s.pcs[t].w;
      var (v, code, notify) := UnlockPass(s.mutexes[w.mutex], t, true);
      if code == OK then Some(Move(SetMutex(s, w.mutex, v), t, CondWait(Unlocked, w)))
      else
        var cv := s.conds[w.cond];
        Some(Move(SetMutex(SetCond(s, w.cond, cv.(waiters := Decrement(cv.waiters), holder := None)),
                           w.mutex, v.(condWaiters := Decrement(v.condWaiters))), t, Idle))
  }

  /** The wait loop's test by a thread in its first test or woken from the condvar. */
  function TestStep(s: State, t: nat, expired: bool): Option<State>
    requires t in s.pcs && s.pcs[t].CondWait? && s.pcs[t].w.cond in s.conds
  {
    var w := s.pcs[t].w;
    if expired && !w.timed then None
    else
      var (v, code) := TestPass(s.conds[w.cond], expired);
      Some(Move(SetCond(s, w.cond, v.(holder := None)), t, AfterTest(w, code)))
  }

  function RelockStep(s: State, t: nat, resumed: bool): State
    requires t in s.pcs && s.pcs[t].CondWait? && s.pcs[t].w.mutex in s.mutexes
  {
    var w := s.pcs[t].w;
    var mv := s.mutexes[w.mutex];
    var (v, pass) := if resumed then ResumePass(mv, t) else LockPass(mv, t, false);
    Move(SetMutex(s, w.mutex, v), t, AfterRelock(w, v.kind, pass))
  }

  function ReenterStep(s: State, t: nat): Option<State> {
    if t in s.pcs && s.pcs[t].CondWait? && s.pcs[t].phase.Reentering? && s.pcs[t].w.mutex in s.mutexes then
      var pc := s.pcs[t];
      var (v, pass) := LockPass(s.mutexes[pc.w.mutex], t, false);
      Some(Move(SetMutex(s, pc.w.mutex, v), t, AfterReenter(pc.w, pc.phase.i, pass)))
    else None
  }

  function CondReturnStep(s: State, t: nat): Option<State> {
    if !InPhase(s, t, Leaving) then None
    else
      var w := s.pcs[t].w;
      var v := s.mutexes[w.mutex];
      var l := LedgerOf(s, w.cond);
      var s' := SetMutex(s, w.mutex, v.(condWaiters := Decrement(v.condWaiters)));
      var l' := if w.code == OK then l.(returned := l.returned + 1) else l;
      Some(Move(s'.(ledgers := s.ledgers[w.cond := l']), t, Idle))
  }

  /** `pthread_cond_signal` and `pthread_cond_broadcast` up to their notification. */
  function GrantStep(s: State, t: nat, c: nat, all: bool): Option<State> {
    if !IdleThread(s, t) || CondOf(s, c).holder.Some? then None
    else if c !in s.conds || s.conds[c].destroyed then Some(s)
    else
      var (v, notify) := if all then BroadcastPass(s.conds[c]) else SignalPass(s.conds[c]);
      var l := LedgerOf(s, c);
      var gained := if s.conds[c].pending <= v.pending then v.pending - s.conds[c].pending else 0;
      Some(Move(SetCond(s, c, v).(ledgers := s.ledgers[c := l.(granted := l.granted + gained)]), t,
                if !notify then Idle else if all then Broadcasting(c) else Signalling(c)))
  }

  function CondDestroyStep(s: State, c: nat): Option<State> {
    if CondOf(s, c).holder.Some? then None
    else if CondOf(s, c).destroyed || CondOf(s, c).waiters != 0 then Some(s)
    else Some(SetCond(s, c, CondOf(s, c).(destroyed := true)).(ledgers := s.ledgers[c := LedgerOf(s, c)]))
  }

  function ResumeStep(s: State, t: nat, expired: bool): Option<State> {
    if t !in s.pcs then None
    else match s.pcs[t]
      case LockWoken(m) =>
        if m !in s.mutexes then None
        else
          var (v, pass) := ResumePass(s.mutexes[m], t);
          Some(Move(SetMutex(s, m, v), t, AfterLock(m, pass)))
      case CondWait(Woken, w) =>
        if w.cond !in s.conds || s.conds[w.cond].holder.Some? then None else TestStep(s, t, expired)
      case CondWait(RelockWoken, w) =>
        if w.mutex !in s.mutexes then None else Some(RelockStep(s, t, true))
      case _ => None
  }

  /** The state after an event, `None` when the event cannot happen. */
  ghost function Step(s: State, e: Event): Option<State> {
    match e
    case MutexInit(m, kind) => if m in s.mutexes then None else Some(SetMutex(s, m, FreshMutex(kind)))
    case MutexDestroy(m) =>
      if m !in s.mutexes then None
      else if !s.mutexes[m].live || DestroyCode(s.mutexes[m]) != OK then Some(s)
      else Some(SetMutex(s, m, s.mutexes[m].(live := false)))
    case Lock(t, m, tryOnly) => LockStep(s, t, m, tryOnly)
    case Unlock(t, m) => UnlockStep(s, t, m)
    case CondEnter(t, c, m, timed) => CondEnterStep(s, t, c, m, timed)
    case CondUnlock(t) => CondUnlockStep(s, t)
    case CondTest(t, expired) => if InPhase(s, t, Testing) then TestStep(s, t, expired) else None
    case Relock(t) => if InPhase(s, t, Relocking) then Some(RelockStep(s, t, false)) else None
    case Reenter(t) => ReenterStep(s, t)
    case CondReturn(t) => CondReturnStep(s, t)
    case Signal(t, c) => GrantStep(s, t, c, false)
    case Broadcast(t, c) => GrantStep(s, t, c, true)
    case CondDestroy(c) => CondDestroyStep(s, c)
    case Wake(t) => if t in s.pcs && Sleeping(s.pcs[t]) then Some(Move(s, t, Wakened(s.pcs[t]))) else None
    case Resume(t, expired) => ResumeStep(s, t, expired)
    case NotifyOne(t, chosen) =>
      if t in s.pcs && NotifiesOne(s.pcs[t]) && ValidChoice(s, s.pcs[t], chosen)
      then Some(Move(WakeOne(s, chosen), t, AfterNotify(s.pcs[t]))) else None
    case NotifyAll(t) =>
      if t in s.pcs && s.pcs[t].Broadcasting?
      then Some(Move(WakeAll(s, s.pcs[t]), t, Idle)) else None
  }

  /** The start: a finite set of threads outside the library, no synchronisation object yet. */
  ghost predicate Init(s: State) {
    s.mutexes == map[] && s.conds == map[] && s.ledgers == map[] && forall t :: t in s.pcs ==> s.pcs[t] == Idle
  }

  ghost function Run(s: State, events: seq<Event>): Option<State>
    decreases |events|
  {
    if events == [] then Some(s)
    else match Step(s, events[0])
      case None => None
      case Some(s') => Run(s', events[1..])
  }

  // ---- The invariant ----

  datatype MutexCount = MutexCount(sleeping: int, woken: int, notifying: int, references: int)
  datatype CondCount = CondCount(
    entering: int, sleeping: int, woken: int, signalling: int, broadcasting: int, answered: int)

  function MutexCounts(pcs: map<nat, PC>, m: nat): (n: MutexCount)
    ensures Natural(n)
  {
    MutexCount(Count(pcs, (pc: PC) => MutexSleeper(pc, m)), Count(pcs, (pc: PC) => MutexWoken(pc, m)),
               Count(pcs, (pc: PC) => MutexNotifier(pc, m)), Count(pcs, (pc: PC) => CondReference(pc, m)))
  }

  predicate Natural(n: MutexCount) {
    0 <= n.sleeping && 0 <= n.woken && 0 <= n.notifying && 0 <= n.references
  }

  predicate NaturalCond(n: CondCount) {
    && 0 <= n.entering && 0 <= n.sleeping && 0 <= n.woken
    && 0 <= n.signalling && 0 <= n.broadcasting && 0 <= n.answered
  }

  function CondCounts(pcs: map<nat, PC>, c: nat): (n: CondCount)
    ensures NaturalCond(n)
  {
    CondCount(Count(pcs, (pc: PC) => EnteringCond(pc, c)), Count(pcs, (pc: PC) => CondSleeper(pc, c)),
              Count(pcs, (pc: PC) => CondWoken(pc, c)), Count(pcs, (pc: PC) => pc == Signalling(c)),
              Count(pcs, (pc: PC) => pc == Broadcasting(c)), Count(pcs, (pc: PC) => Answered(pc, c)))
  }

  function MutexClass(pc: PC, m: nat): MutexCount {
    MutexCount(One(MutexSleeper(pc, m)), One(MutexWoken(pc, m)), One(MutexNotifier(pc, m)), One(CondReference(pc, m)))
  }

  function CondClass(pc: PC, c: nat): CondCount {
    CondCount(One(EnteringCond(pc, c)), One(CondSleeper(pc, c)), One(CondWoken(pc, c)),
              One(pc == Signalling(c)), One(pc == Broadcasting(c)), One(Answered(pc, c)))
  }

  function ShiftMutex(n: MutexCount, p: MutexCount, q: MutexCount): MutexCount {
    MutexCount(n.sleeping - p.sleeping + q.sleeping, n.woken - p.woken + q.woken,
               n.notifying - p.notifying + q.notifying, n.references - p.references + q.references)
  }

  function ShiftCond(n: CondCount, p: CondCount, q: CondCount): CondCount {
    CondCount(n.entering - p.entering + q.entering, n.sleeping - p.sleeping + q.sleeping, n.woken - p.woken + q.woken,
              n.signalling - p.signalling + q.signalling, n.broadcasting - p.broadcasting + q.broadcasting,
              n.answered - p.answered + q.answered)
  }

  /** A mutex and the threads around it. */
  predicate MutexOk(v: MutexVars, n: MutexCount) {
    && (v.owner == None <==> v.depth == 0)
    && (v.kind != RECURSIVE ==> v.depth <= 1)
    && v.waiters == n.sleeping + n.woken
    && v.condWaiters == n.references
    && (v.owner == None && 0 < n.sleeping ==> 0 < n.woken + n.notifying)
    && (!v.live ==> v.owner == None && v.waiters == 0 && v.condWaiters == 0)
  }

  /** A condition variable, its ledger and the threads around it. */
  predicate CondOk(v: CondVars, l: Ledger, n: CondCount) {
    && v.waiters == n.entering + n.sleeping + n.woken
    && v.pending <= n.sleeping + n.woken
    && (v.pending <= n.woken + n.signalling || 0 < n.broadcasting)
    && l.granted == v.pending + l.returned + n.answered
    && n.entering == One(v.holder.Some?)
    && (v.destroyed ==> v.waiters == 0)
  }

  /** What a thread in a condition wait may rely on about its mutex, phase by phase. */
  predicate WaitOk(v: MutexVars, t: nat, phase: Phase, w: WaitRecord) {
    && v.live && 1 <= w.depth && (v.kind != RECURSIVE ==> w.depth == 1)
    && (w.code == OK || (w.code == ETIMEDOUT && w.timed))
    && match phase
       case Referenced => w.code == OK && v.owner == Some(t) && v.depth == w.depth
       case Reentering(i) => v.owner == Some(t) && v.kind == RECURSIVE && 1 <= i < w.depth && v.depth == i
       case Leaving => v.owner == Some(t) && v.depth == w.depth
       case Unlocked => w.code == OK && v.owner != Some(t)
       case Testing => w.code == OK && v.owner != Some(t)
       case Asleep => w.code == OK && v.owner != Some(t)
       case Woken => w.code == OK && v.owner != Some(t)
       case _ => v.owner != Some(t)
  }

  predicate ThreadOk(mutexes: map<nat, MutexVars>, conds: set<nat>, t: nat, pc: PC) {
    match pc
    case Idle => true
    case LockAsleep(m) => m in mutexes && mutexes[m].live
    case LockWoken(m) => m in mutexes && mutexes[m].live
    case Notifying(m) => m in mutexes
    case CondWait(phase, w) => w.mutex in mutexes && w.cond in conds && WaitOk(mutexes[w.mutex], t, phase, w)
    case Signalling(c) => c in conds
    case Broadcasting(c) => c in conds
  }

  ghost predicate MutexesOk(mutexes: map<nat, MutexVars>, pcs: map<nat, PC>) {
    forall m :: MutexOkAt(mutexes, pcs, m)
  }

  predicate MutexOkAt(mutexes: map<nat, MutexVars>, pcs: map<nat, PC>, m: nat) {
    if m in mutexes then MutexOk(mutexes[m], MutexCounts(pcs, m)) else MutexCounts(pcs, m) == NO_MUTEX
  }

  ghost predicate CondsOk(conds: map<nat, CondVars>, ledgers: map<nat, Ledger>, pcs: map<nat, PC>) {
    && ledgers.Keys == conds.Keys
    && forall c :: CondOkAt(conds, ledgers, pcs, c)
  }

  predicate CondOkAt(conds: map<nat, CondVars>, ledgers: map<nat, Ledger>, pcs: map<nat, PC>, c: nat)
    requires ledgers.Keys == conds.Keys
  {
    if c in conds then CondOk(conds[c], ledgers[c], CondCounts(pcs, c)) else CondCounts(pcs, c) == NO_COND
  }

  ghost predicate ThreadsOk(mutexes: map<nat, MutexVars>, conds: set<nat>, pcs: map<nat, PC>) {
    forall t :: t in pcs ==> ThreadOk(mutexes, conds, t, pcs[t])
  }

  ghost predicate Inv(s: State) {
    MutexesOk(s.mutexes, s.pcs) && CondsOk(s.conds, s.ledgers, s.pcs) && ThreadsOk(s.mutexes, s.conds.Keys, s.pcs)
  }

  const NO_MUTEX := MutexCount(0, 0, 0, 0)
  const NO_COND := CondCount(0, 0, 0, 0, 0, 0)
}
