/** Every interleaving of create, exit, join and detach calls on the thread registry (`src/pthread.rs`). */
module RegistrySystem {
  import opened Wrappers
  import opened PthreadRegistry

  /** The registry, the id counter, the local threads reserved but not started and those running, the
      local handles given to a join or detach, and the calls between their two critical sections. */
  datatype RegState = RegState(
    r: Registry, next: nat, unstarted: set<nat>, running: set<nat>,
    handed: multiset<nat>, joins: multiset<nat>, detaches: multiset<nat>, unknowns: multiset<nat>)

  datatype RegEvent =
    | Reserve(t: nat)                       // allocate an id and mark it pending
    | SpawnFailed(t: nat)
    | Started(t: nat)                       // the host thread runs
    | Publish(t: nat)                       // its join handle is stored
    | Exit(t: nat)
    | CreateNativeThread(t: nat)
    | Join(t: nat)
    | Detach(t: nat)
    | JoinReturned(t: nat, code: Errno)     // the host's answer, any code
    | DetachReturned(t: nat, code: Errno)
    | UnknownReturned(t: nat)

  ghost predicate Allocates(s: RegState, t: nat) {
    s.next <= t && t != 0 && t !in KnownIds(s.r) && forall k :: s.next <= k < t ==> k == 0 || k in KnownIds(s.r)
  }

  function Dispatch(s: RegState, t: nat, r: Registry, target: Target, join: bool): RegState {
    match target
    case Refused(_) => s.(r := r)
    case Local => s.(r := r, handed := s.handed + multiset{t})
    case NativeJoinable =>
      if join then s.(r := r, joins := s.joins + multiset{t})
      else s.(r := r, detaches := s.detaches + multiset{t})
    case UnknownNative => s.(r := r, unknowns := s.unknowns + multiset{t})
  }

  /** The state after an event, `None` when the event cannot happen. */
  ghost function RegStep(s: RegState, e: RegEvent): Option<RegState> {
    match e
    case Reserve(t) =>
      if !Allocates(s, t) then None
      else Some(s.(r := s.r.(localPending := s.r.localPending + {t}), next := t + 1, unstarted := s.unstarted + {t}))
    case SpawnFailed(t) =>
      if t !in s.unstarted then None
      else Some(s.(r := s.r.(localPending := s.r.localPending - {t}), unstarted := s.unstarted - {t}))
    case Started(t) =>
      if t !in s.unstarted then None else Some(s.(unstarted := s.unstarted - {t}, running := s.running + {t}))
    case Publish(t) =>
      if t !in s.r.localPending || t in s.unstarted then None
      else Some(s.(r := s.r.(joinable := s.r.joinable + {t}, localPending := s.r.localPending - {t})))
    case Exit(t) => if t !in s.running then None else Some(s.(r := LocalExit(s.r, t), running := s.running - {t}))
    case CreateNativeThread(t) => Some(s.(r := CreateNative(s.r, t)))
    case Join(t) => var (r, target) := JoinLookup(s.r, t); Some(Dispatch(s, t, r, target, true))
    case Detach(t) => var (r, target) := DetachLookup(s.r, t); Some(Dispatch(s, t, r, target, false))
    case JoinReturned(t, code) =>
      if t !in s.joins then None else Some(s.(r := JoinResult(s.r, t, code), joins := s.joins - multiset{t}))
    case DetachReturned(t, code) =>
      if t !in s.detaches then None else Some(s.(r := DetachResult(s.r, t, code), detaches := s.detaches - multiset{t}))
    case UnknownReturned(t) =>
      if t !in s.unknowns then None else Some(s.(r := MarkConsumed(s.r, t), unknowns := s.unknowns - multiset{t}))
  }

  ghost function RegRun(s: RegState, events: seq<RegEvent>): Option<RegState>
    decreases |events|
  {
    if events == [] then Some(s)
    else match RegStep(s, events[0])
      case None => None
      case Some(s') => RegRun(s', events[1..])
  }

  const REG_INIT := RegState(EMPTY_REGISTRY, 1, {}, {}, multiset{}, multiset{}, multiset{}, multiset{})

  ghost predicate RegReachable(s: RegState) {
    exists events :: RegRun(REG_INIT, events) == Some(s)
  }

  // ---- The invariant ----

  predicate NativesOk(r: Registry) {
    FifosOk(r) && r.nativeDetached !! r.nativeJoinable && r.nativeDetached !! r.nativeConsumed
  }

  predicate LocalsOk(s: RegState) {
    var r := s.r;
    && r.finished <= r.joinable + r.localPending && r.finished !! s.running
    && r.detached <= s.running
    && r.joinable !! r.localPending && r.detached !! r.joinable && r.detached !! r.localPending
    && s.unstarted <= r.localPending && s.unstarted !! s.running + r.finished
    && r.joinable + r.localPending <= s.running + r.finished + s.unstarted
  }

  ghost predicate HandedOk(s: RegState) {
    && (forall t :: t in s.r.joinable || t in s.r.localPending || t in s.running ==> t < s.next)
    && (forall t :: s.next <= t ==> s.handed[t] == 0)
    && (forall t :: s.handed[t] <= 1)
    && (forall t :: t in s.r.joinable || t in s.r.localPending ==> s.handed[t] == 0)
  }

  ghost predicate RegInv(s: RegState) {
    NativesOk(s.r) && LocalsOk(s) && HandedOk(s)
  }

  // ---- Native handles: every registry operation keeps the caches ----

  lemma ClearDetachedOk(r: Registry, t: nat)
    requires FifosOk(r)
    ensures FifosOk(ClearDetached(r, t))
  {
    WithoutOk(r.nativeDetached, r.nativeDetachedOrder, t);
  }

  lemma ClearConsumedOk(r: Registry, t: nat)
    requires FifosOk(r)
    ensures FifosOk(ClearConsumed(r, t))
  {
    WithoutOk(r.nativeConsumed, r.nativeConsumedOrder, t);
  }

  lemma MarkDetachedOk(r: Registry, t: nat)
    requires NativesOk(r)
    ensures NativesOk(MarkDetached(r, t))
    ensures var r' := MarkDetached(r, t);
      && t in r'.nativeDetached
      && r'.nativeJoinable == r.nativeJoinable - {t} && r'.nativeConsumed == r.nativeConsumed - {t}
  {
    ClearConsumedOk(r, t);
    PushedOk(r.nativeDetached, r.nativeDetachedOrder, t);
  }

  lemma MarkConsumedOk(r: Registry, t: nat)
    requires NativesOk(r)
    ensures NativesOk(MarkConsumed(r, t))
    ensures var r' := MarkConsumed(r, t);
      && t in r'.nativeConsumed && r'.nativeConsumed <= r.nativeConsumed + {t}
      && r'.nativeJoinable == r.nativeJoinable - {t} && r'.nativeDetached == r.nativeDetached - {t}
  {
    ClearDetachedOk(r, t);
    PushedOk(r.nativeConsumed, r.nativeConsumedOrder, t);
  }

  /** The local part of the registry is out of reach of the native operations. */
  predicate SameLocals(r: Registry, r': Registry) {
    && r'.detached == r.detached && r'.finished == r.finished
    && r'.joinable == r.joinable && r'.localPending == r.localPending
  }

  lemma ResultsOk(r: Registry, t: nat, code: Errno)
    requires NativesOk(r)
    ensures NativesOk(JoinResult(r, t, code)) && SameLocals(r, JoinResult(r, t, code))
    ensures NativesOk(DetachResult(r, t, code)) && SameLocals(r, DetachResult(r, t, code))
  {
    MarkDetachedOk(r, t);
    MarkConsumedOk(r, t);
    RestoreOk(r, t);
    assert SameLocals(r, MarkDetached(r, t)) && SameLocals(r, MarkConsumed(r, t));
    hide NativesOk, MarkDetached, MarkConsumed, RestoreJoinable;
  }

  lemma RestoreOk(r: Registry, t: nat)
    requires NativesOk(r)
    ensures NativesOk(RestoreJoinable(r, t)) && SameLocals(r, RestoreJoinable(r, t))
  {
  }

  lemma CreateNativeOk(r: Registry, t: nat)
    requires NativesOk(r)
    ensures NativesOk(CreateNative(r, t)) && SameLocals(r, CreateNative(r, t))
  {
    var r1 := r.(nativeJoinable := r.nativeJoinable + {t});
    ClearDetachedOk(r1, t);
    ClearConsumedOk(ClearDetached(r1, t), t);
  }

  lemma LookupsOk(r: Registry, t: nat)
    requires NativesOk(r)
    ensures NativesOk(JoinLookup(r, t).0) && NativesOk(DetachLookup(r, t).0)
  {
    ClearDetachedOk(r.(nativeJoinable := r.nativeJoinable - {t}), t);
    hide FifoOk;
  }

  // ---- Runs ----

  lemma RegStepNatives(s: RegState, e: RegEvent)
    requires NativesOk(s.r) && RegStep(s, e).Some?
    ensures NativesOk(RegStep(s, e).value.r)
  {
    hide FifoOk, JoinResult, DetachResult, CreateNative, JoinLookup, DetachLookup, MarkConsumed, Allocates;
    match e {
      case CreateNativeThread(t) => CreateNativeOk(s.r, t);
      case Join(t) => LookupsOk(s.r, t);
      case Detach(t) => LookupsOk(s.r, t);
      case JoinReturned(t, code) => ResultsOk(s.r, t, code);
      case DetachReturned(t, code) => ResultsOk(s.r, t, code);
      case UnknownReturned(t) => MarkConsumedOk(s.r, t);
      case _ =>
    }
  }

  lemma ReserveLocals(s: RegState, t: nat)
    requires LocalsOk(s) && HandedOk(s) && RegStep(s, Reserve(t)).Some?
    ensures LocalsOk(RegStep(s, Reserve(t)).value) && HandedOk(RegStep(s, Reserve(t)).value)
  {
    assert t !in s.r.joinable && t !in s.r.localPending && t !in s.running;
    assert t !in s.r.detached && t !in s.r.finished && t !in s.unstarted;
  }

  lemma LifeStepLocals(s: RegState, e: RegEvent)
    requires e.SpawnFailed? || e.Started? || e.Publish? || e.Exit?
    requires LocalsOk(s) && HandedOk(s) && RegStep(s, e).Some?
    ensures LocalsOk(RegStep(s, e).value) && HandedOk(RegStep(s, e).value)
  {
    match e {
      case SpawnFailed(t) => assert t in s.r.localPending && t !in s.r.joinable && t !in s.r.finished;
      case Started(t) =>
        assert t in s.r.localPending && t !in s.r.joinable && t !in s.r.finished;
      case Publish(t) => assert t !in s.r.joinable && t !in s.r.detached;
      case Exit(t) => assert t !in s.r.finished && t !in s.unstarted;
    }
  }

  /** A lookup that finds a local handle takes it out; any other leaves the local part alone. */
  lemma LookupLocals(s: RegState, t: nat, join: bool)
    requires LocalsOk(s) && HandedOk(s)
    ensures var (r, target) := if join then JoinLookup(s.r, t) else DetachLookup(s.r, t);
      var s' := Dispatch(s, t, r, target, join);
      LocalsOk(s') && HandedOk(s')
  {
    hide Without;
    if t in s.r.joinable && t !in s.r.detached && t !in s.r.nativeConsumed {
      HandOver(s, t, join);
    } else {
      NothingHandedOver(s, t, join);
    }
    hide LocalsOk, HandedOk, JoinLookup, DetachLookup, Dispatch;
  }

  /** The handle goes to the call. */
  lemma HandOver(s: RegState, t: nat, join: bool)
    requires LocalsOk(s) && HandedOk(s) && t in s.r.joinable && t !in s.r.detached && t !in s.r.nativeConsumed
    ensures var (r, target) := if join then JoinLookup(s.r, t) else DetachLookup(s.r, t);
      var s' := Dispatch(s, t, r, target, join);
      LocalsOk(s') && HandedOk(s')
  {
    assert t !in s.unstarted && (t in s.r.finished || t in s.running);
    var r0 := s.r.(joinable := s.r.joinable - {t}, finished := s.r.finished - {t});
    var r := if join || t in s.r.finished then r0 else r0.(detached := r0.detached + {t});
    var s' := s.(r := r, handed := s.handed + multiset{t});
    assert (if join then JoinLookup(s.r, t) else DetachLookup(s.r, t)) == (r, Local);
    hide JoinLookup, DetachLookup;
    assert Dispatch(s, t, r, Local, join) == s';
    hide Dispatch;
  }

  lemma NothingHandedOver(s: RegState, t: nat, join: bool)
    requires LocalsOk(s) && HandedOk(s) && !(t in s.r.joinable && t !in s.r.detached && t !in s.r.nativeConsumed)
    ensures var (r, target) := if join then JoinLookup(s.r, t) else DetachLookup(s.r, t);
      var s' := Dispatch(s, t, r, target, join);
      LocalsOk(s') && HandedOk(s')
  {
    hide Without;
    var (r, target) := if join then JoinLookup(s.r, t) else DetachLookup(s.r, t);
    var s' := Dispatch(s, t, r, target, join);
    assert SameLocals(s.r, r) && target != Local;
    hide JoinLookup, DetachLookup;
    assert s'.r == r && s'.next == s.next && s'.handed == s.handed;
    assert s'.running == s.running && s'.unstarted == s.unstarted;
    hide Dispatch;
  }

  lemma RegStepLocals(s: RegState, e: RegEvent)
    requires RegInv(s) && RegStep(s, e).Some?
    ensures LocalsOk(RegStep(s, e).value) && HandedOk(RegStep(s, e).value)
  {
    match e {
      case CreateNativeThread(t) => CreateNativeOk(s.r, t);
      case JoinReturned(t, code) => ResultsOk(s.r, t, code);
      case DetachReturned(t, code) => ResultsOk(s.r, t, code);
      case UnknownReturned(t) => assert SameLocals(s.r, MarkConsumed(s.r, t));
      case Join(t) => LookupLocals(s, t, true);
      case Detach(t) => LookupLocals(s, t, false);
      case Reserve(t) => ReserveLocals(s, t);
      case _ => LifeStepLocals(s, e);
    }
    if e.CreateNativeThread? || e.JoinReturned? || e.DetachReturned? || e.UnknownReturned? {
      var s' := RegStep(s, e).value;
      hide FifosOk, JoinResult, DetachResult, CreateNative, MarkConsumed;
      assert SameLocals(s.r, s'.r) && s'.next == s.next && s'.handed == s.handed;
      assert s'.running == s.running && s'.unstarted == s.unstarted;
    }
  }

  lemma {:induction false} RegRunOk(s: RegState, events: seq<RegEvent>)
    requires RegInv(s) && RegRun(s, events).Some?
    ensures RegInv(RegRun(s, events).value)
    decreases |events|
  {
    if events != [] {
      RegStepNatives(s, events[0]);
      RegStepLocals(s, events[0]);
      hide LocalsOk, HandedOk, NativesOk, RegStep;
      RegRunOk(RegStep(s, events[0]).value, events[1..]);
    }
  }

  // ---- Main results ----

  /** In every reachable state the caches are duplicate-free FIFOs of at most 1024 handles that agree
      with their sets, and a detached native handle is neither joinable nor consumed. */
  lemma NativeCachesSafe(s: RegState)
    requires RegReachable(s)
    ensures s.r.nativeDetached == Elements(s.r.nativeDetachedOrder) && NoDuplicates(s.r.nativeDetachedOrder)
    ensures s.r.nativeConsumed == Elements(s.r.nativeConsumedOrder) && NoDuplicates(s.r.nativeConsumedOrder)
    ensures |s.r.nativeDetachedOrder| <= 1024 && |s.r.nativeConsumedOrder| <= 1024
    ensures s.r.nativeDetached !! s.r.nativeJoinable && s.r.nativeDetached !! s.r.nativeConsumed
  {
    var events :| RegRun(REG_INIT, events) == Some(s);
    RegRunOk(REG_INIT, events);
  }

  /** Each local thread is handed to a join or detach at most once, is marked detached only while it
      runs, and is marked finished only while its handle can still be joined. */
  lemma LocalHandlesSafe(s: RegState)
    requires RegReachable(s)
    ensures forall t :: s.handed[t] <= 1 && (t in s.r.joinable + s.r.localPending ==> s.handed[t] == 0)
    ensures s.r.detached <= s.running
    ensures s.r.finished <= s.r.joinable + s.r.localPending && s.r.finished !! s.running
  {
    var events :| RegRun(REG_INIT, events) == Some(s);
    RegRunOk(REG_INIT, events);
  }

  /** A published handle is found by a join or detach exactly when its id is not cached as consumed. */
  lemma LocalHandleFoundIff(s: RegState, t: nat)
    requires RegReachable(s)
    ensures JoinLookup(s.r, t).1 == Local <==> t in s.r.joinable && t !in s.r.nativeConsumed
    ensures DetachLookup(s.r, t).1 == Local <==> t in s.r.joinable && t !in s.r.nativeConsumed
  {
    var events :| RegRun(REG_INIT, events) == Some(s);
    RegRunOk(REG_INIT, events);
    hide RegRun, Without;
  }

  lemma RegRunStep(s: RegState, e: RegEvent, rest: seq<RegEvent>, s': RegState)
    requires RegStep(s, e) == Some(s')
    ensures RegRun(s, [e] + rest) == RegRun(s', rest)
  {
    hide RegStep;
    assert ([e] + rest)[1..] == rest;
  }

  /** A run that ends with a handle both published and cached as consumed: the running thread is detached by
      its id before the creator stores its join handle. No join or detach finds the handle then. */
  lemma DetachBeforePublishRun()
    ensures var events := [Reserve(1), Started(1), Detach(1), UnknownReturned(1), Publish(1)];
      && RegRun(REG_INIT, events).Some?
      && var r := RegRun(REG_INIT, events).value.r;
      && 1 in r.joinable && 1 in r.nativeConsumed
      && JoinLookup(r, 1).1 == Refused(ESRCH) && DetachLookup(r, 1).1 == Refused(ESRCH)
  {
    var r1 := EMPTY_REGISTRY.(localPending := {1});
    var r4 := r1.(nativeConsumed := {1}, nativeConsumedOrder := [1]);
    var r5 := r4.(localPending := {}, joinable := {1});
    var s1 := REG_INIT.(r := r1, next := 2, unstarted := {1});
    var s2 := s1.(unstarted := {}, running := {1});
    var s3 := s2.(unknowns := multiset{1});
    var s4 := s2.(r := r4);
    var s5 := s2.(r := r5);
    EarlySteps(r1, r4, r5, s1, s2, s3, s4, s5);
    var e1, e2, e3, e4, e5 := Reserve(1), Started(1), Detach(1), UnknownReturned(1), Publish(1);
    hide RegStep;
    RegRunStep(REG_INIT, e1, [e2, e3, e4, e5], s1);
    RegRunStep(s1, e2, [e3, e4, e5], s2);
    RegRunStep(s2, e3, [e4, e5], s3);
    RegRunStep(s3, e4, [e5], s4);
    RegRunStep(s4, e5, [], s5);
    assert [e1] + [e2, e3, e4, e5] == [e1, e2, e3, e4, e5] && [e2] + [e3, e4, e5] == [e2, e3, e4, e5];
    assert [e3] + [e4, e5] == [e3, e4, e5] && [e4] + [e5] == [e4, e5] && [e5] + [] == [e5];
    assert RegRun(s5, []) == Some(s5);
  }

  lemma EarlySteps(r1: Registry, r4: Registry, r5: Registry,
                   s1: RegState, s2: RegState, s3: RegState, s4: RegState, s5: RegState)
    requires r1 == EMPTY_REGISTRY.(localPending := {1})
    requires r4 == r1.(nativeConsumed := {1}, nativeConsumedOrder := [1])
    requires r5 == r4.(localPending := {}, joinable := {1})
    requires s1 == REG_INIT.(r := r1, next := 2, unstarted := {1}) && s2 == s1.(unstarted := {}, running := {1})
    requires s3 == s2.(unknowns := multiset{1}) && s4 == s2.(r := r4) && s5 == s2.(r := r5)
    ensures RegStep(REG_INIT, Reserve(1)) == Some(s1)
    ensures RegStep(s1, Started(1)) == Some(s2)
    ensures RegStep(s2, Detach(1)) == Some(s3)
    ensures RegStep(s3, UnknownReturned(1)) == Some(s4)
    ensures RegStep(s4, Publish(1)) == Some(s5)
  {
    EmptyCaches(1);
    assert {} + {1} == {1} && {1} - {1} == {};
    assert multiset{} + multiset{1} == multiset{1} && multiset{1} - multiset{1} == multiset{};
    assert MarkConsumed(r1, 1) == r4;
  }

  // ---- Joinable against consumed ----

  /** A whole join call with no other call between its critical sections. */
  function AtomicJoin(r: Registry, t: nat, code: Errno): Registry {
    var (r1, target) := JoinLookup(r, t);
    if target == NativeJoinable then JoinResult(r1, t, code)
    else if target == UnknownNative then MarkConsumed(r1, t)
    else r1
  }

  function AtomicDetach(r: Registry, t: nat, code: Errno): Registry {
    var (r1, target) := DetachLookup(r, t);
    if target == NativeJoinable then DetachResult(r1, t, code)
    else if target == UnknownNative then MarkConsumed(r1, t)
    else r1
  }

  predicate FullyDisjoint(r: Registry) {
    NativesOk(r) && r.nativeJoinable !! r.nativeConsumed
  }

  /** Calls that do not overlap keep joinable and consumed apart. */
  lemma AtomicCallsKeepDisjoint(r: Registry, t: nat, code: Errno)
    requires FullyDisjoint(r)
    ensures FullyDisjoint(AtomicJoin(r, t, code))
    ensures FullyDisjoint(AtomicDetach(r, t, code))
    ensures FullyDisjoint(CreateNative(r, t))
  {
    LookupsOk(r, t);
    AnswersKeepDisjoint(JoinLookup(r, t).0, t, code);
    AnswersKeepDisjoint(DetachLookup(r, t).0, t, code);
    CreateNativeOk(r, t);
    WithoutElements(r.nativeConsumedOrder, t);
    hide NativesOk, MarkConsumed, JoinResult, DetachResult;
  }

  lemma AnswersKeepDisjoint(r: Registry, t: nat, code: Errno)
    requires FullyDisjoint(r)
    ensures FullyDisjoint(MarkConsumed(r, t))
    ensures t !in r.nativeConsumed ==> FullyDisjoint(JoinResult(r, t, code)) && FullyDisjoint(DetachResult(r, t, code))
  {
    MarkDetachedOk(r, t);
    MarkConsumedOk(r, t);
    RestoreOk(r, t);
    assert RestoreJoinable(r, t).nativeJoinable <= r.nativeJoinable + {t};
    hide NativesOk, MarkDetached, MarkConsumed;
  }

  /** The answer of a forwarded call breaks the disjointness exactly when it restores a handle that
      another call consumed in between. */
  lemma RestoreOverlapExact(r: Registry, t: nat, code: Errno)
    requires FullyDisjoint(r)
    ensures var restores := code != OK && code != ESRCH && code != EINVAL && t in r.nativeConsumed;
      && (FullyDisjoint(JoinResult(r, t, code)) <==> !restores)
      && (FullyDisjoint(DetachResult(r, t, code)) <==> !restores)
  {
    MarkDetachedOk(r, t);
    MarkConsumedOk(r, t);
    hide FifosOk, MarkDetached, MarkConsumed;
  }

  /** The answer of a join or detach restores a handle that another call consumed in between. */
  predicate Restores(s: RegState, e: RegEvent) {
    match e
    case JoinReturned(t, code) => code != OK && code != ESRCH && code != EINVAL && t in s.r.nativeConsumed
    case DetachReturned(t, code) => code != OK && code != ESRCH && code != EINVAL && t in s.r.nativeConsumed
    case _ => false
  }

  /** Of all events, exactly the restoring answers end the disjointness of joinable and consumed. */
  lemma StepKeepsDisjointIff(s: RegState, e: RegEvent)
    requires FullyDisjoint(s.r) && RegStep(s, e).Some?
    ensures FullyDisjoint(RegStep(s, e).value.r) <==> !Restores(s, e)
  {
    RegStepNatives(s, e);
    match e {
      case CreateNativeThread(t) => AtomicCallsKeepDisjoint(s.r, t, OK);
      case Join(t) => LookupsShrink(s.r, t);
      case Detach(t) => LookupsShrink(s.r, t);
      case JoinReturned(t, code) => RestoreOverlapExact(s.r, t, code);
      case DetachReturned(t, code) => RestoreOverlapExact(s.r, t, code);
      case UnknownReturned(t) => AnswersKeepDisjoint(s.r, t, OK);
      case _ =>
    }
    hide NativesOk, JoinLookup, DetachLookup, JoinResult, DetachResult, MarkConsumed, CreateNative, Allocates;
  }

  /** The first critical sections only take handles out of joinable. */
  lemma LookupsShrink(r: Registry, t: nat)
    ensures var j := JoinLookup(r, t).0;
      j.nativeJoinable <= r.nativeJoinable && j.nativeConsumed == r.nativeConsumed
    ensures var d := DetachLookup(r, t).0;
      d.nativeJoinable <= r.nativeJoinable && d.nativeConsumed == r.nativeConsumed
  {
    hide Without;
  }

  /** No event of the run restores a consumed handle. */
  ghost predicate NeverRestores(s: RegState, events: seq<RegEvent>)
    decreases |events|
  {
    events != [] && RegStep(s, events[0]).Some? ==>
      !Restores(s, events[0]) && NeverRestores(RegStep(s, events[0]).value, events[1..])
  }

  lemma {:induction false} DisjointAlongRun(s: RegState, events: seq<RegEvent>)
    requires FullyDisjoint(s.r) && RegRun(s, events).Some? && NeverRestores(s, events)
    ensures FullyDisjoint(RegRun(s, events).value.r)
    decreases |events|
  {
    hide FullyDisjoint, RegStep, Restores;
    if events != [] {
      StepKeepsDisjointIff(s, events[0]);
      DisjointAlongRun(RegStep(s, events[0]).value, events[1..]);
    }
  }

  /** Every run without a restoring answer ends with joinable and consumed disjoint. */
  lemma RunsKeepDisjoint(events: seq<RegEvent>)
    requires RegRun(REG_INIT, events).Some? && NeverRestores(REG_INIT, events)
    ensures var r := RegRun(REG_INIT, events).value.r; NativesOk(r) && r.nativeJoinable !! r.nativeConsumed
  {
    hide NeverRestores, RegRun;
    DisjointAlongRun(REG_INIT, events);
  }

  // ---- Calls that do not overlap ----

  /** At most one call is between its two critical sections. */
  predicate OneCall(s: RegState) {
    |s.joins| + |s.detaches| + |s.unknowns| <= 1
  }

  ghost predicate Sequential(s: RegState, events: seq<RegEvent>)
    decreases |events|
  {
    OneCall(s) && (events != [] && RegStep(s, events[0]).Some? ==> Sequential(RegStep(s, events[0]).value, events[1..]))
  }

  /** The handle of the outstanding call is not consumed. */
  predicate OutstandingFresh(s: RegState) {
    && (forall t :: t in s.joins ==> t !in s.r.nativeConsumed)
    && (forall t :: t in s.detaches ==> t !in s.r.nativeConsumed)
  }

  lemma AloneInBag(t: nat, bag: multiset<nat>)
    requires t in bag && |bag| <= 1
    ensures bag == multiset{t} && bag - multiset{t} == multiset{}
  {
    assert bag == multiset{t} + (bag - multiset{t});
    assert |bag - multiset{t}| == 0;
  }

  /** After the only outstanding call returned there is none. */
  lemma ReturnedAlone(s: RegState, e: RegEvent)
    requires OneCall(s) && RegStep(s, e).Some? && (e.JoinReturned? || e.DetachReturned? || e.UnknownReturned?)
    ensures RegStep(s, e).value.joins == multiset{} && RegStep(s, e).value.detaches == multiset{}
  {
    hide JoinResult, DetachResult, MarkConsumed;
    match e {
      case JoinReturned(t, _) => AloneInBag(t, s.joins);
      case DetachReturned(t, _) => AloneInBag(t, s.detaches);
      case UnknownReturned(t) => AloneInBag(t, s.unknowns);
    }
  }

  lemma CreateFresh(s: RegState, t: nat)
    requires OutstandingFresh(s)
    ensures OutstandingFresh(s.(r := CreateNative(s.r, t)))
  {
    hide Without;
  }

  lemma SequentialStepFresh(s: RegState, e: RegEvent)
    requires FullyDisjoint(s.r) && OneCall(s) && OutstandingFresh(s) && RegStep(s, e).Some?
    ensures !Restores(s, e) && OutstandingFresh(RegStep(s, e).value)
  {
    hide FullyDisjoint, OneCall, JoinLookup, DetachLookup, JoinResult, DetachResult, MarkConsumed;
    hide CreateNative, Allocates, LocalExit;
    match e {
      case CreateNativeThread(t) => CreateFresh(s, t);
      case Join(t) => LookupFresh(s, t, true);
      case Detach(t) => LookupFresh(s, t, false);
      case JoinReturned(t, code) => ReturnedAlone(s, e);
      case DetachReturned(t, code) => ReturnedAlone(s, e);
      case UnknownReturned(t) => ReturnedAlone(s, e);
      case Exit(t) => assert LocalExit(s.r, t).nativeConsumed == s.r.nativeConsumed by { ExitKeepsNatives(s.r, t); }
      case _ =>
    }
  }

  lemma ExitKeepsNatives(r: Registry, t: nat)
    ensures LocalExit(r, t).nativeConsumed == r.nativeConsumed
  {
  }

  lemma LookupFresh(s: RegState, t: nat, join: bool)
    requires FullyDisjoint(s.r) && OutstandingFresh(s)
    ensures var (r, target) := if join then JoinLookup(s.r, t) else DetachLookup(s.r, t);
      OutstandingFresh(Dispatch(s, t, r, target, join))
  {
    LookupsShrink(s.r, t);
    hide NativesOk, Without;
  }

  lemma {:induction false} SequentialNeverRestores(s: RegState, events: seq<RegEvent>)
    requires FullyDisjoint(s.r) && OutstandingFresh(s) && RegRun(s, events).Some? && Sequential(s, events)
    ensures NeverRestores(s, events)
    decreases |events|
  {
    hide FullyDisjoint, RegStep, Restores, OutstandingFresh, OneCall;
    if events != [] {
      var s' := RegStep(s, events[0]).value;
      assert OneCall(s');
      SequentialStepFresh(s, events[0]);
      StepKeepsDisjointIff(s, events[0]);
      SequentialNeverRestores(s', events[1..]);
    }
  }

  /** In every run whose calls do not overlap, joinable and consumed are disjoint. */
  lemma SequentialRunsKeepDisjoint(events: seq<RegEvent>)
    requires RegRun(REG_INIT, events).Some? && Sequential(REG_INIT, events)
    ensures var r := RegRun(REG_INIT, events).value.r; NativesOk(r) && r.nativeJoinable !! r.nativeConsumed
  {
    hide NeverRestores, RegRun, Sequential;
    SequentialNeverRestores(REG_INIT, events);
    RunsKeepDisjoint(events);
  }

  /** Two racing joins of one native handle reach that overlap. */
  lemma RacingJoinsOverlap(t: nat)
    ensures var events := [CreateNativeThread(t), Join(t), Join(t), UnknownReturned(t), JoinReturned(t, EDEADLK)];
      && RegRun(REG_INIT, events).Some?
      && t in RegRun(REG_INIT, events).value.r.nativeJoinable && t in RegRun(REG_INIT, events).value.r.nativeConsumed
  {
    var s0 := REG_INIT;
    var s1 := s0.(r := s0.r.(nativeJoinable := {t}));
    var s2 := s0.(joins := multiset{t});
    var s3 := s2.(unknowns := multiset{t});
    var s4 := s2.(r := s0.r.(nativeConsumed := {t}, nativeConsumedOrder := [t]));
    var s5 := s0.(r := s4.r.(nativeJoinable := {t}));
    EmptyCaches(t);
    assert {} + {t} == {t} && {t} - {t} == {};
    assert CreateNative(s0.r, t) == s1.r;
    assert RegStep(s0, CreateNativeThread(t)) == Some(s1);
    assert s1.r.(nativeJoinable := s1.r.nativeJoinable - {t}) == s0.r;
    assert JoinLookup(s1.r, t) == (s0.r, NativeJoinable);
    assert s1.joins + multiset{t} == multiset{t};
    assert RegStep(s1, Join(t)) == Some(s2);
    assert RegStep(s2, Join(t)) == Some(s3);
    assert s3.unknowns - multiset{t} == multiset{};
    assert RegStep(s3, UnknownReturned(t)) == Some(s4);
    assert RegStep(s4, JoinReturned(t, EDEADLK)) == Some(s5);
    hide RegStep;
    assert RegRun(s5, []) == Some(s5);
    assert RegRun(s4, [JoinReturned(t, EDEADLK)]) == Some(s5);
    assert RegRun(s3, [UnknownReturned(t), JoinReturned(t, EDEADLK)]) == Some(s5);
    assert RegRun(s2, [Join(t), UnknownReturned(t), JoinReturned(t, EDEADLK)]) == Some(s5);
    assert RegRun(s1, [Join(t), Join(t), UnknownReturned(t), JoinReturned(t, EDEADLK)]) == Some(s5);
  }

  lemma EmptyCaches(t: nat)
    ensures Without([], t) == [] && Pushed([], t) == [t] && Elements([t]) == {t}
    ensures forall r: Registry :: r.nativeDetached == {} && r.nativeDetachedOrder == [] ==> ClearDetached(r, t) == r
    ensures forall r: Registry :: r.nativeConsumed == {} && r.nativeConsumedOrder == [] ==> ClearConsumed(r, t) == r
  {
    assert {t} - {t} == {};
  }
}
