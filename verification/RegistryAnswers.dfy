/** What the host's answer to a forwarded join or detach means for the next call on the handle (`src/pthread.rs`). */
module RegistryAnswers {
  import opened Wrappers
  import opened PthreadRegistry
  import opened RegistrySystem

  /** The handle of no local thread. */
  predicate Foreign(r: Registry, t: nat) {
    t !in r.detached && t !in r.joinable
  }

  /** What the next join or detach of a foreign handle finds. */
  predicate NextCallFinds(r: Registry, t: nat, target: Target) {
    JoinLookup(r, t).1 == target && DetachLookup(r, t).1 == target
  }

  lemma NextByCaches(r: Registry, t: nat)
    requires NativesOk(r) && Foreign(r, t)
    ensures NextCallFinds(r, t,
      if t in r.nativeConsumed then Refused(ESRCH) else if t in r.nativeDetached then Refused(EINVAL)
      else if t in r.nativeJoinable then NativeJoinable else UnknownNative)
  {
    hide FifosOk, ClearDetached;
  }

  lemma MarkedNext(r: Registry, t: nat)
    requires NativesOk(r) && Foreign(r, t)
    ensures NextCallFinds(MarkConsumed(r, t), t, Refused(ESRCH))
    ensures NextCallFinds(MarkDetached(r, t), t, Refused(EINVAL))
  {
    MarkConsumedOk(r, t);
    MarkDetachedOk(r, t);
    assert Foreign(MarkConsumed(r, t), t) && Foreign(MarkDetached(r, t), t);
    hide MarkConsumed, MarkDetached, NextCallFinds;
    NextByCaches(MarkConsumed(r, t), t);
    NextByCaches(MarkDetached(r, t), t);
  }

  lemma RestoredNext(r: Registry, t: nat)
    requires NativesOk(r) && Foreign(r, t)
    ensures NextCallFinds(RestoreJoinable(r, t), t,
      if t in r.nativeConsumed then Refused(ESRCH) else if t in r.nativeDetached then Refused(EINVAL)
      else NativeJoinable)
  {
    RestoreOk(r, t);
    assert Foreign(RestoreJoinable(r, t), t);
    NextByCaches(RestoreJoinable(r, t), t);
    hide NextCallFinds, NativesOk;
  }

  lemma ReachableNatives(s: RegState)
    requires RegReachable(s)
    ensures RegInv(s)
  {
    var events :| RegRun(REG_INIT, events) == Some(s);
    RegRunOk(REG_INIT, events);
  }

  /** The host's answer to a join: success, or no such thread, uses the handle up, so that the next call on it is
      refused with `ESRCH`; a handle that was or turns out to be detached is refused with `EINVAL`; after any other
      error the next call finds it joinable as before, unless another call settled it in between. */
  lemma JoinAnswerDecides(s: RegState, t: nat, code: Errno)
    requires RegReachable(s) && t in s.joins && Foreign(s.r, t)
    ensures RegStep(s, JoinReturned(t, code)).Some?
    ensures var r := s.r;
      NextCallFinds(RegStep(s, JoinReturned(t, code)).value.r, t,
        if code == ESRCH then Refused(ESRCH)
        else if code == EINVAL then Refused(EINVAL)
        else if code == OK then Refused(if t in r.nativeDetached then EINVAL else ESRCH)
        else if t in r.nativeConsumed then Refused(ESRCH)
        else if t in r.nativeDetached then Refused(EINVAL)
        else NativeJoinable)
  {
    ReachableNatives(s);
    hide NextCallFinds, NativesOk, MarkConsumed, MarkDetached, RestoreJoinable, Foreign;
    MarkedNext(s.r, t);
    RestoredNext(s.r, t);
  }

  /** The host's answer to a detach: success leaves the handle detached, no such thread uses it up, and after any
      other error it is joinable as before, unless another call settled it in between. */
  lemma DetachAnswerDecides(s: RegState, t: nat, code: Errno)
    requires RegReachable(s) && t in s.detaches && Foreign(s.r, t)
    ensures RegStep(s, DetachReturned(t, code)).Some?
    ensures var r := s.r;
      NextCallFinds(RegStep(s, DetachReturned(t, code)).value.r, t,
        if code == ESRCH then Refused(ESRCH)
        else if code == OK || code == EINVAL then Refused(EINVAL)
        else if t in r.nativeConsumed then Refused(ESRCH)
        else if t in r.nativeDetached then Refused(EINVAL)
        else NativeJoinable)
  {
    ReachableNatives(s);
    hide NextCallFinds, NativesOk, MarkConsumed, MarkDetached, RestoreJoinable, Foreign;
    MarkedNext(s.r, t);
    RestoredNext(s.r, t);
  }

  /** A handle nobody knew is used up by the call that asked for it; a created one is joinable. */
  lemma OtherAnswersDecide(s: RegState, t: nat)
    requires RegReachable(s) && Foreign(s.r, t)
    ensures t in s.unknowns ==>
      && RegStep(s, UnknownReturned(t)).Some?
      && NextCallFinds(RegStep(s, UnknownReturned(t)).value.r, t, Refused(ESRCH))
    ensures NextCallFinds(RegStep(s, CreateNativeThread(t)).value.r, t, NativeJoinable)
  {
    ReachableNatives(s);
    MarkedNext(s.r, t);
    CreatedNext(s.r, t);
    hide NextCallFinds, NativesOk, MarkConsumed, CreateNative, Foreign;
  }

  lemma CreatedNext(r: Registry, t: nat)
    requires NativesOk(r) && Foreign(r, t)
    ensures NextCallFinds(CreateNative(r, t), t, NativeJoinable)
  {
    CreateNativeOk(r, t);
    var r' := CreateNative(r, t);
    assert t in r'.nativeJoinable && t !in r'.nativeConsumed && t !in r'.nativeDetached && Foreign(r', t);
    hide CreateNative, NextCallFinds, NativesOk;
    NextByCaches(r', t);
  }

  /** A detach that finds a local handle marks the thread detached exactly while it runs, so that a later call is
      refused with `EINVAL` then; a finished thread leaves nothing behind. */
  lemma LocalDetachDecides(s: RegState, t: nat)
    requires RegReachable(s) && DetachLookup(s.r, t).1 == Local
    ensures var r' := RegStep(s, Detach(t)).value.r;
      && t !in r'.joinable && t !in r'.finished
      && (t in r'.detached <==> t in s.running)
      && (t in s.running ==> NextCallFinds(r', t, Refused(EINVAL)))
  {
    ReachableNatives(s);
    hide NativesOk, RegReachable;
  }

  /** While a detached local thread runs, every call on it is refused with `EINVAL`, even if the caches hold its id. */
  lemma DetachedIsRefused(s: RegState, t: nat)
    requires RegReachable(s) && t in s.r.detached
    ensures t in s.running && NextCallFinds(s.r, t, Refused(EINVAL))
  {
    ReachableNatives(s);
    hide NativesOk, RegReachable;
  }

  // ---- A new local thread ----

  /** An id is reserved only when no part of the registry knows it and no local handle had it. */
  lemma ReservedIsFresh(s: RegState, t: nat)
    requires RegReachable(s) && RegStep(s, Reserve(t)).Some?
    ensures t != 0 && s.next <= t && s.handed[t] == 0
    ensures t !in s.r.joinable && t !in s.r.localPending && t !in s.r.detached && t !in s.r.finished
    ensures t !in s.r.nativeJoinable && t !in s.r.nativeDetached && t !in s.r.nativeConsumed
  {
    ReachableNatives(s);
    hide NativesOk, RegReachable;
  }

  /** No call asks for `t`, and no answer about it comes back. */
  predicate LeavesAlone(e: RegEvent, t: nat) {
    e.t == t ==> e.Started? || e.Publish? || e.Exit?
  }

  /** The host's answers about another handle use up no other. */
  lemma AnswersConsumeByName(r: Registry, u: nat, code: Errno, t: nat)
    requires NativesOk(r) && u != t && t !in r.nativeConsumed
    ensures t !in MarkConsumed(r, u).nativeConsumed
    ensures t !in JoinResult(r, u, code).nativeConsumed && t !in DetachResult(r, u, code).nativeConsumed
  {
    MarkConsumedOk(r, u);
    MarkDetachedOk(r, u);
    assert RestoreJoinable(r, u).nativeConsumed == r.nativeConsumed;
    hide MarkConsumed, MarkDetached, RestoreJoinable, NativesOk;
  }

  lemma CreateConsumesNone(r: Registry, u: nat, t: nat)
    requires NativesOk(r) && t !in r.nativeConsumed
    ensures t !in CreateNative(r, u).nativeConsumed
  {
    hide FifosOk, Without;
  }

  lemma ConsumedByName(s: RegState, e: RegEvent, t: nat)
    requires NativesOk(s.r) && RegStep(s, e).Some? && LeavesAlone(e, t) && t !in s.r.nativeConsumed
    ensures t !in RegStep(s, e).value.r.nativeConsumed
  {
    hide NativesOk, MarkConsumed, JoinResult, DetachResult, CreateNative, JoinLookup, DetachLookup, Allocates;
    match e {
      case CreateNativeThread(u) => CreateConsumesNone(s.r, u, t);
      case Join(u) => LookupsShrink(s.r, u);
      case Detach(u) => LookupsShrink(s.r, u);
      case JoinReturned(u, code) => AnswersConsumeByName(s.r, u, code, t);
      case DetachReturned(u, code) => AnswersConsumeByName(s.r, u, code, t);
      case UnknownReturned(u) => AnswersConsumeByName(s.r, u, OK, t);
      case _ =>
    }
  }

  ghost predicate AllLeaveAlone(events: seq<RegEvent>, t: nat) {
    forall k :: 0 <= k < |events| ==> LeavesAlone(events[k], t)
  }

  lemma {:induction false} StaysUnconsumed(s: RegState, events: seq<RegEvent>, t: nat)
    requires RegInv(s) && RegRun(s, events).Some? && AllLeaveAlone(events, t) && t !in s.r.nativeConsumed
    ensures RegInv(RegRun(s, events).value) && t !in RegRun(s, events).value.r.nativeConsumed
    decreases |events|
  {
    if events != [] {
      var s' := RegStep(s, events[0]).value;
      RegStepNatives(s, events[0]);
      RegStepLocals(s, events[0]);
      assert LeavesAlone(events[0], t);
      ConsumedByName(s, events[0], t);
      hide NativesOk, LocalsOk, HandedOk, RegStep;
      assert forall k :: 0 <= k < |events[1..]| ==> events[1..][k] == events[k + 1];
      StaysUnconsumed(s', events[1..], t);
    }
  }

  /** A reserved thread whose id no call names in between is found, by a join or a detach, in every run and as soon as
      its handle is published. */
  lemma FreshHandleIsFound(s: RegState, t: nat, s1: RegState, events: seq<RegEvent>, s2: RegState)
    requires RegReachable(s) && RegStep(s, Reserve(t)) == Some(s1)
    requires RegRun(s1, events) == Some(s2) && AllLeaveAlone(events, t) && t in s2.r.joinable
    ensures JoinLookup(s2.r, t).1 == Local && DetachLookup(s2.r, t).1 == Local
  {
    ReservedIsFresh(s, t);
    ReachableNatives(s);
    RegStepNatives(s, Reserve(t));
    RegStepLocals(s, Reserve(t));
    assert s1.r.nativeConsumed == s.r.nativeConsumed;
    hide NativesOk, HandedOk, RegStep, RegRun;
    StaysUnconsumed(s1, events, t);
    hide LocalsOk;
    FoundWhenUnconsumed(s2, t);
  }

  lemma FoundWhenUnconsumed(s: RegState, t: nat)
    requires LocalsOk(s) && t in s.r.joinable && t !in s.r.nativeConsumed
    ensures JoinLookup(s.r, t).1 == Local && DetachLookup(s.r, t).1 == Local
  {
    hide Without;
  }

  // ---- How long an answer lasts ----

  /** The handle is the next to be evicted. */
  predicate Oldest(order: seq<nat>, t: nat) {
    |order| == CACHE_LIMIT && order[0] == t
  }

  lemma PushKeeps(cache: set<nat>, order: seq<nat>, u: nat, t: nat)
    requires FifoOk(cache, order) && t in cache && !Oldest(order, t)
    ensures t in Elements(Pushed(order, u))
  {
    PushedOk(cache, order, u);
    hide Pushed;
    assert t in order;
    var k :| 0 <= k < |order| && order[k] == t;
    if u !in order {
      var from := if |order| < CACHE_LIMIT then 0 else 1;
      assert from <= k;
      assert order[from..][k - from] == t;
    }
  }

  /** From `r` to `r'` a used-up handle stays used up and a detached one detached, unless it was the oldest of a full
      cache. */
  predicate StaysSettled(r: Registry, r': Registry, t: nat) {
    && (t in r.nativeConsumed && !Oldest(r.nativeConsumedOrder, t) ==> t in r'.nativeConsumed)
    && (t in r.nativeDetached && !Oldest(r.nativeDetachedOrder, t) ==> t in r'.nativeDetached)
  }

  lemma MarksKeepOthers(r: Registry, u: nat, t: nat)
    requires NativesOk(r) && u != t
    ensures StaysSettled(r, MarkConsumed(r, u), t) && StaysSettled(r, MarkDetached(r, u), t)
    ensures StaysSettled(r, CreateNative(r, u), t) && StaysSettled(r, RestoreJoinable(r, u), t)
  {
    if t in r.nativeConsumed && !Oldest(r.nativeConsumedOrder, t) {
      PushKeeps(r.nativeConsumed, r.nativeConsumedOrder, u, t);
    }
    if t in r.nativeDetached && !Oldest(r.nativeDetachedOrder, t) {
      PushKeeps(r.nativeDetached, r.nativeDetachedOrder, u, t);
    }
    hide Pushed, Without, FifosOk, Oldest;
  }

  lemma LookupsKeepOthers(r: Registry, u: nat, t: nat)
    requires u != t
    ensures StaysSettled(r, JoinLookup(r, u).0, t) && StaysSettled(r, DetachLookup(r, u).0, t)
  {
    hide Without, Oldest;
  }

  /** No call on another handle, and no step of another thread, makes a settled handle joinable again: it stays
      cached until it is the oldest of a full cache. */
  lemma SettledStays(s: RegState, e: RegEvent, t: nat)
    requires RegReachable(s) && RegStep(s, e).Some? && e.t != t
    ensures var r, r' := s.r, RegStep(s, e).value.r;
      && (t in r.nativeConsumed && !Oldest(r.nativeConsumedOrder, t) ==> t in r'.nativeConsumed)
      && (t in r.nativeDetached && !Oldest(r.nativeDetachedOrder, t) ==> t in r'.nativeDetached)
  {
    ReachableNatives(s);
    StepKeepsSettled(s, e, t);
    hide RegStep, Oldest;
  }

  lemma StepKeepsSettled(s: RegState, e: RegEvent, t: nat)
    requires NativesOk(s.r) && RegStep(s, e).Some? && e.t != t
    ensures StaysSettled(s.r, RegStep(s, e).value.r, t)
  {
    hide NativesOk, CreateNative, JoinLookup, DetachLookup, MarkConsumed, MarkDetached, RestoreJoinable, Allocates;
    match e {
      case Join(u) => hide StaysSettled; LookupsKeepOthers(s.r, u, t);
      case Detach(u) => hide StaysSettled; LookupsKeepOthers(s.r, u, t);
      case CreateNativeThread(u) => hide StaysSettled; MarksKeepOthers(s.r, u, t);
      case JoinReturned(u, code) => hide StaysSettled; MarksKeepOthers(s.r, u, t);
      case DetachReturned(u, code) => hide StaysSettled; MarksKeepOthers(s.r, u, t);
      case UnknownReturned(u) => hide StaysSettled; MarksKeepOthers(s.r, u, t);
      case _ =>
    }
  }
}
