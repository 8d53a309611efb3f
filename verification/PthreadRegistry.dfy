/** The thread-handle registry of `src/pthread.rs`: which handles may still be joined or detached. */
module PthreadRegistry {
  import opened Wrappers

  const CACHE_LIMIT := 1024

  // ---- The bounded FIFO caches ----

  function Elements(order: seq<nat>): set<nat> {
    set t | t in order
  }

  predicate NoDuplicates(order: seq<nat>) {
    forall i, j :: 0 <= i < j < |order| ==> order[i] != order[j]
  }

  /** A cache set and its queue agree, without duplicates, within the limit. */
  predicate FifoOk(cache: set<nat>, order: seq<nat>) {
    cache == Elements(order) && NoDuplicates(order) && |order| <= CACHE_LIMIT
  }

  /** A handle enters at the back; beyond the limit the oldest leaves. */
  function Pushed(order: seq<nat>, t: nat): seq<nat> {
    if t in order then order
    else if CACHE_LIMIT < |order| + 1 then order[|order| + 1 - CACHE_LIMIT..] + [t]
    else order + [t]
  }

  function Without(order: seq<nat>, t: nat): seq<nat> {
    if order == [] then []
    else if order[0] == t then order[1..]
    else [order[0]] + Without(order[1..], t)
  }

  lemma PushedOk(cache: set<nat>, order: seq<nat>, t: nat)
    requires FifoOk(cache, order)
    ensures FifoOk(Elements(Pushed(order, t)), Pushed(order, t))
    ensures t in Pushed(order, t)
    ensures forall u :: u in Pushed(order, t) ==> u in order || u == t
    ensures |order| < CACHE_LIMIT ==> Elements(Pushed(order, t)) == cache + {t}
    ensures Pushed(order, t) == if t in order then order else order[if |order| < 1024 then 0 else 1..] + [t]
  {
  }

  lemma {:induction false} WithoutElements(order: seq<nat>, t: nat)
    requires NoDuplicates(order)
    ensures forall u :: u in Without(order, t) <==> u in order && u != t
    ensures |Without(order, t)| <= |order|
  {
    if order != [] {
      WithoutElements(order[1..], t);
      assert order == [order[0]] + order[1..];
      if order[0] == t {
        assert forall u :: u in order[1..] ==> u != t;
      }
    }
  }

  lemma {:induction false} WithoutKeepsDistinct(order: seq<nat>, t: nat)
    requires NoDuplicates(order)
    ensures NoDuplicates(Without(order, t))
  {
    if order != [] && order[0] != t {
      WithoutKeepsDistinct(order[1..], t);
      WithoutElements(order[1..], t);
      assert order[0] !in order[1..];
    }
  }

  lemma WithoutOk(cache: set<nat>, order: seq<nat>, t: nat)
    requires FifoOk(cache, order)
    ensures FifoOk(cache - {t}, Without(order, t))
  {
    WithoutElements(order, t);
    WithoutKeepsDistinct(order, t);
  }

  lemma {:induction false} WithoutAt(order: seq<nat>, t: nat, i: nat)
    requires i <= |order| && forall j :: 0 <= j < i ==> order[j] != t
    requires i < |order| ==> order[i] == t
    ensures Without(order, t) == if i < |order| then order[..i] + order[i + 1..] else order
  {
    if i > 0 {
      WithoutAt(order[1..], t, i - 1);
      if i < |order| {
        assert order[..i] + order[i + 1..] == [order[0]] + (order[1..][..i - 1] + order[1..][i..]);
      }
    }
  }

  /** Finding a handle's position in a queue and removing it there. */
  method RemoveFromQueue(order: seq<nat>, t: nat) returns (rest: seq<nat>)
    ensures rest == Without(order, t)
  {
    var i := 0;
    while i < |order| && order[i] != t
      invariant 0 <= i <= |order|
      invariant forall j :: 0 <= j < i ==> order[j] != t
    {
      i := i + 1;
    }
    WithoutAt(order, t, i);
    rest := if i < |order| then order[..i] + order[i + 1..] else order;
  }

  /** Inserting a handle and evicting the oldest beyond the limit. */
  method InsertBounded(cache: set<nat>, order: seq<nat>, t: nat) returns (cache': set<nat>, order': seq<nat>)
    requires FifoOk(cache, order)
    ensures order' == Pushed(order, t) && cache' == Elements(order') && FifoOk(cache', order') && t in cache'
  {
    PushedOk(cache, order, t);
    cache', order' := cache, order;
    if t !in cache {
      cache', order' := cache + {t}, order + [t];
    }
    while CACHE_LIMIT < |order'|
      invariant NoDuplicates(order') && cache' == Elements(order') && |order'| <= CACHE_LIMIT + 1
      invariant order' == Pushed(order, t) || (CACHE_LIMIT < |order'| && t !in order && order' == order + [t])
    {
      var expired := order'[0];
      order' := order'[1..];
      cache' := cache' - {expired};
    }
  }

  // ---- Registry values ----

  /** `PthreadRegistry`: a local join handle is known by its thread id. */
  datatype Registry = Registry(
    detached: set<nat>, finished: set<nat>, joinable: set<nat>, localPending: set<nat>,
    nativeDetached: set<nat>, nativeDetachedOrder: seq<nat>,
    nativeConsumed: set<nat>, nativeConsumedOrder: seq<nat>,
    nativeJoinable: set<nat>)

  const EMPTY_REGISTRY := Registry({}, {}, {}, {}, {}, [], {}, [], {})

  predicate FifosOk(r: Registry) {
    FifoOk(r.nativeDetached, r.nativeDetachedOrder) && FifoOk(r.nativeConsumed, r.nativeConsumedOrder)
  }

  function ClearDetached(r: Registry, t: nat): Registry {
    var order := Without(r.nativeDetachedOrder, t);
    r.(nativeDetached := r.nativeDetached - {t}, nativeDetachedOrder := order)
  }

  function ClearConsumed(r: Registry, t: nat): Registry {
    var order := Without(r.nativeConsumedOrder, t);
    r.(nativeConsumed := r.nativeConsumed - {t}, nativeConsumedOrder := order)
  }

  function MarkDetached(r: Registry, t: nat): Registry {
    var c := ClearConsumed(r, t);
    var order := Pushed(c.nativeDetachedOrder, t);
    c.(nativeJoinable := c.nativeJoinable - {t}, nativeDetached := Elements(order), nativeDetachedOrder := order)
  }

  function MarkConsumed(r: Registry, t: nat): Registry {
    var c := ClearDetached(r, t);
    var order := Pushed(c.nativeConsumedOrder, t);
    c.(nativeJoinable := c.nativeJoinable - {t}, nativeConsumed := Elements(order), nativeConsumedOrder := order)
  }

  function LocalExit(r: Registry, t: nat): Registry {
    if t in r.detached then r.(detached := r.detached - {t})
    else if t in r.joinable || t in r.localPending then r.(finished := r.finished + {t})
    else r
  }

  function RestoreJoinable(r: Registry, t: nat): Registry {
    if t in r.nativeDetached then r else r.(nativeJoinable := r.nativeJoinable + {t})
  }

  function DetachResult(r: Registry, t: nat, code: Errno): Registry {
    if code == OK || code == EINVAL then MarkDetached(r, t)
    else if code == ESRCH then MarkConsumed(r, t)
    else RestoreJoinable(r, t)
  }

  function JoinResult(r: Registry, t: nat, code: Errno): Registry {
    if code == OK then (if t in r.nativeDetached then MarkDetached(r, t) else MarkConsumed(r, t))
    else if code == ESRCH then MarkConsumed(r, t)
    else if code == EINVAL then MarkDetached(r, t)
    else RestoreJoinable(r, t)
  }

  /** What the first critical section of a join or detach finds. */
  datatype Target = Refused(code: Errno) | Local | NativeJoinable | UnknownNative

  function JoinLookup(r: Registry, t: nat): (Registry, Target) {
    if t in r.detached then (r, Refused(EINVAL))
    else if t in r.nativeConsumed then (r, Refused(ESRCH))
    else if t in r.joinable then (r.(joinable := r.joinable - {t}, finished := r.finished - {t}), Local)
    else if t in r.nativeDetached then (r, Refused(EINVAL))
    else if t in r.nativeJoinable then (ClearDetached(r.(nativeJoinable := r.nativeJoinable - {t}), t), NativeJoinable)
    else (r, UnknownNative)
  }

  function DetachLookup(r: Registry, t: nat): (Registry, Target) {
    if t in r.joinable && t !in r.detached && t !in r.nativeConsumed then
      (r.(joinable := r.joinable - {t}, finished := r.finished - {t},
          detached := if t in r.finished then r.detached else r.detached + {t}), Local)
    else JoinLookup(r, t)
  }

  /** `pthread_create` of a native thread with attributes. */
  function CreateNative(r: Registry, t: nat): Registry {
    ClearConsumed(ClearDetached(r.(nativeJoinable := r.nativeJoinable + {t}), t), t)
  }

  /** Ids `allocate_thread_id` skips. */
  function KnownIds(r: Registry): set<nat> {
    r.joinable + r.localPending + r.detached + r.nativeJoinable + r.nativeDetached + r.nativeConsumed
  }

  // ---- The registry object ----

  /** The registry behind its lock, mutated in place; `AllocateThreadId` takes the id counter as a parameter. */
  class RegistryObject {
    var detached: set<nat>
    var finished: set<nat>
    var joinable: set<nat>
    var localPending: set<nat>
    var nativeDetached: set<nat>
    var nativeDetachedOrder: seq<nat>
    var nativeConsumed: set<nat>
    var nativeConsumedOrder: seq<nat>
    var nativeJoinable: set<nat>

    function Value(): Registry
      reads this
    {
      Registry(detached, finished, joinable, localPending, nativeDetached, nativeDetachedOrder,
               nativeConsumed, nativeConsumedOrder, nativeJoinable)
    }

    constructor ()
      ensures Value() == EMPTY_REGISTRY
    {
      detached, finished, joinable, localPending := {}, {}, {}, {};
      nativeDetached, nativeDetachedOrder, nativeConsumed, nativeConsumedOrder, nativeJoinable := {}, [], {}, [], {};
    }

    method HandleLocalThreadExit(t: nat)
      modifies this
      ensures Value() == LocalExit(old(Value()), t)
    {
      if t in detached {
        detached := detached - {t};
      } else if t in joinable || t in localPending {
        finished := finished + {t};
      }
    }

    method ClearNativeDetached(t: nat)
      requires FifosOk(Value())
      modifies this
      ensures Value() == ClearDetached(old(Value()), t) && FifosOk(Value())
    {
      WithoutOk(nativeDetached, nativeDetachedOrder, t);
      if t in nativeDetached {
        nativeDetached := nativeDetached - {t};
        nativeDetachedOrder := RemoveFromQueue(nativeDetachedOrder, t);
      } else {
        WithoutAt(nativeDetachedOrder, t, |nativeDetachedOrder|);
      }
    }

    method ClearNativeConsumed(t: nat)
      requires FifosOk(Value())
      modifies this
      ensures Value() == ClearConsumed(old(Value()), t) && FifosOk(Value())
    {
      WithoutOk(nativeConsumed, nativeConsumedOrder, t);
      if t in nativeConsumed {
        nativeConsumed := nativeConsumed - {t};
        nativeConsumedOrder := RemoveFromQueue(nativeConsumedOrder, t);
      } else {
        WithoutAt(nativeConsumedOrder, t, |nativeConsumedOrder|);
      }
    }

    method MarkNativeDetached(t: nat)
      requires FifosOk(Value())
      modifies this
      ensures Value() == MarkDetached(old(Value()), t) && FifosOk(Value())
    {
      ClearNativeConsumed(t);
      nativeJoinable := nativeJoinable - {t};
      nativeDetached, nativeDetachedOrder := InsertBounded(nativeDetached, nativeDetachedOrder, t);
    }

    method MarkNativeConsumed(t: nat)
      requires FifosOk(Value())
      modifies this
      ensures Value() == MarkConsumed(old(Value()), t) && FifosOk(Value())
    {
      nativeJoinable := nativeJoinable - {t};
      ClearNativeDetached(t);
      nativeConsumed, nativeConsumedOrder := InsertBounded(nativeConsumed, nativeConsumedOrder, t);
    }

    /** The first critical section of `pthread_join`. */
    method BeginJoin(t: nat) returns (target: Target)
      requires FifosOk(Value())
      modifies this
      ensures (Value(), target) == JoinLookup(old(Value()), t) && FifosOk(Value())
    {
      if t in detached {
        return Refused(EINVAL);
      }
      if t in nativeConsumed {
        return Refused(ESRCH);
      }
      if t in joinable {
        joinable := joinable - {t};
        finished := finished - {t};
        return Local;
      }
      if t in nativeDetached {
        return Refused(EINVAL);
      }
      if t in nativeJoinable {
        nativeJoinable := nativeJoinable - {t};
        ClearNativeDetached(t);
        return NativeJoinable;
      }
      target := UnknownNative;
    }

    /** The first critical section of `pthread_detach`. */
    method BeginDetach(t: nat) returns (target: Target)
      requires FifosOk(Value())
      modifies this
      ensures (Value(), target) == DetachLookup(old(Value()), t) && FifosOk(Value())
    {
      if t in detached {
        return Refused(EINVAL);
      }
      if t in nativeConsumed {
        return Refused(ESRCH);
      }
      if t in joinable {
        joinable := joinable - {t};
        var wasFinished := t in finished;
        finished := finished - {t};
        if !wasFinished {
          detached := detached + {t};
        }
        return Local;
      }
      target := BeginJoin(t);
    }

    method HandleForwardedNativeDetachResult(t: nat, detachResult: Errno) returns (code: Errno)
      requires FifosOk(Value())
      modifies this
      ensures Value() == DetachResult(old(Value()), t, detachResult) && FifosOk(Value()) && code == detachResult
    {
      if detachResult == OK || detachResult == EINVAL {
        MarkNativeDetached(t);
        return detachResult;
      }
      if detachResult == ESRCH {
        MarkNativeConsumed(t);
        return ESRCH;
      }
      if t !in nativeDetached {
        nativeJoinable := nativeJoinable + {t};
      }
      code := detachResult;
    }

    method HandleForwardedNativeJoinResult(t: nat, joinResult: Errno) returns (code: Errno)
      requires FifosOk(Value())
      modifies this
      ensures Value() == JoinResult(old(Value()), t, joinResult) && FifosOk(Value()) && code == joinResult
    {
      var wasDetached := t in nativeDetached;
      if joinResult == OK {
        if wasDetached {
          MarkNativeDetached(t);
          return OK;
        }
        MarkNativeConsumed(t);
        return OK;
      }
      if joinResult == ESRCH {
        MarkNativeConsumed(t);
        return ESRCH;
      }
      if joinResult == EINVAL {
        MarkNativeDetached(t);
        return EINVAL;
      }
      if t !in nativeDetached {
        nativeJoinable := nativeJoinable + {t};
      }
      code := joinResult;
    }

    /** The first unknown non-zero id from the counter on; the counter moves past it. */
    method AllocateThreadId(next: nat) returns (id: nat, next': nat)
      ensures next <= id && id != 0 && id !in KnownIds(Value()) && next' == id + 1
      ensures forall k :: next <= k < id ==> k == 0 || k in KnownIds(Value())
    {
      next' := next;
      ghost var later := set k | k in KnownIds(Value()) + {0} && next <= k;
      while true
        invariant next <= next'
        invariant later == set k | k in KnownIds(Value()) + {0} && next' <= k
        invariant forall k :: next <= k < next' ==> k == 0 || k in KnownIds(Value())
        decreases |later|
      {
        var candidate := next';
        next' := next' + 1;
        if candidate != 0 && candidate !in KnownIds(Value()) {
          return candidate, next';
        }
        assert candidate in later;
        later := later - {candidate};
      }
    }
  }
}
