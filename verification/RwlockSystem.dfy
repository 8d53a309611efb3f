/** Every interleaving of read-write lock calls on one lock (`src/pthread.rs`), and its safety. */
module RwlockSystem {
  import opened Wrappers
  import opened Counting
  import opened PthreadMutex
  import opened PthreadRwlock

  /** Where a thread is with respect to the lock. */
  datatype RwPC = Outside | ReadAsleep | ReadWoken | WriteAsleep | WriteWoken | NotifyingAll

  datatype RwState = RwState(v: RwVars, pcs: map<nat, RwPC>)

  datatype RwEvent =
    | ReadLock(t: nat, tryOnly: bool)
    | WriteLock(t: nat, tryOnly: bool)
    | RwUnlock(t: nat)
    | RwDestroy(t: nat)
    | RwWake(t: nat)          // a host wakeup, spurious ones included
    | RwResume(t: nat)        // a woken thread takes the host lock again
    | RwNotifyAll(t: nat)

  function WakenedRw(pc: RwPC): RwPC {
    if pc == ReadAsleep then ReadWoken else if pc == WriteAsleep then WriteWoken else pc
  }

  function AfterRead(r: (RwVars, Pass)): RwPC {
    if r.1.Sleep? then ReadAsleep else Outside
  }

  function AfterWrite(r: (RwVars, Pass)): RwPC {
    if r.1.Sleep? then WriteAsleep else Outside
  }

  /** The state after an event, `None` when the event cannot happen. */
  function RwStep(s: RwState, e: RwEvent): Option<RwState> {
    if e.t !in s.pcs then None
    else
      var pc := s.pcs[e.t];
      match e
      case ReadLock(t, tryOnly) =>
        if pc != Outside then None
        else var r := ReadPass(s.v, t, tryOnly, false); Some(RwState(r.0, s.pcs[t := AfterRead(r)]))
      case WriteLock(t, tryOnly) =>
        if pc != Outside then None
        else var r := WritePass(s.v, t, tryOnly, false); Some(RwState(r.0, s.pcs[t := AfterWrite(r)]))
      case RwUnlock(t) =>
        if pc != Outside then None
        else
          var (v, code, notify) := UnlockRwPass(s.v, t);
          Some(RwState(v, s.pcs[t := if notify then NotifyingAll else Outside]))
      case RwDestroy(t) =>
        if pc != Outside then None
        else
          var (v, code) := DestroyPass(s.v);
          Some(RwState(v, s.pcs[t := if code == OK then NotifyingAll else Outside]))
      case RwWake(t) => if WakenedRw(pc) == pc then None else Some(RwState(s.v, s.pcs[t := WakenedRw(pc)]))
      case RwResume(t) =>
        if pc == ReadWoken then var r := ReadPass(s.v, t, false, true); Some(RwState(r.0, s.pcs[t := AfterRead(r)]))
        else if pc == WriteWoken then
          var r := WritePass(s.v, t, false, true);
          Some(RwState(r.0, s.pcs[t := AfterWrite(r)]))
        else None
      case RwNotifyAll(t) =>
        if pc != NotifyingAll then None
        else Some(RwState(s.v, (map u | u in s.pcs :: WakenedRw(s.pcs[u]))[t := Outside]))
  }

  ghost function RwRun(s: RwState, events: seq<RwEvent>): Option<RwState>
    decreases |events|
  {
    if events == [] then Some(s)
    else match RwStep(s, events[0])
      case None => None
      case Some(s') => RwRun(s', events[1..])
  }

  ghost predicate RwInit(s: RwState) {
    s.v == FRESH_RWLOCK && forall t :: t in s.pcs ==> s.pcs[t] == Outside
  }

  ghost predicate RwReachable(s: RwState) {
    exists s0, events :: RwInit(s0) && RwRun(s0, events) == Some(s)
  }

  // ---- Depth sums ----

  ghost function SumDepths(readers: map<nat, nat>): nat {
    if readers == map[] then 0
    else var t :| t in readers; readers[t] + SumDepths(readers - {t})
  }

  lemma {:induction false} SumDepthsWithout(readers: map<nat, nat>, t: nat)
    requires t in readers
    ensures SumDepths(readers) == readers[t] + SumDepths(readers - {t})
    decreases |readers|
  {
    var u :| u in readers && SumDepths(readers) == readers[u] + SumDepths(readers - {u});
    if u != t {
      SumDepthsWithout(readers - {u}, t);
      SumDepthsWithout(readers - {t}, u);
      assert readers - {u} - {t} == readers - {t} - {u};
    }
  }

  lemma SumDepthsSet(readers: map<nat, nat>, t: nat, depth: nat)
    ensures SumDepths(readers[t := depth]) == SumDepths(readers) + depth - if t in readers then readers[t] else 0
  {
    var set' := readers[t := depth];
    SumDepthsWithout(set', t);
    if t in readers {
      SumDepthsWithout(readers, t);
      assert set' - {t} == readers - {t};
    } else {
      assert set' - {t} == readers;
    }
  }

  // ---- The invariant ----

  /** Ownership: a writer excludes readers, and the total is the sum of the readers' depths. */
  ghost predicate OwnersOk(v: RwVars) {
    && (v.writer.Some? ==> v.total == 0)
    && v.total == SumDepths(v.readers)
    && (forall t :: t in v.readers ==> 1 <= v.readers[t])
    && (v.destroyed ==> v.writer == None && v.total == 0 && v.waitingReaders == 0 && v.waitingWriters == 0)
  }

  function WaitingToRead(pcs: map<nat, RwPC>): nat {
    Count(pcs, (pc: RwPC) => pc == ReadAsleep || pc == ReadWoken)
  }

  function WaitingToWrite(pcs: map<nat, RwPC>): nat {
    Count(pcs, (pc: RwPC) => pc == WriteAsleep || pc == WriteWoken)
  }

  /** A sleeper the lock would let through now. */
  predicate Stranded(s: RwState, t: nat) {
    t in s.pcs && ((s.pcs[t] == ReadAsleep && MayRead(s.v, t)) || (s.pcs[t] == WriteAsleep && MayWrite(s.v)))
  }

  ghost predicate SomebodyNotifies(pcs: map<nat, RwPC>) {
    exists u :: u in pcs && pcs[u] == NotifyingAll
  }

  /** No lost wakeup. */
  ghost predicate NoneLost(s: RwState) {
    forall t :: Stranded(s, t) ==> SomebodyNotifies(s.pcs)
  }

  predicate WaiterOk(v: RwVars, t: nat, pc: RwPC) {
    && (pc == ReadAsleep || pc == ReadWoken ==> t !in v.readers && v.writer != Some(t))
    && (pc == WriteAsleep || pc == WriteWoken ==> v.writer != Some(t))
  }

  ghost predicate RwInv(s: RwState) {
    && OwnersOk(s.v)
    && s.v.waitingReaders == WaitingToRead(s.pcs) && s.v.waitingWriters == WaitingToWrite(s.pcs)
    && (forall t :: t in s.pcs ==> WaiterOk(s.v, t, s.pcs[t]))
    && NoneLost(s)
  }
}
