/** Counting threads by program counter. */
module Counting {

  /** How many threads are at a program counter satisfying `p`. */
  function Count<V>(pcs: map<nat, V>, p: V -> bool): nat {
    |ThreadsAt(pcs, p)|
  }

  function ThreadsAt<V>(pcs: map<nat, V>, p: V -> bool): set<nat> {
    set t | t in pcs && p(pcs[t])
  }

  function One(b: bool): nat {
    if b then 1 else 0
  }

  /** One thread moves: the count changes by that thread alone. */
  lemma CountMove<V>(pcs: map<nat, V>, t: nat, q: V, p: V -> bool)
    requires t in pcs
    ensures Count(pcs[t := q], p) == Count(pcs, p) - One(p(pcs[t])) + One(p(q))
  {
    var others := set u | u in pcs && u != t && p(pcs[u]);
    assert ThreadsAt(pcs, p) == if p(pcs[t]) then others + {t} else others;
    assert ThreadsAt(pcs[t := q], p) == if p(q) then others + {t} else others;
  }

  lemma CountPositive<V>(pcs: map<nat, V>, p: V -> bool)
    ensures 0 < Count(pcs, p) <==> exists t :: t in pcs && p(pcs[t])
  {
    var s := ThreadsAt(pcs, p);
    if t :| t in pcs && p(pcs[t]) {
      assert t in s;
    }
    if 0 < |s| {
      var t :| t in s;
    }
  }

  /** Threads counted by `p` become those counted by `q1` or, separately, `q2`. */
  lemma CountMerge<V>(before: map<nat, V>, after: map<nat, V>, p: V -> bool, q1: V -> bool, q2: V -> bool)
    requires before.Keys == after.Keys
    requires forall t :: t in before ==> (p(after[t]) <==> q1(before[t]) || q2(before[t]))
    requires forall t :: t in before ==> !(q1(before[t]) && q2(before[t]))
    ensures Count(after, p) == Count(before, q1) + Count(before, q2)
  {
    assert ThreadsAt(after, p) == ThreadsAt(before, q1) + ThreadsAt(before, q2);
    assert ThreadsAt(before, q1) !! ThreadsAt(before, q2);
  }
}
