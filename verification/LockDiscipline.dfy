/**
Accesses that are always made while holding one common lock are ordered in every run, so leaving
them out changes no verdict.
*/
module LockDiscipline {
  import opened HappensBefore
  import opened Verdict

  predicate LockOp(e: Event, t: Tid, l: Lock) {
    (e.Acquire? || e.Release?) && e.tid == t && e.lock == l
  }

  /** Thread t's last operation on lock l is an acquire. */
  predicate Holds(tr: Trace, t: Tid, l: Lock) {
    if tr == [] then false
    else
      var e := tr[|tr| - 1];
      if LockOp(e, t, l) then e.Acquire? else Holds(tr[..|tr| - 1], t, l)
  }

  /** A lock is acquired only when no thread holds it. */
  ghost predicate Exclusive(tr: Trace, l: Lock) {
    forall k :: 0 <= k < |tr| && tr[k].Acquire? && tr[k].lock == l ==> forall u :: !Holds(tr[..k], u, l)
  }

  lemma HoldsStep(tr: Trace, k: nat, t: Tid, l: Lock)
    requires k < |tr|
    ensures Holds(tr[..k + 1], t, l) == if LockOp(tr[k], t, l) then tr[k].Acquire? else Holds(tr[..k], t, l)
  {
    assert tr[..k + 1][..k] == tr[..k];
  }

  lemma {:induction false} OneHolder(tr: Trace, n: nat, t: Tid, u: Tid, l: Lock)
    requires n <= |tr| && Exclusive(tr, l) && Holds(tr[..n], t, l) && Holds(tr[..n], u, l)
    ensures t == u
    decreases n
  {
    if n > 0 {
      HoldsStep(tr, n - 1, t, l);
      HoldsStep(tr, n - 1, u, l);
      if Holds(tr[..n - 1], t, l) && Holds(tr[..n - 1], u, l) {
        OneHolder(tr, n - 1, t, u, l);
      }
    }
  }

  /** A holder that did not hold before has acquired in between. */
  lemma {:induction false} LastAcquire(tr: Trace, i: nat, j: nat, u: Tid, l: Lock) returns (k: nat)
    requires i <= j <= |tr| && !Holds(tr[..i], u, l) && Holds(tr[..j], u, l)
    ensures i <= k < j && tr[k].Acquire? && LockOp(tr[k], u, l)
    decreases j
  {
    HoldsStep(tr, j - 1, u, l);
    if LockOp(tr[j - 1], u, l) {
      k := j - 1;
    } else {
      k := LastAcquire(tr, i, j - 1, u, l);
    }
  }

  lemma {:induction false} LastRelease(tr: Trace, i: nat, j: nat, t: Tid, l: Lock) returns (k: nat)
    requires i <= j <= |tr| && Holds(tr[..i], t, l) && !Holds(tr[..j], t, l)
    ensures i <= k < j && tr[k].Release? && LockOp(tr[k], t, l)
    decreases j
  {
    HoldsStep(tr, j - 1, t, l);
    if LockOp(tr[j - 1], t, l) {
      k := j - 1;
    } else {
      k := LastRelease(tr, i, j - 1, t, l);
    }
  }

  /** Two accesses under one lock are ordered: the first thread releases before the second acquires. */
  lemma GuardedAreOrdered(tr: Trace, l: Lock, i: nat, j: nat)
    requires i < j < |tr| && tr[i].Access? && tr[i].tid != tr[j].tid && Exclusive(tr, l)
    requires Holds(tr[..i], tr[i].tid, l) && Holds(tr[..j], tr[j].tid, l)
    ensures HB(tr, i, j)
  {
    var t, u := tr[i].tid, tr[j].tid;
    if Holds(tr[..i], u, l) {
      OneHolder(tr, i, t, u, l);
    }
    var b := LastAcquire(tr, i, j, u, l);
    var a := LastRelease(tr, i, b, t, l);
    assert HB(tr, i, i) && Edge(tr[i], tr[a]) && i < a;
    assert HB(tr, i, a) && Edge(tr[a], tr[b]);
    assert HB(tr, i, b) && Edge(tr[b], tr[j]);
  }

  /** Everything that shares a byte with a dropped access is made under the lock. */
  ghost predicate Protected(tr: Trace, drop: set<nat>, l: Lock) {
    forall i: nat, j: nat :: i in drop && i < |tr| && j < |tr| && tr[i].Access? && tr[j].Access? &&
                             tr[i].bytes * tr[j].bytes != {} ==>
                               Holds(tr[..i], tr[i].tid, l) && Holds(tr[..j], tr[j].tid, l)
  }

  /** Leaving out the accesses to data that one lock always protects changes no verdict.  Different
      dropped accesses may be protected by different locks. */
  lemma ProtectedDropKeepsVerdict(tr: Trace, drop: set<nat>, lockOf: nat -> Lock)
    requires forall i :: i in drop ==> Exclusive(tr, lockOf(i)) && Protected(tr, {i}, lockOf(i))
    ensures SameVerdict(tr, Dropped(tr, drop))
  {
    forall i: nat, j: nat, x, t, wt, u, wu | RacePair(tr, i, j, x, t, wt, u, wu) && t != u && (wt || wu)
      ensures i !in drop && j !in drop
    {
      assert x in tr[i].bytes * tr[j].bytes && x in tr[j].bytes * tr[i].bytes;
      if i in drop {
        SharingIsOrdered(tr, i, j, lockOf(i));
      }
      if j in drop {
        SharingIsOrdered(tr, j, i, lockOf(j));
      }
    }
    DroppingKeepsVerdict(tr, drop);
  }

  lemma SharingIsOrdered(tr: Trace, i: nat, j: nat, l: Lock)
    requires i < |tr| && j < |tr| && tr[i].Access? && tr[j].Access? && tr[i].tid != tr[j].tid
    requires tr[i].bytes * tr[j].bytes != {} && Exclusive(tr, l) && Protected(tr, {i}, l)
    ensures !Unordered(tr, i, j)
  {
    assert i in {i};
    if i < j {
      GuardedAreOrdered(tr, l, i, j);
    } else {
      GuardedAreOrdered(tr, l, j, i);
    }
  }
}
