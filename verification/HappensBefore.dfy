/**
The ideal race detector that every transformation is measured against.

A trace is one interleaving of the events of all threads.  Two accounts of its ordering are given:
`HB` is the transitive closure of program order and of the release/acquire, fork and join edges, and
`SyncAfter` is a vector-clock machine in the style of DJIT+, whose clocks move at synchronisation
events only.  `ClocksAreExact` says that the two agree on every pair of events of every trace.
*/
module HappensBefore {
  type Tid = nat
  type Lock = nat
  type Byte = int

  datatype Event =
    | Access(tid: Tid, write: bool, bytes: set<Byte>)
    | Acquire(tid: Tid, lock: Lock)
    | Release(tid: Tid, lock: Lock)
    | Fork(tid: Tid, child: Tid)
    | Join(tid: Tid, child: Tid)

  type Trace = seq<Event>

  // ---------------------------------------------------------------- happens-before as a relation

  /** Event k feeds thread t: it is one of t's own events, or the event that created t. */
  predicate Feeds(e: Event, t: Tid) {
    e.tid == t || (e.Fork? && e.child == t)
  }

  /** A direct ordering edge from an earlier event e to a later event f. */
  predicate Edge(e: Event, f: Event) {
    || Feeds(e, f.tid)
    || (e.Release? && f.Acquire? && e.lock == f.lock)
    || (f.Join? && Feeds(e, f.child))
  }

  ghost predicate HB(tr: Trace, i: nat, j: nat)
    requires j < |tr|
    decreases j
  {
    i == j || exists k :: i <= k < j && HB(tr, i, k) && Edge(tr[k], tr[j])
  }

  lemma {:induction false} HBIsForward(tr: Trace, i: nat, j: nat)
    requires j < |tr| && HB(tr, i, j)
    ensures i <= j
  {
  }

  lemma {:induction false} HBTransitive(tr: Trace, i: nat, j: nat, k: nat)
    requires k < |tr| && j < |tr| && HB(tr, i, j) && HB(tr, j, k)
    ensures HB(tr, i, k)
    decreases k
  {
    HBIsForward(tr, i, j);
    if j != k {
      var m :| j <= m < k && HB(tr, j, m) && Edge(tr[m], tr[k]);
      HBTransitive(tr, i, j, m);
    }
  }

  // ---------------------------------------------------------------- vector clocks

  type Clock = map<Tid, nat>

  function At(c: Clock, t: Tid): nat {
    if t in c then c[t] else 0
  }

  function Max(a: nat, b: nat): nat {
    if a < b then b else a
  }

  function Lub(c: Clock, d: Clock): (r: Clock)
    ensures forall t :: At(r, t) == Max(At(c, t), At(d, t))
  {
    map t | t in c.Keys + d.Keys :: Max(At(c, t), At(d, t))
  }

  function Tick(c: Clock, t: Tid): (r: Clock)
    ensures forall u :: At(r, u) == if u == t then At(c, t) + 1 else At(c, u)
  {
    c[t := At(c, t) + 1]
  }

  datatype Sync = Sync(threads: map<Tid, Clock>, locks: map<Lock, Clock>) {
    function Of(t: Tid): Clock {
      if t in threads then threads[t] else map[t := 1]
    }

    function OfLock(l: Lock): Clock {
      if l in locks then locks[l] else map[]
    }

    function Set(t: Tid, c: Clock): (s: Sync)
      ensures forall u :: s.Of(u) == if u == t then c else Of(u)
      ensures s.locks == locks
    {
      this.(threads := threads[t := c])
    }

    function SetLock(l: Lock, c: Clock): (s: Sync)
      ensures forall m :: s.OfLock(m) == if m == l then c else OfLock(m)
      ensures s.threads == threads
    {
      this.(locks := locks[l := c])
    }
  }

  const INITIAL := Sync(map[], map[])

  function SyncStep(s: Sync, e: Event): Sync {
    match e
    case Access(_, _, _) => s
    case Acquire(t, l) => s.Set(t, Lub(s.Of(t), s.OfLock(l)))
    case Release(t, l) =>
      s.SetLock(l, Lub(s.OfLock(l), s.Of(t))).Set(t, Tick(s.Of(t), t))
    case Fork(t, u) =>
      var s' := s.Set(u, Lub(s.Of(u), s.Of(t)));
      s'.Set(t, Tick(s'.Of(t), t))
    case Join(t, u) =>
      var s' := s.Set(t, Lub(s.Of(t), s.Of(u)));
      s'.Set(u, Tick(s'.Of(u), u))
  }

  function SyncAfter(tr: Trace): Sync {
    if tr == [] then INITIAL else SyncStep(SyncAfter(tr[..|tr| - 1]), tr[|tr| - 1])
  }

  /** The clock component of its own thread when event i is about to run. */
  function Epoch(tr: Trace, i: nat): nat
    requires i < |tr|
  {
    At(SyncAfter(tr[..i]).Of(tr[i].tid), tr[i].tid)
  }

  lemma SyncAfterSnoc(tr: Trace, n: nat)
    requires n < |tr|
    ensures SyncAfter(tr[..n + 1]) == SyncStep(SyncAfter(tr[..n]), tr[n])
  {
    assert tr[..n + 1][..n] == tr[..n];
  }

  // ---------------------------------------------------------------- the clocks are exact

  ghost predicate Behind(s: Sync, t: Tid, u: Tid) {
    t != u ==> At(s.Of(t), u) < At(s.Of(u), u)
  }

  ghost predicate LockBehind(s: Sync, l: Lock, u: Tid) {
    At(s.OfLock(l), u) < At(s.Of(u), u)
  }

  /** No thread and no lock has seen the current epoch of another thread. */
  ghost predicate Strict(s: Sync) {
    && (forall t, u {:trigger Behind(s, t, u)} :: Behind(s, t, u))
    && (forall l, u {:trigger LockBehind(s, l, u)} :: LockBehind(s, l, u))
  }

  lemma StrictPair(s: Sync, e: Event, t: Tid, u: Tid)
    requires Strict(s)
    ensures Behind(SyncStep(s, e), t, u)
  {
    assert Behind(s, t, u) && Behind(s, e.tid, u);
    if e.Acquire? {
      assert LockBehind(s, e.lock, u);
    }
    if e.Fork? || e.Join? {
      assert Behind(s, e.child, u);
    }
  }

  lemma StrictLock(s: Sync, e: Event, l: Lock, u: Tid)
    requires Strict(s)
    ensures LockBehind(SyncStep(s, e), l, u)
  {
    assert LockBehind(s, l, u) && Behind(s, e.tid, u);
  }

  lemma StrictStep(s: Sync, e: Event)
    requires Strict(s)
    ensures Strict(SyncStep(s, e))
  {
    forall t, u
      ensures Behind(SyncStep(s, e), t, u)
    {
      StrictPair(s, e, t, u);
    }
    forall l, u
      ensures LockBehind(SyncStep(s, e), l, u)
    {
      StrictLock(s, e, l, u);
    }
  }

  lemma {:induction false} ClocksAreStrict(tr: Trace)
    ensures Strict(SyncAfter(tr))
  {
    if tr != [] {
      ClocksAreStrict(tr[..|tr| - 1]);
      StrictStep(SyncAfter(tr[..|tr| - 1]), tr[|tr| - 1]);
    }
  }

  /** An epoch ep of thread x that has begun in s is visible after e where it was before, and
      wherever e brings it in. */
  lemma SeenAfterStep(s: Sync, e: Event, t: Tid, x: Tid, ep: nat)
    requires Strict(s) && ep <= At(s.Of(x), x)
    ensures ep <= At(SyncStep(s, e).Of(t), x) <==>
              || ep <= At(s.Of(t), x)
              || (Feeds(e, t) && (|| ep <= At(s.Of(e.tid), x)
                                  || (e.Acquire? && ep <= At(s.OfLock(e.lock), x))
                                  || (e.Join? && ep <= At(s.Of(e.child), x))))
  {
    assert Behind(s, t, x);
  }

  lemma LockSeenAfterStep(s: Sync, e: Event, l: Lock, x: Tid, ep: nat)
    ensures ep <= At(SyncStep(s, e).OfLock(l), x) <==>
              || ep <= At(s.OfLock(l), x)
              || (e.Release? && e.lock == l && ep <= At(s.Of(e.tid), x))
  {
  }

  /** Within the first n events, event i is ordered before whatever thread t does next. */
  ghost predicate Known(tr: Trace, n: nat, i: nat, t: Tid)
    requires n <= |tr|
  {
    exists k :: i <= k < n && HB(tr, i, k) && Feeds(tr[k], t)
  }

  ghost predicate LockKnown(tr: Trace, n: nat, i: nat, l: Lock)
    requires n <= |tr|
  {
    exists k :: i <= k < n && HB(tr, i, k) && tr[k].Release? && tr[k].lock == l
  }

  ghost predicate ExactFor(tr: Trace, n: nat, i: nat, t: Tid)
    requires i < n <= |tr|
  {
    Epoch(tr, i) <= At(SyncAfter(tr[..n]).Of(t), tr[i].tid) <==> Known(tr, n, i, t)
  }

  ghost predicate ExactForLock(tr: Trace, n: nat, i: nat, l: Lock)
    requires i < n <= |tr|
  {
    Epoch(tr, i) <= At(SyncAfter(tr[..n]).OfLock(l), tr[i].tid) <==> LockKnown(tr, n, i, l)
  }

  ghost predicate Exact(tr: Trace, n: nat, i: nat)
    requires i < n <= |tr|
  {
    && (forall t {:trigger ExactFor(tr, n, i, t)} :: ExactFor(tr, n, i, t))
    && (forall l {:trigger ExactForLock(tr, n, i, l)} :: ExactForLock(tr, n, i, l))
  }

  lemma KnownStep(tr: Trace, n: nat, i: nat, t: Tid)
    requires i <= n < |tr|
    ensures Known(tr, n + 1, i, t) <==> Known(tr, n, i, t) || (HB(tr, i, n) && Feeds(tr[n], t))
  {
    if Known(tr, n, i, t) {
      var k :| i <= k < n && HB(tr, i, k) && Feeds(tr[k], t);
      assert k < n + 1;
    }
    if Known(tr, n + 1, i, t) {
      var k :| i <= k < n + 1 && HB(tr, i, k) && Feeds(tr[k], t);
      assert k < n || k == n;
    }
  }

  lemma LockKnownStep(tr: Trace, n: nat, i: nat, l: Lock)
    requires i <= n < |tr|
    ensures LockKnown(tr, n + 1, i, l) <==>
              LockKnown(tr, n, i, l) || (HB(tr, i, n) && tr[n].Release? && tr[n].lock == l)
  {
    if LockKnown(tr, n, i, l) {
      var k :| i <= k < n && HB(tr, i, k) && tr[k].Release? && tr[k].lock == l;
      assert k < n + 1;
    }
    if LockKnown(tr, n + 1, i, l) {
      var k :| i <= k < n + 1 && HB(tr, i, k) && tr[k].Release? && tr[k].lock == l;
      assert k < n || k == n;
    }
  }

  /** What is ordered before event n is what its in-edges bring in. */
  ghost predicate Incoming(tr: Trace, n: nat, i: nat)
    requires n < |tr|
  {
    || Known(tr, n, i, tr[n].tid)
    || (tr[n].Acquire? && LockKnown(tr, n, i, tr[n].lock))
    || (tr[n].Join? && Known(tr, n, i, tr[n].child))
  }

  lemma IncomingIsHB(tr: Trace, n: nat, i: nat)
    requires i < n < |tr|
    ensures HB(tr, i, n) <==> Incoming(tr, n, i)
  {
    if HB(tr, i, n) {
      var k :| i <= k < n && HB(tr, i, k) && Edge(tr[k], tr[n]);
    }
    if Known(tr, n, i, tr[n].tid) {
      var k :| i <= k < n && HB(tr, i, k) && Feeds(tr[k], tr[n].tid);
      assert Edge(tr[k], tr[n]);
    }
    if tr[n].Acquire? && LockKnown(tr, n, i, tr[n].lock) {
      var k :| i <= k < n && HB(tr, i, k) && tr[k].Release? && tr[k].lock == tr[n].lock;
      assert Edge(tr[k], tr[n]);
    }
    if tr[n].Join? && Known(tr, n, i, tr[n].child) {
      var k :| i <= k < n && HB(tr, i, k) && Feeds(tr[k], tr[n].child);
      assert Edge(tr[k], tr[n]);
    }
  }

  lemma ExactOldFor(tr: Trace, n: nat, i: nat, t: Tid)
    requires i < n < |tr| && Exact(tr, n, i)
    ensures ExactFor(tr, n + 1, i, t)
  {
    var e := tr[n];
    SyncAfterSnoc(tr, n);
    ClocksAreStrict(tr[..n]);
    IncomingIsHB(tr, n, i);
    assert ExactFor(tr, n, i, t) && ExactFor(tr, n, i, e.tid) && ExactFor(tr, n, i, tr[i].tid);
    assert e.Acquire? ==> ExactForLock(tr, n, i, e.lock);
    assert e.Join? ==> ExactFor(tr, n, i, e.child);
    assert HB(tr, i, i);
    assert Known(tr, n, i, tr[i].tid);
    KnownStep(tr, n, i, t);
    SeenAfterStep(SyncAfter(tr[..n]), e, t, tr[i].tid, Epoch(tr, i));
  }

  lemma ExactOld(tr: Trace, n: nat, i: nat)
    requires i < n < |tr| && Exact(tr, n, i)
    ensures Exact(tr, n + 1, i)
  {
    var m := n + 1;
    forall t
      ensures ExactFor(tr, m, i, t)
    {
      ExactOldFor(tr, n, i, t);
    }
    forall l
      ensures ExactForLock(tr, m, i, l)
    {
      SyncAfterSnoc(tr, n);
      IncomingIsHB(tr, n, i);
      assert ExactForLock(tr, n, i, l) && ExactFor(tr, n + 1, i, tr[n].tid) && ExactFor(tr, n, i, tr[n].tid);
      LockKnownStep(tr, n, i, l);
      LockSeenAfterStep(SyncAfter(tr[..n]), tr[n], l, tr[i].tid, Epoch(tr, i));
    }
  }

  lemma ExactNewFor(tr: Trace, n: nat, t: Tid)
    requires n < |tr|
    ensures ExactFor(tr, n + 1, n, t)
  {
    var e, s := tr[n], SyncAfter(tr[..n]);
    SyncAfterSnoc(tr, n);
    ClocksAreStrict(tr[..n]);
    assert HB(tr, n, n);
    KnownStep(tr, n, n, t);
    SeenAfterStep(s, e, t, e.tid, Epoch(tr, n));
    assert Behind(s, t, e.tid);
    assert e.Join? ==> Behind(s, e.child, e.tid);
    assert !Known(tr, n, n, t);
  }

  lemma ExactNew(tr: Trace, n: nat)
    requires n < |tr|
    ensures Exact(tr, n + 1, n)
  {
    var m := n + 1;
    forall t
      ensures ExactFor(tr, m, n, t)
    {
      ExactNewFor(tr, n, t);
    }
    forall l
      ensures ExactForLock(tr, m, n, l)
    {
      SyncAfterSnoc(tr, n);
      ClocksAreStrict(tr[..n]);
      assert HB(tr, n, n) && LockBehind(SyncAfter(tr[..n]), l, tr[n].tid);
      LockKnownStep(tr, n, n, l);
      LockSeenAfterStep(SyncAfter(tr[..n]), tr[n], l, tr[n].tid, Epoch(tr, n));
      assert !LockKnown(tr, n, n, l);
    }
  }

  lemma {:induction false} ExactUpTo(tr: Trace, n: nat, i: nat)
    requires i < n <= |tr|
    ensures Exact(tr, n, i)
    decreases n
  {
    if i == n - 1 {
      ExactNew(tr, i);
    } else {
      ExactUpTo(tr, n - 1, i);
      ExactOld(tr, n - 1, i);
    }
  }

  /** The vector clocks decide happens-before: an earlier event i is ordered before event j
      exactly when j's thread has seen the epoch in which i ran. */
  lemma ClocksAreExact(tr: Trace, i: nat, j: nat)
    requires i < j < |tr|
    ensures HB(tr, i, j) <==> Epoch(tr, i) <= At(SyncAfter(tr[..j + 1]).Of(tr[j].tid), tr[i].tid)
  {
    ExactUpTo(tr, j + 1, i);
    assert ExactFor(tr, j + 1, i, tr[j].tid);
    KnownStep(tr, j, i, tr[j].tid);
    assert HB(tr, i, j) ==> Feeds(tr[j], tr[j].tid);
    IncomingIsHB(tr, j, i);
  }
}
