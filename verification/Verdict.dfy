/**
The verdict of the ideal detector on a whole trace, and the two ways in which the passes may change
the instrumented accesses without changing it: accesses may be regrouped inside a segment of a
thread that no synchronisation touches, and accesses that are ordered with everything they could
race with may be dropped.
*/
module Verdict {
  import opened HappensBefore

  ghost predicate AccessAt(tr: Trace, i: nat, x: Byte, t: Tid, w: bool) {
    i < |tr| && tr[i].Access? && tr[i].tid == t && tr[i].write == w && x in tr[i].bytes
  }

  ghost predicate Unordered(tr: Trace, i: nat, j: nat)
    requires i < |tr| && j < |tr|
  {
    !HB(tr, i, j) && !HB(tr, j, i)
  }

  ghost predicate RacePair(tr: Trace, i: nat, j: nat, x: Byte, t: Tid, wt: bool, u: Tid, wu: bool) {
    AccessAt(tr, i, x, t, wt) && AccessAt(tr, j, x, u, wu) && Unordered(tr, i, j)
  }

  /** Byte x is racy between an access of thread t and one of thread u, at least one a write. */
  ghost predicate Race(tr: Trace, x: Byte, t: Tid, wt: bool, u: Tid, wu: bool) {
    t != u && (wt || wu) && exists i: nat, j: nat :: RacePair(tr, i, j, x, t, wt, u, wu)
  }

  ghost predicate SameVerdict(tr: Trace, tr': Trace) {
    forall x, t, wt, u, wu :: Race(tr, x, t, wt, u, wu) <==> Race(tr', x, t, wt, u, wu)
  }

  // ---------------------------------------------------------------- segments

  /** Whether e may change the clock of thread t. */
  predicate Touches(e: Event, t: Tid) {
    !e.Access? && (e.tid == t || ((e.Fork? || e.Join?) && e.child == t))
  }

  /** The number of the segment that thread t is in after tr. */
  function Segment(tr: Trace, t: Tid): nat {
    if tr == [] then 0
    else Segment(tr[..|tr| - 1], t) + if Touches(tr[|tr| - 1], t) then 1 else 0
  }

  function SyncOnly(tr: Trace): Trace {
    if tr == [] then []
    else SyncOnly(tr[..|tr| - 1]) + if tr[|tr| - 1].Access? then [] else [tr[|tr| - 1]]
  }

  ghost predicate AccessIn(tr: Trace, i: nat, x: Byte, t: Tid, w: bool, k: nat) {
    AccessAt(tr, i, x, t, w) && Segment(tr[..i], t) == k
  }

  /** In its k-th segment thread t accesses byte x. */
  ghost predicate Covers(tr: Trace, x: Byte, t: Tid, w: bool, k: nat) {
    exists i: nat :: AccessIn(tr, i, x, t, w, k)
  }

  /** Same synchronisation, and in every segment of every thread the same bytes. */
  ghost predicate Regrouped(tr: Trace, tr': Trace) {
    && SyncOnly(tr) == SyncOnly(tr')
    && forall x, t, w, k :: Covers(tr, x, t, w, k) <==> Covers(tr', x, t, w, k)
  }

  lemma {:induction false} SyncOnlyDecides(tr: Trace, t: Tid)
    ensures SyncAfter(SyncOnly(tr)) == SyncAfter(tr)
    ensures Segment(SyncOnly(tr), t) == Segment(tr, t)
  {
    if tr != [] {
      var pre, e := tr[..|tr| - 1], tr[|tr| - 1];
      SyncOnlyDecides(pre, t);
      if !e.Access? {
        assert SyncOnly(tr)[..|SyncOnly(tr)| - 1] == SyncOnly(pre);
      } else {
        assert SyncOnly(tr) == SyncOnly(pre);
      }
    }
  }

  lemma {:induction false} SyncOnlyPrefix(tr: Trace, n: nat)
    requires n <= |tr|
    ensures |SyncOnly(tr[..n])| <= |SyncOnly(tr)|
    ensures SyncOnly(tr[..n]) == SyncOnly(tr)[..|SyncOnly(tr[..n])|]
    decreases |tr| - n
  {
    if n == |tr| {
      assert tr[..n] == tr;
    } else {
      SyncOnlyPrefix(tr, n + 1);
      assert tr[..n + 1][..n] == tr[..n];
    }
  }

  lemma {:induction false} SegmentMonotone(s: Trace, m: nat, n: nat, t: Tid)
    requires m <= n <= |s|
    ensures Segment(s[..m], t) <= Segment(s[..n], t)
    decreases n
  {
    if m < n {
      SegmentMonotone(s, m, n - 1, t);
      assert s[..n][..n - 1] == s[..n - 1];
    }
  }

  /** A thread's clock depends on its segment alone. */
  lemma {:induction false} ClockOfSegment(s: Trace, m: nat, n: nat, t: Tid)
    requires m <= n <= |s| && Segment(s[..m], t) == Segment(s[..n], t)
    ensures SyncAfter(s[..m]).Of(t) == SyncAfter(s[..n]).Of(t)
    decreases n
  {
    if m < n {
      assert s[..n][..n - 1] == s[..n - 1];
      SegmentMonotone(s, m, n - 1, t);
      ClockOfSegment(s, m, n - 1, t);
      SyncAfterSnoc(s, n - 1);
    }
  }

  lemma SameSegmentSameClock(tr: Trace, i: nat, tr': Trace, i': nat, t: Tid)
    requires SyncOnly(tr) == SyncOnly(tr') && i <= |tr| && i' <= |tr'|
    requires Segment(tr[..i], t) == Segment(tr'[..i'], t)
    ensures SyncAfter(tr[..i]).Of(t) == SyncAfter(tr'[..i']).Of(t)
  {
    var s := SyncOnly(tr);
    var m, m' := |SyncOnly(tr[..i])|, |SyncOnly(tr'[..i'])|;
    SyncOnlyPrefix(tr, i);
    SyncOnlyPrefix(tr', i');
    SyncOnlyDecides(tr[..i], t);
    SyncOnlyDecides(tr'[..i'], t);
    if m <= m' {
      ClockOfSegment(s, m, m', t);
    } else {
      ClockOfSegment(s, m', m, t);
    }
  }

  lemma OwnClockStep(s: Sync, e: Event, t: Tid)
    ensures At(s.Of(t), t) <= At(SyncStep(s, e).Of(t), t)
  {
  }

  lemma {:induction false} OwnClockGrows(tr: Trace, m: nat, n: nat, t: Tid)
    requires m <= n <= |tr|
    ensures At(SyncAfter(tr[..m]).Of(t), t) <= At(SyncAfter(tr[..n]).Of(t), t)
    decreases n
  {
    if m < n {
      OwnClockGrows(tr, m, n - 1, t);
      SyncAfterSnoc(tr, n - 1);
      OwnClockStep(SyncAfter(tr[..n - 1]), tr[n - 1], t);
    }
  }

  ghost predicate ClocksConcurrent(c: Clock, t: Tid, d: Clock, u: Tid) {
    !(At(c, t) <= At(d, t)) && !(At(d, u) <= At(c, u))
  }

  /** Whether two accesses are unordered shows in the two clocks, whichever ran first. */
  lemma UnorderedIsConcurrent(tr: Trace, i: nat, j: nat)
    requires i < |tr| && j < |tr| && tr[i].Access? && tr[j].Access? && tr[i].tid != tr[j].tid
    ensures Unordered(tr, i, j) <==> ClocksConcurrent(SyncAfter(tr[..i]).Of(tr[i].tid), tr[i].tid,
                                                      SyncAfter(tr[..j]).Of(tr[j].tid), tr[j].tid)
  {
    if i < j {
      EarlierIsConcurrent(tr, i, j);
    } else {
      EarlierIsConcurrent(tr, j, i);
    }
  }

  lemma EarlierIsConcurrent(tr: Trace, i: nat, j: nat)
    requires i < j < |tr| && tr[i].Access? && tr[j].Access? && tr[i].tid != tr[j].tid
    ensures Unordered(tr, i, j) <==> ClocksConcurrent(SyncAfter(tr[..i]).Of(tr[i].tid), tr[i].tid,
                                                      SyncAfter(tr[..j]).Of(tr[j].tid), tr[j].tid)
  {
    var t, u := tr[i].tid, tr[j].tid;
    if HB(tr, j, i) {
      HBIsForward(tr, j, i);
      assert false;
    }
    ClocksAreExact(tr, i, j);
    SyncAfterSnoc(tr, j);
    ClocksAreStrict(tr[..i]);
    assert Behind(SyncAfter(tr[..i]), t, u);
    assert At(SyncAfter(tr[..i]).Of(t), u) < At(SyncAfter(tr[..i]).Of(u), u);
    OwnClockGrows(tr, i, j, u);
  }

  lemma RegroupedRace(tr: Trace, tr': Trace, x: Byte, t: Tid, wt: bool, u: Tid, wu: bool)
    requires Regrouped(tr, tr') && Race(tr, x, t, wt, u, wu)
    ensures Race(tr', x, t, wt, u, wu)
  {
    var i: nat, j: nat :| RacePair(tr, i, j, x, t, wt, u, wu);
    var k, l := Segment(tr[..i], t), Segment(tr[..j], u);
    assert AccessIn(tr, i, x, t, wt, k) && AccessIn(tr, j, x, u, wu, l);
    assert Covers(tr, x, t, wt, k) && Covers(tr, x, u, wu, l);
    var i': nat :| AccessIn(tr', i', x, t, wt, k);
    var j': nat :| AccessIn(tr', j', x, u, wu, l);
    SameSegmentSameClock(tr, i, tr', i', t);
    SameSegmentSameClock(tr, j, tr', j', u);
    UnorderedIsConcurrent(tr, i, j);
    UnorderedIsConcurrent(tr', i', j');
    assert RacePair(tr', i', j', x, t, wt, u, wu);
  }

  /** Regrouping accesses inside segments changes no verdict, whatever the interleaving. */
  lemma RegroupingKeepsVerdict(tr: Trace, tr': Trace)
    requires Regrouped(tr, tr')
    ensures SameVerdict(tr, tr')
  {
    forall x, t, wt, u, wu
      ensures Race(tr, x, t, wt, u, wu) <==> Race(tr', x, t, wt, u, wu)
    {
      if Race(tr, x, t, wt, u, wu) {
        RegroupedRace(tr, tr', x, t, wt, u, wu);
      }
      if Race(tr', x, t, wt, u, wu) {
        RegroupedRace(tr', tr, x, t, wt, u, wu);
      }
    }
  }

  // ---------------------------------------------------------------- dropping accesses

  /** What remains of a trace when the accesses at the given indices are not reported. */
  function Dropped(tr: Trace, drop: set<nat>): Trace {
    if tr == [] then []
    else Dropped(tr[..|tr| - 1], drop) +
         if tr[|tr| - 1].Access? && |tr| - 1 in drop then [] else [tr[|tr| - 1]]
  }

  /** Every dropped access is ordered with every access of another thread that it conflicts with. */
  ghost predicate DropIsHarmless(tr: Trace, drop: set<nat>) {
    forall i: nat, j: nat, x, t, wt, u, wu :: RacePair(tr, i, j, x, t, wt, u, wu) && t != u && (wt || wu) ==>
      i !in drop && j !in drop
  }

  lemma {:induction false} DroppedSync(tr: Trace, drop: set<nat>)
    ensures SyncOnly(Dropped(tr, drop)) == SyncOnly(tr)
  {
    if tr != [] {
      DroppedSync(tr[..|tr| - 1], drop);
      var d, e := Dropped(tr[..|tr| - 1], drop), tr[|tr| - 1];
      assert (d + [e])[..|d|] == d;
      assert d + [] == d;
    }
  }

  lemma {:induction false} DroppedSegment(tr: Trace, drop: set<nat>, t: Tid)
    ensures Segment(Dropped(tr, drop), t) == Segment(tr, t)
  {
    DroppedSync(tr, drop);
    SyncOnlyDecides(tr, t);
    SyncOnlyDecides(Dropped(tr, drop), t);
  }

  /** Where event i of the trace ends up when it is not dropped. */
  function Place(tr: Trace, drop: set<nat>, i: nat): nat
    requires i <= |tr|
  {
    |Dropped(tr[..i], drop)|
  }

  lemma {:induction false} DroppedPrefix(tr: Trace, drop: set<nat>, i: nat)
    requires i <= |tr|
    ensures Place(tr, drop, i) <= |Dropped(tr, drop)|
    ensures Dropped(tr, drop)[..Place(tr, drop, i)] == Dropped(tr[..i], drop)
    decreases |tr| - i
  {
    if i == |tr| {
      assert tr[..i] == tr;
    } else {
      DroppedPrefix(tr, drop, i + 1);
      assert tr[..i + 1][..i] == tr[..i];
    }
  }

  lemma KeptAt(tr: Trace, drop: set<nat>, i: nat)
    requires i < |tr| && !(tr[i].Access? && i in drop)
    ensures Place(tr, drop, i) < |Dropped(tr, drop)| && Dropped(tr, drop)[Place(tr, drop, i)] == tr[i]
  {
    DroppedPrefix(tr, drop, i + 1);
    assert tr[..i + 1][..i] == tr[..i];
    assert Dropped(tr[..i + 1], drop) == Dropped(tr[..i], drop) + [tr[i]];
  }

  lemma {:induction false} Origin(tr: Trace, drop: set<nat>, p: nat) returns (i: nat)
    requires p < |Dropped(tr, drop)|
    ensures i < |tr| && !(tr[i].Access? && i in drop) && Place(tr, drop, i) == p
  {
    var n := |tr| - 1;
    if p < |Dropped(tr[..n], drop)| {
      i := Origin(tr[..n], drop, p);
      assert tr[..n][..i] == tr[..i];
    } else {
      i := n;
    }
  }

  lemma DroppedUnordered(tr: Trace, drop: set<nat>, i: nat, j: nat)
    requires i < |tr| && j < |tr| && tr[i].Access? && tr[j].Access? && i !in drop && j !in drop
    requires tr[i].tid != tr[j].tid
    ensures Place(tr, drop, i) < |Dropped(tr, drop)| && Place(tr, drop, j) < |Dropped(tr, drop)|
    ensures Dropped(tr, drop)[Place(tr, drop, i)] == tr[i] && Dropped(tr, drop)[Place(tr, drop, j)] == tr[j]
    ensures Unordered(Dropped(tr, drop), Place(tr, drop, i), Place(tr, drop, j)) <==> Unordered(tr, i, j)
  {
    var d, i', j' := Dropped(tr, drop), Place(tr, drop, i), Place(tr, drop, j);
    KeptAt(tr, drop, i);
    KeptAt(tr, drop, j);
    DroppedPrefix(tr, drop, i);
    DroppedPrefix(tr, drop, j);
    DroppedSegment(tr[..i], drop, tr[i].tid);
    DroppedSegment(tr[..j], drop, tr[j].tid);
    DroppedSync(tr, drop);
    SameSegmentSameClock(tr, i, d, i', tr[i].tid);
    SameSegmentSameClock(tr, j, d, j', tr[j].tid);
    UnorderedIsConcurrent(tr, i, j);
    UnorderedIsConcurrent(d, i', j');
  }

  /** Races of the remaining accesses are the same. */
  lemma KeptRace(tr: Trace, drop: set<nat>, i: nat, j: nat, x: Byte, t: Tid, wt: bool, u: Tid, wu: bool)
    requires RacePair(tr, i, j, x, t, wt, u, wu) && t != u && (wt || wu) && i !in drop && j !in drop
    ensures Race(Dropped(tr, drop), x, t, wt, u, wu)
  {
    DroppedUnordered(tr, drop, i, j);
    assert RacePair(Dropped(tr, drop), Place(tr, drop, i), Place(tr, drop, j), x, t, wt, u, wu);
  }

  /** Dropping accesses adds no race. */
  lemma NoNewRace(tr: Trace, drop: set<nat>, x: Byte, t: Tid, wt: bool, u: Tid, wu: bool)
    requires Race(Dropped(tr, drop), x, t, wt, u, wu)
    ensures Race(tr, x, t, wt, u, wu)
  {
    var p: nat, q: nat :| RacePair(Dropped(tr, drop), p, q, x, t, wt, u, wu);
    var i := Origin(tr, drop, p);
    var j := Origin(tr, drop, q);
    KeptAt(tr, drop, i);
    KeptAt(tr, drop, j);
    DroppedUnordered(tr, drop, i, j);
    assert RacePair(tr, i, j, x, t, wt, u, wu);
  }

  /** Dropping accesses that are part of no race loses no race, and adds none. */
  lemma DroppingKeepsVerdict(tr: Trace, drop: set<nat>)
    requires DropIsHarmless(tr, drop)
    ensures SameVerdict(tr, Dropped(tr, drop))
  {
    forall x, t, wt, u, wu
      ensures Race(tr, x, t, wt, u, wu) <==> Race(Dropped(tr, drop), x, t, wt, u, wu)
    {
      if Race(tr, x, t, wt, u, wu) {
        var i: nat, j: nat :| RacePair(tr, i, j, x, t, wt, u, wu);
        KeptRace(tr, drop, i, j, x, t, wt, u, wu);
      }
      if Race(Dropped(tr, drop), x, t, wt, u, wu) {
        NoNewRace(tr, drop, x, t, wt, u, wu);
      }
    }
  }

  // ---------------------------------------------------------------- dropping what is reported again

  /** After e, thread t may be ordered behind more events of other threads. */
  predicate Receives(e: Event, t: Tid) {
    (e.tid == t && (e.Acquire? || e.Join?)) || (e.Fork? && e.child == t)
  }

  /** Access k repeats access i later, and the thread has received nothing in between. */
  ghost predicate RepeatedBy(tr: Trace, i: nat, k: nat) {
    && i < k < |tr| && tr[i].Access? && tr[k].Access? && tr[i].tid == tr[k].tid && tr[i].write == tr[k].write
    && tr[i].bytes <= tr[k].bytes && forall m :: i < m < k ==> !Receives(tr[m], tr[k].tid)
  }

  /** Every dropped access is repeated by one that stays. */
  ghost predicate DropIsRepeated(tr: Trace, drop: set<nat>) {
    forall i :: i in drop && i < |tr| && tr[i].Access? ==> exists k :: k !in drop && RepeatedBy(tr, i, k)
  }

  /** What is before a later event of a thread that received nothing is before the earlier one. */
  lemma {:induction false} NothingReceived(tr: Trace, j: nat, i: nat, k: nat)
    requires i < k < |tr| && tr[i].tid == tr[k].tid && j < |tr| && tr[j].tid != tr[k].tid
    requires forall m :: i < m <= k ==> !Receives(tr[m], tr[k].tid)
    requires HB(tr, j, k)
    ensures HB(tr, j, i)
    decreases k
  {
    var m :| j <= m < k && HB(tr, j, m) && Edge(tr[m], tr[k]);
    if m > i {
      NothingReceived(tr, j, i, m);
    } else if m < i {
      assert Edge(tr[m], tr[i]);
    }
  }

  lemma RepeatIsUnordered(tr: Trace, i: nat, k: nat, j: nat)
    requires RepeatedBy(tr, i, k) && j < |tr| && tr[j].tid != tr[i].tid && Unordered(tr, i, j)
    ensures Unordered(tr, k, j)
  {
    assert HB(tr, i, i) && Edge(tr[i], tr[k]);
    if HB(tr, k, j) {
      HBTransitive(tr, i, k, j);
    }
    if HB(tr, j, k) {
      NothingReceived(tr, j, i, k);
    }
  }

  /** An access that races with something has a repetition among the remaining ones that does too. */
  lemma RacingRepeat(tr: Trace, drop: set<nat>, i: nat, j: nat, x: Byte, t: Tid, wt: bool, u: Tid, wu: bool) returns (k: nat)
    requires DropIsRepeated(tr, drop) && RacePair(tr, i, j, x, t, wt, u, wu) && t != u
    ensures k !in drop && RacePair(tr, k, j, x, t, wt, u, wu)
  {
    k := i;
    if i in drop {
      k :| k !in drop && RepeatedBy(tr, i, k);
      RepeatIsUnordered(tr, i, k, j);
    }
  }

  /** Dropping accesses that the thread repeats before it receives anything keeps every verdict. */
  lemma DroppingRepeatedKeepsVerdict(tr: Trace, drop: set<nat>)
    requires DropIsRepeated(tr, drop)
    ensures SameVerdict(tr, Dropped(tr, drop))
  {
    forall x, t, wt, u, wu
      ensures Race(tr, x, t, wt, u, wu) <==> Race(Dropped(tr, drop), x, t, wt, u, wu)
    {
      if Race(tr, x, t, wt, u, wu) {
        var i: nat, j: nat :| RacePair(tr, i, j, x, t, wt, u, wu);
        var k := RacingRepeat(tr, drop, i, j, x, t, wt, u, wu);
        assert RacePair(tr, j, k, x, u, wu, t, wt);
        var l := RacingRepeat(tr, drop, j, k, x, u, wu, t, wt);
        assert RacePair(tr, k, l, x, t, wt, u, wu);
        KeptRace(tr, drop, k, l, x, t, wt, u, wu);
      }
      if Race(Dropped(tr, drop), x, t, wt, u, wu) {
        NoNewRace(tr, drop, x, t, wt, u, wu);
      }
    }
  }

  /** A part of the trace in which nothing is dropped stays as it is. */
  lemma {:induction false} DroppedKeeps(a: Trace, b: Trace, drop: set<nat>)
    requires forall i :: i in drop ==> !(|a| <= i < |a| + |b|)
    ensures Dropped(a + b, drop) == Dropped(a, drop) + b
  {
    if b == [] {
      assert a + b == a;
    } else {
      DroppedKeeps(a, b[..|b| - 1], drop);
      assert (a + b)[..|a + b| - 1] == a + b[..|b| - 1];
    }
  }
}
