/**
Rewriting the accesses of straight-line code.  `View` is what one thread contributes to a trace,
so replacing one thread's block by another is stated on views and holds for every interleaving.
*/
module Segments {
  import opened HappensBefore
  import opened Verdict

  predicate Concerns(e: Event, t: Tid) {
    if e.Access? then e.tid == t else Touches(e, t)
  }

  /** The accesses of thread t and the synchronisation that touches it. */
  function View(tr: Trace, t: Tid): Trace {
    if tr == [] then []
    else View(tr[..|tr| - 1], t) + if Concerns(tr[|tr| - 1], t) then [tr[|tr| - 1]] else []
  }

  lemma CoversSnoc(tr: Trace, e: Event, x: Byte, t: Tid, w: bool, k: nat)
    ensures Covers(tr + [e], x, t, w, k) <==>
              || Covers(tr, x, t, w, k)
              || (e.Access? && e.tid == t && e.write == w && x in e.bytes && Segment(tr, t) == k)
  {
    var n := |tr|;
    forall i: nat | i < n
      ensures AccessIn(tr, i, x, t, w, k) <==> AccessIn(tr + [e], i, x, t, w, k)
    {
      assert (tr + [e])[..i] == tr[..i];
    }
    assert (tr + [e])[..n] == tr;
    assert AccessIn(tr + [e], n, x, t, w, k) <==>
             e.Access? && e.tid == t && e.write == w && x in e.bytes && Segment(tr, t) == k;
    if Covers(tr + [e], x, t, w, k) {
      var i: nat :| AccessIn(tr + [e], i, x, t, w, k);
      assert i < n ==> AccessIn(tr, i, x, t, w, k);
    }
    if Covers(tr, x, t, w, k) {
      var i: nat :| AccessIn(tr, i, x, t, w, k);
      assert AccessIn(tr + [e], i, x, t, w, k);
    }
  }

  /** A thread's segments and what they cover can be read off its view. */
  lemma {:induction false} ViewDecides(tr: Trace, x: Byte, t: Tid, w: bool, k: nat)
    ensures Segment(View(tr, t), t) == Segment(tr, t)
    ensures Covers(View(tr, t), x, t, w, k) <==> Covers(tr, x, t, w, k)
  {
    if tr != [] {
      var pre, e := tr[..|tr| - 1], tr[|tr| - 1];
      ViewDecides(pre, x, t, w, k);
      assert tr == pre + [e];
      CoversSnoc(pre, e, x, t, w, k);
      if Concerns(e, t) {
        CoversSnoc(View(pre, t), e, x, t, w, k);
        assert View(tr, t)[..|View(tr, t)| - 1] == View(pre, t);
      } else {
        assert View(tr, t) == View(pre, t);
      }
    }
  }

  lemma {:induction false} SegmentOfConcat(a: Trace, b: Trace, t: Tid)
    ensures Segment(a + b, t) == Segment(a, t) + Segment(b, t)
  {
    if b == [] {
      assert a + b == a;
    } else {
      SegmentOfConcat(a, b[..|b| - 1], t);
      assert (a + b)[..|a + b| - 1] == a + b[..|b| - 1];
    }
  }

  lemma {:induction false} CoversConcat(a: Trace, b: Trace, x: Byte, t: Tid, w: bool, k: nat)
    ensures Covers(a + b, x, t, w, k) <==>
              || Covers(a, x, t, w, k)
              || (Segment(a, t) <= k && Covers(b, x, t, w, k - Segment(a, t)))
  {
    if b == [] {
      assert a + b == a;
    } else {
      var pre, e := b[..|b| - 1], b[|b| - 1];
      CoversConcat(a, pre, x, t, w, k);
      SegmentOfConcat(a, pre, t);
      assert a + b == (a + pre) + [e] && b == pre + [e];
      CoversSnoc(a + pre, e, x, t, w, k);
      if Segment(a, t) <= k {
        CoversSnoc(pre, e, x, t, w, k - Segment(a, t));
      }
    }
  }

  // ---------------------------------------------------------------- replacing pieces of a view

  /** Accesses of thread t only. */
  predicate AccessesOf(tr: Trace, t: Tid) {
    forall e :: e in tr ==> e.Access? && e.tid == t
  }

  ghost predicate Touched(tr: Trace, w: bool, x: Byte) {
    exists e :: e in tr && e.Access? && e.write == w && x in e.bytes
  }

  ghost predicate SameBytes(a: Trace, b: Trace) {
    forall w, x :: Touched(a, w, x) <==> Touched(b, w, x)
  }

  /** What one piece of a thread's code did, and what its replacement does. */
  datatype Piece = Piece(before: Trace, after: Trace)

  ghost predicate Replaceable(p: Piece, t: Tid) {
    p.before == p.after || (AccessesOf(p.before, t) && AccessesOf(p.after, t) && SameBytes(p.before, p.after))
  }

  function Before(ps: seq<Piece>): Trace {
    if ps == [] then [] else Before(ps[..|ps| - 1]) + ps[|ps| - 1].before
  }

  function After(ps: seq<Piece>): Trace {
    if ps == [] then [] else After(ps[..|ps| - 1]) + ps[|ps| - 1].after
  }

  lemma {:induction false} AccessesStayInSegment(tr: Trace, x: Byte, t: Tid, w: bool, k: nat)
    requires AccessesOf(tr, t)
    ensures Segment(tr, t) == 0
    ensures Covers(tr, x, t, w, k) <==> k == 0 && Touched(tr, w, x)
  {
    if tr != [] {
      var pre, e := tr[..|tr| - 1], tr[|tr| - 1];
      assert forall f :: f in pre ==> f in tr;
      assert e in tr;
      AccessesStayInSegment(pre, x, t, w, k);
      assert tr == pre + [e];
      CoversSnoc(pre, e, x, t, w, k);
      assert Touched(tr, w, x) <==> Touched(pre, w, x) || (e.write == w && x in e.bytes) by {
        assert forall f :: f in tr <==> f in pre || f == e;
      }
    }
  }

  lemma {:induction false} PiecesCoverTheSame(ps: seq<Piece>, x: Byte, t: Tid, w: bool, k: nat)
    requires forall p :: p in ps ==> Replaceable(p, t)
    ensures Segment(Before(ps), t) == Segment(After(ps), t)
    ensures Covers(Before(ps), x, t, w, k) <==> Covers(After(ps), x, t, w, k)
  {
    if ps != [] {
      var pre, p := ps[..|ps| - 1], ps[|ps| - 1];
      assert p in ps && forall q :: q in pre ==> q in ps;
      PiecesCoverTheSame(pre, x, t, w, k);
      SegmentOfConcat(Before(pre), p.before, t);
      SegmentOfConcat(After(pre), p.after, t);
      CoversConcat(Before(pre), p.before, x, t, w, k);
      CoversConcat(After(pre), p.after, x, t, w, k);
      if p.before != p.after {
        AccessesStayInSegment(p.before, x, t, w, 0);
        AccessesStayInSegment(p.after, x, t, w, 0);
        var n := Segment(Before(pre), t);
        if n <= k {
          AccessesStayInSegment(p.before, x, t, w, k - n);
          AccessesStayInSegment(p.after, x, t, w, k - n);
        }
      }
    }
  }

  /** Each thread's view is cut into pieces, and every piece that changes consists of accesses and
      keeps their bytes. */
  ghost predicate Rewritten(tr: Trace, tr': Trace, cut: Tid -> seq<Piece>) {
    && SyncOnly(tr) == SyncOnly(tr')
    && forall t :: View(tr, t) == Before(cut(t)) && View(tr', t) == After(cut(t)) &&
                   forall p :: p in cut(t) ==> Replaceable(p, t)
  }

  /** Any number of threads may run rewritten blocks, any number of times, under any interleaving
      that orders the synchronisation in the same way: the races reported are the same. */
  lemma RewritingKeepsVerdict(tr: Trace, tr': Trace, cut: Tid -> seq<Piece>)
    requires Rewritten(tr, tr', cut)
    ensures SameVerdict(tr, tr')
  {
    forall x, t, w, k
      ensures Covers(tr, x, t, w, k) <==> Covers(tr', x, t, w, k)
    {
      ViewDecides(tr, x, t, w, k);
      ViewDecides(tr', x, t, w, k);
      PiecesCoverTheSame(cut(t), x, t, w, k);
    }
    RegroupingKeepsVerdict(tr, tr');
  }
}
