/**
Traces of programs that create and join threads.  A thread runs between its creation and the return
of the join that waits for it, so a joined thread has no further events.
*/
module ForkJoin {
  import opened HappensBefore
  import opened Verdict

  const MAIN: Tid := 0

  function Forked(tr: Trace): set<Tid> {
    if tr == [] then {}
    else Forked(tr[..|tr| - 1]) + if tr[|tr| - 1].Fork? then {tr[|tr| - 1].child} else {}
  }

  function Joined(tr: Trace): set<Tid> {
    if tr == [] then {}
    else Joined(tr[..|tr| - 1]) + if tr[|tr| - 1].Join? then {tr[|tr| - 1].child} else {}
  }

  predicate Live(tr: Trace, t: Tid) {
    (t == MAIN || t in Forked(tr)) && t !in Joined(tr)
  }

  predicate CanHappen(tr: Trace, e: Event) {
    && Live(tr, e.tid)
    && (e.Fork? ==> e.child != MAIN && e.child !in Forked(tr))
    && (e.Join? ==> e.child != e.tid && e.child in Forked(tr) && e.child !in Joined(tr))
  }

  ghost predicate WellForked(tr: Trace) {
    tr == [] || (WellForked(tr[..|tr| - 1]) && CanHappen(tr[..|tr| - 1], tr[|tr| - 1]))
  }

  /** Every created thread has been joined. */
  predicate Alone(tr: Trace) {
    Forked(tr) <= Joined(tr)
  }

  lemma EmitExtends(tr: Trace, e: Event)
    ensures Forked(tr + [e]) == Forked(tr) + if e.Fork? then {e.child} else {}
    ensures Joined(tr + [e]) == Joined(tr) + if e.Join? then {e.child} else {}
    ensures WellForked(tr + [e]) <==> WellForked(tr) && CanHappen(tr, e)
  {
    assert (tr + [e])[..|tr|] == tr;
  }

  lemma {:induction false} WellForkedPrefix(tr: Trace, n: nat)
    requires WellForked(tr) && n <= |tr|
    ensures WellForked(tr[..n])
    ensures n < |tr| ==> CanHappen(tr[..n], tr[n])
    decreases |tr| - n
  {
    if n == |tr| {
      assert tr[..n] == tr;
    } else {
      WellForkedPrefix(tr, n + 1);
      assert tr[..n + 1][..n] == tr[..n];
    }
  }

  lemma {:induction false} JoinedWereForked(tr: Trace)
    requires WellForked(tr)
    ensures Joined(tr) <= Forked(tr) && MAIN !in Forked(tr)
  {
    if tr != [] {
      JoinedWereForked(tr[..|tr| - 1]);
    }
  }

  /** No event is forgotten: at any time some running thread knows it. */
  lemma {:induction false} SomeoneKnows(tr: Trace, n: nat, i: nat) returns (t: Tid)
    requires WellForked(tr) && i < n <= |tr|
    ensures Live(tr[..n], t) && Known(tr, n, i, t)
    decreases n
  {
    var e, m := tr[n - 1], n - 1;
    WellForkedPrefix(tr, m);
    assert tr[..n][..m] == tr[..m];
    if i == m {
      t := e.tid;
      assert HB(tr, i, i) && Feeds(tr[i], t);
    } else {
      t := SomeoneKnows(tr, m, i);
      KnownStep(tr, m, i, t);
      if e.Join? && e.child == t {
        t := e.tid;
        IncomingIsHB(tr, m, i);
        KnownStep(tr, m, i, t);
      }
    }
    assert Joined(tr[..n]) == Joined(tr[..m]) + if e.Join? then {e.child} else {};
  }

  /** When all created threads have been joined, whatever happened before is ordered before the
      next event, through whichever threads did the joining. */
  lemma AloneIsAfterAll(tr: Trace, n: nat, i: nat)
    requires WellForked(tr) && i < n < |tr| && Alone(tr[..n])
    ensures HB(tr, i, n) && tr[n].tid == MAIN
  {
    WellForkedPrefix(tr, n);
    JoinedWereForked(tr[..n]);
    var t := SomeoneKnows(tr, n, i);
    IncomingIsHB(tr, n, i);
  }

  /** From then on every running thread descends from that event. */
  lemma {:induction false} AllRunningKnow(tr: Trace, n: nat, m: nat, t: Tid)
    requires WellForked(tr) && n < m <= |tr| && Alone(tr[..n]) && Live(tr[..m], t)
    ensures Known(tr, m, n, t)
    decreases m
  {
    var e, p := tr[m - 1], m - 1;
    WellForkedPrefix(tr, p);
    JoinedWereForked(tr[..p]);
    assert tr[..m][..p] == tr[..p];
    KnownStep(tr, p, n, t);
    assert HB(tr, n, n);
    if p == n {
      assert e.tid == MAIN;
      assert t == MAIN || (e.Fork? && t == e.child);
    } else if e.Fork? && t == e.child {
      AllRunningKnow(tr, n, p, e.tid);
      IncomingIsHB(tr, p, n);
    } else {
      AllRunningKnow(tr, n, p, t);
    }
  }

  lemma AloneIsBeforeAll(tr: Trace, n: nat, j: nat)
    requires WellForked(tr) && n < j < |tr| && Alone(tr[..n])
    ensures HB(tr, n, j)
  {
    WellForkedPrefix(tr, j);
    AllRunningKnow(tr, n, j, tr[j].tid);
    IncomingIsHB(tr, j, n);
  }

  /** Accesses made while no created thread is unjoined take part in no race. */
  lemma AloneDropKeepsVerdict(tr: Trace, drop: set<nat>)
    requires WellForked(tr)
    requires forall n :: n in drop && n < |tr| ==> Alone(tr[..n])
    ensures SameVerdict(tr, Dropped(tr, drop))
  {
    forall i: nat, j: nat, x, t, wt, u, wu | RacePair(tr, i, j, x, t, wt, u, wu) && t != u && (wt || wu)
      ensures i !in drop && j !in drop
    {
      if i in drop {
        AloneOrdered(tr, i, j);
      }
      if j in drop {
        AloneOrdered(tr, j, i);
      }
    }
    DroppingKeepsVerdict(tr, drop);
  }

  lemma AloneOrdered(tr: Trace, n: nat, i: nat)
    requires WellForked(tr) && n < |tr| && i < |tr| && i != n && Alone(tr[..n])
    ensures !Unordered(tr, i, n) && !Unordered(tr, n, i)
  {
    if i < n {
      AloneIsAfterAll(tr, n, i);
    } else {
      AloneIsBeforeAll(tr, n, i);
    }
  }
}
