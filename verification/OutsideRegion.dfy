/**
Why a removed call has to be inside its region on every path: if on some path it is outside, then two
threads that take this path race, and the race is not reported once the call is removed.
*/
module OutsideRegion {
  import opened HappensBefore
  import opened Verdict
  import opened ForkJoin
  import opened LockDiscipline
  import opened CriticalRegion

  /** Event i is made at one of the sites. */
  ghost predicate MadeAt(tr: Trace, i: nat, sites: set<Site>, l: Lock) {
    exists s :: s in sites && Executes(tr, i, s.graph, s.inst, l)
  }

  /** Removing the calls at these sites changes no verdict, in any run in which the regions exclude each
      other and nothing else shares a byte with the calls. */
  ghost predicate RemovalIsRight(sites: set<Site>) {
    forall tr: Trace, drop: set<nat>, l: Lock ::
      (WellForked(tr) && Exclusive(tr, l) &&
       forall i: nat, j: nat :: i in drop && Overlap(tr, i, j) ==> MadeAt(tr, i, sites, l) && MadeAt(tr, j, sites, l))
      ==> SameVerdict(tr, Dropped(tr, drop))
  }

  /** Thread t holds the lock if it is inside, and nobody else does. */
  ghost predicate HeldBy(tr: Trace, l: Lock, t: Tid, inside: bool) {
    forall u {:trigger Holds(tr, u, l)} :: Holds(tr, u, l) <==> u == t && inside
  }

  lemma HoldsSnoc(tr: Trace, e: Event, u: Tid, l: Lock)
    ensures Holds(tr + [e], u, l) <==> if LockOp(e, u, l) then e.Acquire? else Holds(tr, u, l)
  {
    assert (tr + [e])[..|tr|] == tr;
  }

  lemma ExclusiveSnoc(tr: Trace, e: Event, l: Lock)
    requires Exclusive(tr, l) && (e.Acquire? && e.lock == l ==> forall u :: !Holds(tr, u, l))
    ensures Exclusive(tr + [e], l)
  {
    var more := tr + [e];
    forall k, u | 0 <= k < |more| && more[k].Acquire? && more[k].lock == l
      ensures !Holds(more[..k], u, l)
    {
      assert more[..k] == tr[..k];
      assert k == |tr| ==> tr[..k] == tr;
    }
  }

  lemma HeldAfter(tr: Trace, e: Event, l: Lock, t: Tid, inside: bool)
    requires HeldBy(tr, l, t, inside)
    ensures LockOp(e, t, l) ==> HeldBy(tr + [e], l, t, e.Acquire?)
    ensures !e.Acquire? && !e.Release? ==> HeldBy(tr + [e], l, t, inside)
  {
    forall u
      ensures Holds(tr + [e], u, l) <==> if LockOp(e, u, l) then e.Acquire? else Holds(tr, u, l)
    {
      HoldsSnoc(tr, e, u, l);
    }
  }

  /** Thread t has gone on to perform `ops`, and holds the lock if it is inside. */
  ghost predicate Performed(tr: Trace, more: Trace, ops: Trace, t: Tid, l: Lock, inside: bool) {
    && WellForked(more) && Forked(more) == Forked(tr) && Joined(more) == Joined(tr) && Exclusive(more, l)
    && HeldBy(more, l, t, inside) && OpsOf(more, t, l) == OpsOf(tr, t, l) + ops
  }

  lemma PerformsOne(tr: Trace, more: Trace, ops: Trace, t: Tid, l: Lock, inside: bool, e: Event)
    requires Performed(tr, more, ops, t, l, inside) && Live(tr, t) && LockOp(e, t, l) && (e.Acquire? ==> !inside)
    ensures Performed(tr, more + [e], ops + [e], t, l, e.Acquire?)
  {
    EmitExtends(more, e);
    ExclusiveSnoc(more, e, l);
    HeldAfter(more, e, l, t, inside);
    OpsSnoc(more, e, t, l);
    assert OpsOf(tr, t, l) + ops + [e] == OpsOf(tr, t, l) + (ops + [e]);
  }

  lemma OpsSnoc(tr: Trace, e: Event, t: Tid, l: Lock)
    requires LockOp(e, t, l)
    ensures OpsOf(tr + [e], t, l) == OpsOf(tr, t, l) + [e]
  {
    assert (tr + [e])[..|tr|] == tr;
  }

  /** A thread that takes a path, while nobody holds the lock. */
  lemma {:induction false} TakesPath(tr: Trace, g: Graph, p: seq<Node>, t: Tid, l: Lock)
    requires g.begins !! g.ends && TakesTurns(g, p)
    requires WellForked(tr) && Live(tr, t) && Exclusive(tr, l) && HeldBy(tr, l, t, false)
    ensures Performed(tr, tr + LockOps(g, p, t, l), LockOps(g, p, t, l), t, l, Inside(g, p))
  {
    if p == [] {
      assert tr + [] == tr;
    } else {
      var few, n := p[..|p| - 1], p[|p| - 1];
      var ops := LockOps(g, few, t, l);
      FewTurns(g, p);
      TakesPath(tr, g, few, t, l);
      if IsEvent(g, n) {
        var e := if n in g.begins then Acquire(t, l) else Release(t, l);
        PerformsOne(tr, tr + ops, ops, t, l, Inside(g, few), e);
        assert tr + ops + [e] == tr + LockOps(g, p, t, l);
      } else {
        assert LockOps(g, p, t, l) == ops;
      }
    }
  }

  lemma FewTurns(g: Graph, p: seq<Node>)
    requires p != [] && TakesTurns(g, p)
    ensures var few, n := p[..|p| - 1], p[|p| - 1];
            TakesTurns(g, few) && (n in g.begins ==> !Inside(g, few)) && (n in g.ends ==> Inside(g, few))
  {
    var few := p[..|p| - 1];
    assert forall k :: 0 <= k < |few| ==> few[..k] == p[..k];
  }

  lemma {:induction false} OnlyLockOps(g: Graph, p: seq<Node>, t: Tid, l: Lock)
    ensures forall e :: e in LockOps(g, p, t, l) ==> LockOp(e, t, l)
  {
    if p != [] {
      OnlyLockOps(g, p[..|p| - 1], t, l);
    }
  }

  /** The main thread and the one that it creates take path p, one after the other, and access byte 0 at
      its end: the run up to the first access, up to the second, and the whole. */
  function UpToFirst(g: Graph, p: seq<Node>, l: Lock): Trace {
    [Fork(MAIN, 1)] + LockOps(g, p, MAIN, l)
  }

  function UpToSecond(g: Graph, p: seq<Node>, l: Lock): Trace {
    UpToFirst(g, p, l) + [Access(MAIN, true, {0})] + LockOps(g, p, 1, l)
  }

  function BothVisits(g: Graph, p: seq<Node>, l: Lock): Trace {
    UpToSecond(g, p, l) + [Access(1, true, {0})]
  }

  lemma VisitsAreRun(g: Graph, p: seq<Node>, inst: Node, l: Lock)
    requires WellFormed(g) && PathTo(g, p, inst) && !Inside(g, p)
    ensures var tr := BothVisits(g, p, l);
            && WellForked(tr) && Exclusive(tr, l)
            && Executes(tr, |UpToFirst(g, p, l)|, g, inst, l) && Executes(tr, |UpToSecond(g, p, l)|, g, inst, l)
  {
    var fork, first, second := [Fork(MAIN, 1)], UpToFirst(g, p, l), UpToSecond(g, p, l);
    var a, b := Access(MAIN, true, {0}), Access(1, true, {0});
    EmitExtends([], Fork(MAIN, 1));
    ExclusiveSnoc([], Fork(MAIN, 1), l);
    HeldAfter([], Fork(MAIN, 1), l, MAIN, false);
    assert [] + fork == fork;
    TakesPath(fork, g, p, MAIN, l);
    EmitExtends(first, a);
    ExclusiveSnoc(first, a, l);
    HeldAfter(first, a, l, MAIN, false);
    assert HeldBy(first + [a], l, 1, false);
    TakesPath(first + [a], g, p, 1, l);
    EmitExtends(second, b);
    ExclusiveSnoc(second, b, l);
    var tr := BothVisits(g, p, l);
    assert tr[..|first|] == first && tr[|first|] == a;
    assert tr[..|second|] == second && tr[|second|] == b;
    assert EndsWith(OpsOf(first, MAIN, l), LockOps(g, p, MAIN, l));
    assert EndsWith(OpsOf(second, 1, l), LockOps(g, p, 1, l));
  }

  /** Nothing that thread 1 does is ordered behind the access of the main thread. */
  lemma {:induction false} NothingBehind(tr: Trace, i: nat, j: nat)
    requires i < j < |tr| && tr[i].Access? && tr[i].tid == MAIN
    requires forall m :: i < m <= j ==> tr[m].tid == 1 && !tr[m].Join?
    ensures !HB(tr, i, j)
    decreases j
  {
    forall k | i <= k < j && HB(tr, i, k)
      ensures !Edge(tr[k], tr[j])
    {
      if k > i {
        NothingBehind(tr, i, k);
      }
    }
  }

  lemma VisitsRace(g: Graph, p: seq<Node>, l: Lock)
    ensures Race(BothVisits(g, p, l), 0, MAIN, true, 1, true)
  {
    var tr, i, j := BothVisits(g, p, l), |UpToFirst(g, p, l)|, |UpToSecond(g, p, l)|;
    OnlyLockOps(g, p, 1, l);
    forall m | i < m <= j
      ensures tr[m].tid == 1 && !tr[m].Join?
    {
      if m < j {
        assert tr[m] == LockOps(g, p, 1, l)[m - i - 1] && tr[m] in LockOps(g, p, 1, l);
      }
    }
    NothingBehind(tr, i, j);
    assert HB(tr, j, i) ==> j <= i by {
      if HB(tr, j, i) {
        HBIsForward(tr, j, i);
      }
    }
    assert RacePair(tr, i, j, 0, MAIN, true, 1, true);
  }

  lemma OnlyTwoAccesses(g: Graph, p: seq<Node>, l: Lock)
    ensures var tr := BothVisits(g, p, l);
            forall i: nat :: i < |tr| && tr[i].Access? ==> i == |UpToFirst(g, p, l)| || i == |UpToSecond(g, p, l)|
  {
    var tr, first, second := BothVisits(g, p, l), UpToFirst(g, p, l), UpToSecond(g, p, l);
    OnlyLockOps(g, p, MAIN, l);
    OnlyLockOps(g, p, 1, l);
    forall i | 0 < i < |first|
      ensures LockOp(tr[i], MAIN, l)
    {
      assert tr[i] == LockOps(g, p, MAIN, l)[i - 1];
    }
    forall i | |first| < i < |second|
      ensures LockOp(tr[i], 1, l)
    {
      assert tr[i] == LockOps(g, p, 1, l)[i - |first| - 1];
    }
  }

  /** Without the two accesses there is no race. */
  lemma RaceIsLost(g: Graph, p: seq<Node>, l: Lock)
    ensures !Race(Dropped(BothVisits(g, p, l), {|UpToFirst(g, p, l)|, |UpToSecond(g, p, l)|}), 0, MAIN, true, 1, true)
  {
    var tr, drop := BothVisits(g, p, l), {|UpToFirst(g, p, l)|, |UpToSecond(g, p, l)|};
    if i: nat, j: nat :| RacePair(Dropped(tr, drop), i, j, 0, MAIN, true, 1, true) {
      var k := Origin(tr, drop, i);
      KeptAt(tr, drop, k);
      OnlyTwoAccesses(g, p, l);
      assert false;
    }
  }

  /** Removing the calls at these sites is right in every run exactly when each of them is inside the
      region on every path. */
  lemma RemovalIsRightIff(sites: set<Site>)
    requires forall s :: s in sites ==> WellFormed(s.graph)
    ensures RemovalIsRight(sites) <==> forall s :: s in sites ==> AlwaysInside(s.graph, s.inst)
  {
    if forall s :: s in sites ==> AlwaysInside(s.graph, s.inst) {
      forall tr: Trace, drop: set<nat>, l: Lock | WellForked(tr) && Exclusive(tr, l) &&
          forall i: nat, j: nat :: i in drop && Overlap(tr, i, j) ==> MadeAt(tr, i, sites, l) && MadeAt(tr, j, sites, l)
        ensures SameVerdict(tr, Dropped(tr, drop))
      {
        forall i: nat | MadeAt(tr, i, sites, l)
          ensures exists s :: InRegion(tr, i, s, l)
        {
          var s :| s in sites && Executes(tr, i, s.graph, s.inst, l);
          assert InRegion(tr, i, s, l);
        }
        RemovalKeepsVerdict(tr, drop, l);
      }
    } else {
      var s :| s in sites && !AlwaysInside(s.graph, s.inst);
      var p :| PathTo(s.graph, p, s.inst) && !Inside(s.graph, p);
      OutsideLosesRace(sites, s, p);
    }
  }

  /** A call that is outside on path p. */
  lemma OutsideLosesRace(sites: set<Site>, s: Site, p: seq<Node>)
    requires s in sites && WellFormed(s.graph) && PathTo(s.graph, p, s.inst) && !Inside(s.graph, p)
    ensures !RemovalIsRight(sites)
  {
    var l: Lock := 0;
    VisitsAreMade(sites, s, p, l);
    VisitsAreRun(s.graph, p, s.inst, l);
    VisitsRace(s.graph, p, l);
    RaceIsLost(s.graph, p, l);
  }

  lemma VisitsAreMade(sites: set<Site>, s: Site, p: seq<Node>, l: Lock)
    requires s in sites && WellFormed(s.graph) && PathTo(s.graph, p, s.inst) && !Inside(s.graph, p)
    ensures var tr, drop := BothVisits(s.graph, p, l), {|UpToFirst(s.graph, p, l)|, |UpToSecond(s.graph, p, l)|};
            forall i: nat, j: nat :: i in drop && Overlap(tr, i, j) ==> MadeAt(tr, i, sites, l) && MadeAt(tr, j, sites, l)
  {
    VisitsAreRun(s.graph, p, s.inst, l);
    OnlyTwoAccesses(s.graph, p, l);
  }
}
