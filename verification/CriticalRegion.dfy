/**
Removing TSAN calls that are always made inside an OpenMP critical region.  The pass decides by
dominance whether a call lies between the begin and the end of a region, and removes the calls on a
variable when the regions of all of them have a name in common.
*/
module CriticalRegion {
  import opened HappensBefore
  import opened Verdict
  import opened LockDiscipline

  type Node = nat

  /** The control flow of one function, one node an instruction.  `begins` and `ends` are the begin
      and end calls of the region with one particular name. */
  datatype Graph = Graph(entry: Node, succ: Node -> set<Node>, begins: set<Node>, ends: set<Node>)

  // ---------------------------------------------------------------- paths and dominance

  ghost predicate Walk(g: Graph, p: seq<Node>) {
    forall k :: 0 < k < |p| ==> p[k] in g.succ(p[k - 1])
  }

  ghost predicate PathTo(g: Graph, p: seq<Node>, n: Node) {
    p != [] && p[0] == g.entry && p[|p| - 1] == n && Walk(g, p)
  }

  ghost predicate Reachable(g: Graph, n: Node) {
    exists p :: PathTo(g, p, n)
  }

  ghost predicate Dominates(g: Graph, a: Node, b: Node) {
    forall p :: PathTo(g, p, b) ==> a in p
  }

  ghost predicate ExitPath(g: Graph, p: seq<Node>, n: Node) {
    p != [] && p[0] == n && Walk(g, p) && g.succ(p[|p| - 1]) == {}
  }

  ghost predicate PostDominates(g: Graph, a: Node, b: Node) {
    forall p :: ExitPath(g, p, b) ==> a in p
  }

  ghost predicate ForwardClause(g: Graph, inst: Node, start: Node, end: Node) {
    && Dominates(g, start, inst) && !Dominates(g, inst, start)
    && !Dominates(g, end, inst) && Dominates(g, inst, end)
  }

  ghost predicate BackwardClause(g: Graph, inst: Node, start: Node, end: Node) {
    && !PostDominates(g, start, inst) && PostDominates(g, inst, start)
    && !PostDominates(g, end, inst) && PostDominates(g, inst, end)
  }

  ghost predicate InstBetweenTwoInst(g: Graph, inst: Node, start: Node, end: Node) {
    ForwardClause(g, inst, start, end) || BackwardClause(g, inst, start, end)
  }

  /** Two different nodes do not dominate each other, if they can be reached. */
  lemma NotBothDominate(g: Graph, a: Node, b: Node)
    requires a != b && Dominates(g, b, a) && Reachable(g, a)
    ensures !Dominates(g, a, b)
  {
    var p :| PathTo(g, p, a);
    var first := FirstVisit(p, a);
    var toA := p[..first + 1];
    assert PathTo(g, toA, a);
    var k := FirstVisit(toA, b);
    assert PathTo(g, toA[..k + 1], b) && toA[..k + 1] == p[..k + 1] && a !in p[..first];
  }

  lemma NotBothPostDominate(g: Graph, a: Node, b: Node)
    requires a != b && PostDominates(g, b, a) && exists p :: ExitPath(g, p, a)
    ensures !PostDominates(g, a, b)
  {
    var p :| ExitPath(g, p, a);
    var last := LastVisit(p, a);
    var fromA := p[last..];
    assert ExitPath(g, fromA, a);
    var k := LastVisit(fromA, b);
    assert ExitPath(g, fromA[k..], b) && a !in p[last + 1..];
    assert forall j :: 0 <= j < |fromA[k..]| ==> fromA[k..][j] == p[last + 1..][k - 1 + j];
  }

  lemma {:induction false} ReachableBefore(g: Graph, a: Node, b: Node)
    requires Reachable(g, b) && Dominates(g, a, b)
    ensures Reachable(g, a)
  {
    var p :| PathTo(g, p, b);
    var k := FirstVisit(p, a);
    assert PathTo(g, p[..k + 1], a);
  }

  /** What the test by dominance means: three different nodes, with the begin on every path to the
      instruction and the instruction on every path to the end. */
  lemma ForwardClauseIff(g: Graph, inst: Node, start: Node, end: Node)
    requires Reachable(g, end)
    ensures ForwardClause(g, inst, start, end) <==>
            && start != inst && inst != end
            && (forall p :: PathTo(g, p, inst) ==> start in p) && forall p :: PathTo(g, p, end) ==> inst in p
  {
    SelfDominates(g, inst);
    if start != inst && inst != end && Dominates(g, start, inst) && Dominates(g, inst, end) {
      ReachableBefore(g, inst, end);
      NotBothDominate(g, inst, start);
      NotBothDominate(g, end, inst);
    }
  }

  /** What the test by post-dominance means: the instruction is on every path from the begin and also on
      every path from the end to the exit, so it comes after both. */
  lemma BackwardClauseIff(g: Graph, inst: Node, start: Node, end: Node)
    requires (exists p :: ExitPath(g, p, start)) && exists p :: ExitPath(g, p, end)
    ensures BackwardClause(g, inst, start, end) <==>
            && start != inst && inst != end
            && (forall p :: ExitPath(g, p, start) ==> inst in p) && forall p :: ExitPath(g, p, end) ==> inst in p
  {
    SelfDominates(g, inst);
    if start != inst && inst != end && PostDominates(g, inst, start) && PostDominates(g, inst, end) {
      NotBothPostDominate(g, start, inst);
      NotBothPostDominate(g, end, inst);
    }
  }

  lemma SelfDominates(g: Graph, a: Node)
    ensures Dominates(g, a, a) && PostDominates(g, a, a)
  {
  }

  // ---------------------------------------------------------------- what the lock does on a path

  predicate IsEvent(g: Graph, n: Node) {
    n in g.begins || n in g.ends
  }

  /** Whether the last region event on the path is a begin. */
  predicate Inside(g: Graph, p: seq<Node>) {
    if p == [] then false
    else
      var n := p[|p| - 1];
      if n in g.begins then true else if n in g.ends then false else Inside(g, p[..|p| - 1])
  }

  /** Begin and end take turns along p. */
  ghost predicate TakesTurns(g: Graph, p: seq<Node>) {
    forall k :: 0 <= k < |p| ==> && (p[k] in g.begins ==> !Inside(g, p[..k]))
                                 && (p[k] in g.ends ==> Inside(g, p[..k]))
  }

  /** What the OpenMP standard demands of critical constructs, on every path of the function. */
  ghost predicate WellFormed(g: Graph) {
    && g.begins !! g.ends
    && forall p, n :: PathTo(g, p, n) ==> TakesTurns(g, p)
  }

  ghost predicate AlwaysInside(g: Graph, inst: Node) {
    forall p :: PathTo(g, p, inst) ==> Inside(g, p)
  }

  /** From inst an end can be reached without meeting another begin or end. */
  ghost predicate EndsNext(g: Graph, inst: Node) {
    exists q :: NextEnd(g, q, inst)
  }

  ghost predicate NextEnd(g: Graph, q: seq<Node>, inst: Node) {
    && |q| > 1 && q[0] == inst && Walk(g, q) && q[|q| - 1] in g.ends
    && forall k :: 0 < k < |q| - 1 ==> !IsEvent(g, q[k])
  }

  lemma {:induction false} EventFree(g: Graph, p: seq<Node>, m: nat, n: nat)
    requires m <= n <= |p| && forall k :: m <= k < n ==> !IsEvent(g, p[k])
    ensures Inside(g, p[..n]) == Inside(g, p[..m])
    decreases n
  {
    if m < n {
      EventFree(g, p, m, n - 1);
      assert p[..n][..n - 1] == p[..n - 1];
    }
  }

  /** Splicing: a path to inst followed by a walk from inst is a path. */
  lemma Splice(g: Graph, p: seq<Node>, inst: Node, q: seq<Node>)
    requires PathTo(g, p, inst) && q != [] && q[0] == inst && Walk(g, q)
    ensures PathTo(g, p + q[1..], q[|q| - 1])
    ensures forall k :: 0 < k < |q| ==> (p + q[1..])[|p| + k - 1] == q[k]
  {
    var r := p + q[1..];
    forall k | 0 < k < |r|
      ensures r[k] in g.succ(r[k - 1])
    {
      if k >= |p| {
        assert r[k] == q[k - |p| + 1];
        assert r[k - 1] == q[k - |p|];
      }
    }
  }

  lemma EndsNextIsInside(g: Graph, inst: Node)
    requires WellFormed(g) && EndsNext(g, inst) && !IsEvent(g, inst)
    ensures AlwaysInside(g, inst)
  {
    var q :| NextEnd(g, q, inst);
    forall p | PathTo(g, p, inst)
      ensures Inside(g, p)
    {
      Splice(g, p, inst, q);
      var r, n := p + q[1..], |p| + |q| - 2;
      assert TakesTurns(g, r) && r[n] == q[|q| - 1];
      forall k | |p| <= k < n
        ensures !IsEvent(g, r[k])
      {
        assert r[k] == q[k - |p| + 1];
      }
      EventFree(g, r, |p|, n);
      assert r[..|p|] == p;
    }
  }

  lemma {:induction false} FirstEvent(g: Graph, p: seq<Node>, m: nat) returns (n: nat)
    requires m < |p| && IsEvent(g, p[|p| - 1])
    ensures m <= n < |p| && IsEvent(g, p[n]) && forall k :: m <= k < n ==> !IsEvent(g, p[k])
    decreases |p| - m
  {
    if IsEvent(g, p[m]) {
      n := m;
    } else {
      n := FirstEvent(g, p, m + 1);
    }
  }

  ghost predicate WalkToEnd(g: Graph, q: seq<Node>, n: Node) {
    q != [] && q[0] == n && Walk(g, q) && q[|q| - 1] in g.ends
  }

  /** From inside a region an end can be reached. */
  ghost predicate RegionsClose(g: Graph) {
    forall p, n :: PathTo(g, p, n) && Inside(g, p) ==> exists q :: WalkToEnd(g, q, n)
  }

  /** An instruction is inside the region on every path exactly when its next region event can be an
      end, or when it is not executed at all. */
  lemma AlwaysInsideIff(g: Graph, inst: Node)
    requires WellFormed(g) && RegionsClose(g) && !IsEvent(g, inst)
    ensures AlwaysInside(g, inst) <==> !Reachable(g, inst) || EndsNext(g, inst)
  {
    if EndsNext(g, inst) {
      EndsNextIsInside(g, inst);
    }
    if AlwaysInside(g, inst) && Reachable(g, inst) {
      var p :| PathTo(g, p, inst);
      var q :| WalkToEnd(g, q, inst);
      Splice(g, p, inst, q);
      InsideLeadsToEnd(g, inst, p + q[1..], |p| - 1, q[|q| - 1]);
    }
  }

  lemma InsideLeadsToEnd(g: Graph, inst: Node, path: seq<Node>, i: nat, end: Node)
    requires WellFormed(g) && !IsEvent(g, inst) && AlwaysInside(g, inst)
    requires PathTo(g, path, end) && end in g.ends && i < |path| && path[i] == inst
    ensures EndsNext(g, inst)
  {
    assert path[|path| - 1] == end && i + 1 < |path|;
    var n := FirstEvent(g, path, i + 1);
    assert PathTo(g, path[..i + 1], inst);
    EventFree(g, path, i + 1, n);
    assert TakesTurns(g, path);
    assert path[n] in g.ends;
    assert NextEnd(g, path[i..n + 1], inst);
  }

  // ---------------------------------------------------------------- when dominance is enough

  /** The region that `start` opens is closed by `end`: no other end comes first on any path. */
  ghost predicate Matched(g: Graph, start: Node, end: Node) {
    forall p, n, k, j :: PathTo(g, p, n) && 0 <= k < j < |p| && p[k] == start && p[j] in g.ends && p[j] != end ==>
                           end in p[k..j]
  }

  lemma LastVisit(p: seq<Node>, n: Node) returns (m: nat)
    requires n in p
    ensures m < |p| && p[m] == n && n !in p[m + 1..]
  {
    m := |p| - 1;
    while p[m] != n
      invariant m < |p| && n !in p[m + 1..] && n in p[..m + 1]
      decreases m
    {
      m := m - 1;
    }
  }

  lemma FirstVisit(p: seq<Node>, n: Node) returns (m: nat)
    requires n in p
    ensures m < |p| && p[m] == n && n !in p[..m]
  {
    m := 0;
    while p[m] != n
      invariant m < |p| && n !in p[..m] && n in p[m..]
      decreases |p| - m
    {
      m := m + 1;
    }
  }

  /** A path that stops at its first visit of end, with inst on it. */
  lemma PathThrough(g: Graph, inst: Node, end: Node) returns (path: seq<Node>, i: nat)
    requires Reachable(g, end) && Dominates(g, inst, end)
    ensures PathTo(g, path, end) && end !in path[..|path| - 1]
    ensures i < |path| && path[i] == inst && PathTo(g, path[..i + 1], inst)
  {
    var whole :| PathTo(g, whole, end);
    var last := FirstVisit(whole, end);
    path := whole[..last + 1];
    assert path[..|path| - 1] == whole[..last];
    i := FirstVisit(path, inst);
  }

  /** Between a begin and the end that belongs to it there is no other end. */
  lemma NoEndBetween(g: Graph, path: seq<Node>, start: Node, end: Node, k: nat)
    requires PathTo(g, path, end) && end !in path[..|path| - 1]
    requires k < |path| - 1 && path[k] == start && Matched(g, start, end)
    ensures forall j :: k < j < |path| - 1 ==> path[j] !in g.ends
  {
    forall j | k < j < |path| - 1
      ensures path[j] !in g.ends
    {
      assert forall m :: k <= m <= j ==> path[m] in path[..|path| - 1];
      assert end !in path[k..j + 1];
    }
  }

  /** The forward clause is right for a begin and an end that belong together: whatever other
      regions of the same name the function has, the lock is held at inst on every path. */
  lemma ForwardClauseIsInside(g: Graph, inst: Node, start: Node, end: Node)
    requires WellFormed(g) && start in g.begins && end in g.ends && !IsEvent(g, inst)
    requires Reachable(g, end) && Matched(g, start, end)
    requires ForwardClause(g, inst, start, end)
    ensures AlwaysInside(g, inst)
  {
    var path, i := PathThrough(g, inst, end);
    var last := |path| - 1;
    var k := FirstVisit(path[..i + 1], start);
    assert path[k] == start && k < i < last;
    NoEndBetween(g, path, start, end, k);
    NoBeginInside(g, path, k, last);
    assert NextEnd(g, path[i..], inst);
    EndsNextIsInside(g, inst);
  }

  lemma {:induction false} NoBeginInside(g: Graph, p: seq<Node>, k: nat, last: nat)
    requires k < last < |p| && TakesTurns(g, p) && p[k] in g.begins
    requires forall j :: k < j < last ==> p[j] !in g.ends
    ensures forall j :: k < j < last ==> !IsEvent(g, p[j])
    ensures Inside(g, p[..last])
    decreases last
  {
    assert p[..last][..last - 1] == p[..last - 1];
    if k < last - 1 {
      NoBeginInside(g, p, k, last - 1);
    }
  }

  /** A function with one begin and one end of the name has no pair to confuse. */
  lemma OnePairIsMatched(g: Graph, start: Node, end: Node)
    requires g.ends == {end}
    ensures Matched(g, start, end)
  {
  }

  // ---------------------------------------------------------------- where the code goes wrong

  function Line(n: Node): set<Node> {
    if n < 5 then {n + 1} else {}
  }

  /** begin(1) end(2) access(3) begin(4) end(5): the access is outside. */
  const TWO_REGIONS := Graph(0, Line, {1, 4}, {2, 5})

  lemma {:induction false} LinePath(p: seq<Node>, n: Node)
    requires PathTo(TWO_REGIONS, p, n)
    ensures |p| == n + 1 && n <= 5 && forall k :: 0 <= k < |p| ==> p[k] == k
    decreases |p|
  {
    if |p| > 1 {
      LinePath(p[..|p| - 1], p[|p| - 2]);
    }
  }

  lemma LineInside(p: seq<Node>)
    requires |p| <= 6 && forall k :: 0 <= k < |p| ==> p[k] == k
    ensures Inside(TWO_REGIONS, p) <==> |p| == 2 || |p| == 5
  {
    if |p| > 0 && |p| != 2 && |p| != 3 && |p| != 5 && |p| != 6 {
      LineInside(p[..|p| - 1]);
    }
  }

  lemma TwoRegionsWellFormed()
    ensures WellFormed(TWO_REGIONS)
  {
    forall p, n | PathTo(TWO_REGIONS, p, n)
      ensures TakesTurns(TWO_REGIONS, p)
    {
      LinePath(p, n);
      forall k | 0 <= k < |p|
        ensures k in TWO_REGIONS.begins ==> !Inside(TWO_REGIONS, p[..k])
        ensures k in TWO_REGIONS.ends ==> Inside(TWO_REGIONS, p[..k])
      {
        LineInside(p[..k]);
      }
    }
  }

  lemma LineDominates(a: Node, b: Node)
    requires a <= 5 && b <= 5
    ensures Dominates(TWO_REGIONS, a, b) <==> a <= b
  {
    var p := seq(b + 1, k => k);
    assert PathTo(TWO_REGIONS, p, b);
    if a <= b {
      forall q | PathTo(TWO_REGIONS, q, b)
        ensures a in q
      {
        LinePath(q, b);
        assert q[a] == a;
      }
    }
  }

  lemma {:induction false} LineExit(p: seq<Node>, n: Node)
    requires ExitPath(TWO_REGIONS, p, n) && n <= 5
    ensures |p| == 6 - n && forall k :: 0 <= k < |p| ==> p[k] == n + k
    decreases |p|
  {
    if |p| > 1 {
      LineExit(p[1..], p[1]);
    }
  }

  lemma LinePostDominates(a: Node, b: Node)
    requires a <= 5 && b <= 5
    ensures PostDominates(TWO_REGIONS, a, b) <==> a >= b
  {
    var p := seq(6 - b, k => b + k);
    assert ExitPath(TWO_REGIONS, p, b);
    if a >= b {
      forall q | ExitPath(TWO_REGIONS, q, b)
        ensures a in q
      {
        LineExit(q, b);
        assert q[a - b] == a;
      }
    }
  }

  lemma TwoRegionsClose()
    ensures RegionsClose(TWO_REGIONS)
  {
    forall p, n | PathTo(TWO_REGIONS, p, n) && Inside(TWO_REGIONS, p)
      ensures exists q :: WalkToEnd(TWO_REGIONS, q, n)
    {
      LinePath(p, n);
      LineInside(p);
      assert WalkToEnd(TWO_REGIONS, [n, n + 1], n);
    }
  }

  /** The forward clause with the first begin and the last end accepts an access that no region
      surrounds; the pass forms this pair when all calls carry the same location and the last end is
      laid out first.  The backward clause accepts it even with the region's own begin and end. */
  lemma ClausesAcceptOutside()
    ensures WellFormed(TWO_REGIONS) && RegionsClose(TWO_REGIONS) && !AlwaysInside(TWO_REGIONS, 3)
    ensures ForwardClause(TWO_REGIONS, 3, 1, 5) && !Matched(TWO_REGIONS, 1, 5)
    ensures Paired(Region([RegionCall(1, 0), RegionCall(4, 0)], [RegionCall(5, 0), RegionCall(2, 0)]),
                   RegionCall(1, 0), RegionCall(5, 0))
    ensures BackwardClause(TWO_REGIONS, 3, 1, 2) && Matched(TWO_REGIONS, 1, 2)
  {
    TwoRegionsWellFormed();
    TwoRegionsClose();
    var r := Region([RegionCall(1, 0), RegionCall(4, 0)], [RegionCall(5, 0), RegionCall(2, 0)]);
    assert r.begins[0] == RegionCall(1, 0) && r.ends[0] == RegionCall(5, 0);
    var p := seq(4, k => k);
    assert PathTo(TWO_REGIONS, p, 3);
    LineInside(p);
    LineDominates(1, 3);
    LineDominates(3, 1);
    LineDominates(5, 3);
    LineDominates(3, 5);
    LinePostDominates(1, 3);
    LinePostDominates(3, 1);
    LinePostDominates(2, 3);
    LinePostDominates(3, 2);
    assert p[1] == 1 && p[2] == 2 && 5 !in p[1..2];
    forall q, n, k, j | PathTo(TWO_REGIONS, q, n) && 0 <= k < j < |q| && q[k] == 1 && q[j] in TWO_REGIONS.ends && q[j] != 2
      ensures 2 in q[k..j]
    {
      LinePath(q, n);
      assert q[k..j][1] == 2;
    }
  }

  // ---------------------------------------------------------------- from the path to the run

  /** The operations that a path performs on the region's lock. */
  function LockOps(g: Graph, p: seq<Node>, t: Tid, l: Lock): Trace {
    if p == [] then []
    else
      var n := p[|p| - 1];
      LockOps(g, p[..|p| - 1], t, l) +
      if n in g.begins then [Acquire(t, l)] else if n in g.ends then [Release(t, l)] else []
  }

  /** Thread t's operations on lock l. */
  function OpsOf(tr: Trace, t: Tid, l: Lock): Trace {
    if tr == [] then []
    else OpsOf(tr[..|tr| - 1], t, l) + if LockOp(tr[|tr| - 1], t, l) then [tr[|tr| - 1]] else []
  }

  ghost predicate EndsWith(a: Trace, b: Trace) {
    |b| <= |a| && a[|a| - |b|..] == b
  }

  lemma {:induction false} OpsDecideHolds(tr: Trace, t: Tid, l: Lock)
    ensures Holds(tr, t, l) <==> OpsOf(tr, t, l) != [] && OpsOf(tr, t, l)[|OpsOf(tr, t, l)| - 1].Acquire?
  {
    if tr != [] {
      OpsDecideHolds(tr[..|tr| - 1], t, l);
    }
  }

  lemma {:induction false} InsideEndsInAcquire(g: Graph, p: seq<Node>, t: Tid, l: Lock)
    requires g.begins !! g.ends && Inside(g, p)
    ensures LockOps(g, p, t, l) != [] && LockOps(g, p, t, l)[|LockOps(g, p, t, l)| - 1] == Acquire(t, l)
  {
    if p[|p| - 1] !in g.begins {
      InsideEndsInAcquire(g, p[..|p| - 1], t, l);
    }
  }

  /** The TSAN call at node inst of a function is executed as event i: thread t has come there on some
      path of the current activation, so its latest lock operations are those of the path. */
  ghost predicate Executes(tr: Trace, i: nat, g: Graph, inst: Node, l: Lock) {
    && i < |tr| && tr[i].Access?
    && exists p :: PathTo(g, p, inst) && EndsWith(OpsOf(tr[..i], tr[i].tid, l), LockOps(g, p, tr[i].tid, l))
  }

  lemma InsideHolds(tr: Trace, i: nat, g: Graph, inst: Node, l: Lock)
    requires Executes(tr, i, g, inst, l) && g.begins !! g.ends && AlwaysInside(g, inst)
    ensures Holds(tr[..i], tr[i].tid, l)
  {
    var t := tr[i].tid;
    var p :| PathTo(g, p, inst) && EndsWith(OpsOf(tr[..i], t, l), LockOps(g, p, t, l));
    InsideEndsInAcquire(g, p, t, l);
    var ops, tail := OpsOf(tr[..i], t, l), LockOps(g, p, t, l);
    assert ops[|ops| - 1] == ops[|ops| - |tail|..][|tail| - 1];
    OpsDecideHolds(tr[..i], t, l);
  }

  /** Where an event comes from. */
  datatype Site = Site(graph: Graph, inst: Node)

  /** Event i is made at a site that is inside the region on every path. */
  ghost predicate InRegion(tr: Trace, i: nat, s: Site, l: Lock) {
    Executes(tr, i, s.graph, s.inst, l) && s.graph.begins !! s.graph.ends && AlwaysInside(s.graph, s.inst)
  }

  predicate Overlap(tr: Trace, i: nat, j: nat) {
    i < |tr| && j < |tr| && tr[i].Access? && tr[j].Access? && tr[i].bytes * tr[j].bytes != {}
  }

  /** The whole argument: if every access that shares a byte with a removed call is made at a site
      that is inside regions of one name on every path, then removing the calls changes no verdict
      in any run in which the regions of that name exclude each other. */
  lemma RemovalKeepsVerdict(tr: Trace, drop: set<nat>, l: Lock)
    requires Exclusive(tr, l)
    requires forall i: nat, j: nat :: i in drop && Overlap(tr, i, j) ==>
               (exists s :: InRegion(tr, i, s, l)) && exists s :: InRegion(tr, j, s, l)
    ensures SameVerdict(tr, Dropped(tr, drop))
  {
    forall i | i in drop
      ensures Protected(tr, {i}, l)
    {
      forall j: nat | Overlap(tr, i, j)
        ensures Holds(tr[..i], tr[i].tid, l) && Holds(tr[..j], tr[j].tid, l)
      {
        var s :| InRegion(tr, i, s, l);
        var s' :| InRegion(tr, j, s', l);
        InsideHolds(tr, i, s.graph, s.inst, l);
        InsideHolds(tr, j, s'.graph, s'.inst, l);
      }
    }
    ProtectedDropKeepsVerdict(tr, drop, _ => l);
  }

  // ---------------------------------------------------------------- choosing the calls to remove

  type Name = string

  /** A begin or end call: where it stands and the source location it is called with. */
  datatype RegionCall = RegionCall(node: Node, location: nat)

  /** The begins and ends of one name, in the order in which the function's blocks are laid out. */
  datatype Region = Region(begins: seq<RegionCall>, ends: seq<RegionCall>)

  /** A begin is paired with the first end in layout order that carries the same location. */
  predicate Paired(r: Region, b: RegionCall, e: RegionCall) {
    b in r.begins && exists k :: 0 <= k < |r.ends| && r.ends[k] == e && b.location == e.location &&
                                 forall j :: 0 <= j < k ==> r.ends[j].location != b.location
  }

  method PairUp(r: Region) returns (pairs: seq<(RegionCall, RegionCall)>)
    ensures forall b, e :: (b, e) in pairs <==> Paired(r, b, e)
  {
    pairs := [];
    for i := 0 to |r.begins|
      invariant forall b, e :: (b, e) in pairs <==> b in r.begins[..i] && Paired(r, b, e)
    {
      var begin := r.begins[i];
      assert r.begins[..i + 1] == r.begins[..i] + [begin];
      ghost var before := pairs;
      var k := 0;
      while k < |r.ends| && r.ends[k].location != begin.location
        invariant k <= |r.ends| && forall j :: 0 <= j < k ==> r.ends[j].location != begin.location
      {
        k := k + 1;
      }
      if k < |r.ends| {
        assert Paired(r, begin, r.ends[k]);
        pairs := pairs + [(begin, r.ends[k])];
      }
    }
    assert r.begins[..|r.begins|] == r.begins;
  }

  ghost predicate Surrounds(g: Graph, r: Region, tsan: Node) {
    exists b, e :: Paired(r, b, e) && InstBetweenTwoInst(g, tsan, b.node, e.node)
  }

  /** The answers of the dominator trees. */
  ghost predicate Decides(between: (Node, Node, Node) -> bool, g: Graph) {
    forall inst, start, end :: between(inst, start, end) <==> InstBetweenTwoInst(g, inst, start, end)
  }

  /** Maps each TSAN call of a function to the names of the regions around it; calls without any region
      are left out of the map. */
  method GroupTsanToCrit(ghost g: Graph, tsan: seq<Node>, regions: map<Name, Region>,
                         between: (Node, Node, Node) -> bool)
    returns (critMap: map<Node, set<Name>>)
    requires Decides(between, g)
    ensures forall c :: c in critMap <==> c in tsan && exists n :: n in regions && Surrounds(g, regions[n], c)
    ensures forall c :: c in critMap ==> forall n :: n in critMap[c] <==> n in regions && Surrounds(g, regions[n], c)
  {
    critMap := map[];
    for i := 0 to |tsan|
      invariant forall c :: c in critMap <==> c in tsan[..i] && exists n :: n in regions && Surrounds(g, regions[n], c)
      invariant forall c :: c in critMap ==> forall n :: n in critMap[c] <==> n in regions && Surrounds(g, regions[n], c)
    {
      assert tsan[..i + 1] == tsan[..i] + [tsan[i]];
      var names := NamesAround(g, tsan[i], regions, between);
      if names != {} {
        critMap := critMap[tsan[i] := names];
      }
    }
    assert tsan[..|tsan|] == tsan;
  }

  method NamesAround(ghost g: Graph, tsan: Node, regions: map<Name, Region>, between: (Node, Node, Node) -> bool)
    returns (names: set<Name>)
    requires Decides(between, g)
    ensures forall n :: n in names <==> n in regions && Surrounds(g, regions[n], tsan)
  {
    names := {};
    var todo := regions.Keys;
    while todo != {}
      invariant todo <= regions.Keys
      invariant forall n :: n in names <==> n in regions.Keys - todo && Surrounds(g, regions[n], tsan)
      decreases todo
    {
      var name :| name in todo;
      var pairs := PairUp(regions[name]);
      var k := 0;
      while k < |pairs| && !between(tsan, pairs[k].0.node, pairs[k].1.node)
        invariant k <= |pairs| && forall j :: 0 <= j < k ==> !between(tsan, pairs[j].0.node, pairs[j].1.node)
      {
        k := k + 1;
      }
      if k < |pairs| {
        assert (pairs[k].0, pairs[k].1) in pairs;
        names := names + {name};
      }
      todo := todo - {name};
    }
  }

  datatype User = NoCall | OtherCall | TsanCall(id: Node)

  function TsanUsers(users: seq<User>): set<Node> {
    set u | u in users && u.TsanCall? :: u.id
  }

  /** All these calls are mapped, and the mapped sets have this name in common. */
  ghost predicate CommonName(critMap: map<Node, set<Name>>, calls: set<Node>, n: Name) {
    forall c :: c in calls ==> c in critMap && n in critMap[c]
  }

  /** The names that the calls so far have in common, once there is a call. */
  ghost predicate FoldedNames(critMap: map<Node, set<Name>>, calls: set<Node>, names: set<Name>) {
    (calls == {} <==> names == {}) &&
    (calls != {} ==> forall n {:trigger CommonName(critMap, calls, n)} :: n in names <==> CommonName(critMap, calls, n))
  }

  lemma TsanUsersSnoc(users: seq<User>, k: nat)
    requires k < |users|
    ensures TsanUsers(users[..k + 1]) == TsanUsers(users[..k]) + if users[k].TsanCall? then {users[k].id} else {}
    ensures TsanUsers(users[..k + 1]) <= TsanUsers(users)
  {
    assert users[..k + 1] == users[..k] + [users[k]];
    if users[k].TsanCall? {
      assert users[k] in users[..k + 1];
    }
  }

  lemma NoCommonName(critMap: map<Node, set<Name>>, calls: set<Node>, names: set<Name>, c: Node, all: set<Node>)
    requires FoldedNames(critMap, calls, names) && calls + {c} <= all
    requires c in critMap ==> calls != {} && names * critMap[c] == {}
    ensures !exists n :: CommonName(critMap, all, n)
  {
    forall n
      ensures !CommonName(critMap, all, n)
    {
      assert c in all && (CommonName(critMap, all, n) ==> CommonName(critMap, calls, n));
      assert c in critMap ==> n !in names * critMap[c];
    }
  }

  lemma FoldName(critMap: map<Node, set<Name>>, calls: set<Node>, names: set<Name>, c: Node, names': set<Name>)
    requires FoldedNames(critMap, calls, names) && c in critMap && names' != {}
    requires names' == if calls == {} then critMap[c] else names * critMap[c]
    ensures FoldedNames(critMap, calls + {c}, names')
  {
    forall n
      ensures n in names' <==> CommonName(critMap, calls + {c}, n)
    {
      assert CommonName(critMap, calls + {c}, n) <==> CommonName(critMap, calls, n) && n in critMap[c];
    }
  }

  /** The TSAN calls on a variable are removed all or none, and they are removed exactly when their
      regions have a name in common. */
  method RemoveTsanUsagesToVar(critMap: map<Node, set<Name>>, users: seq<User>) returns (removed: set<Node>)
    requires forall c :: c in critMap ==> critMap[c] != {}
    ensures removed == {} || removed == TsanUsers(users)
    ensures TsanUsers(users) != {} ==> (removed != {} <==> exists n :: CommonName(critMap, TsanUsers(users), n))
  {
    var toBeDeleted: set<Node> := {};
    var critNames: set<Name> := {};
    for k := 0 to |users|
      invariant toBeDeleted == TsanUsers(users[..k]) && FoldedNames(critMap, toBeDeleted, critNames)
    {
      var u := users[k];
      TsanUsersSnoc(users, k);
      if !u.TsanCall? {
        continue;
      }
      if u.id !in critMap {
        NoCommonName(critMap, toBeDeleted, critNames, u.id, TsanUsers(users));
        return {};
      }
      var both := critMap[u.id];
      if critNames != {} {
        both := set n | n in critNames && n in critMap[u.id];
        assert both == critNames * critMap[u.id];
        if both == {} {
          NoCommonName(critMap, toBeDeleted, critNames, u.id, TsanUsers(users));
          return {};
        }
      }
      FoldName(critMap, toBeDeleted, critNames, u.id, both);
      critNames := both;
      toBeDeleted := toBeDeleted + {u.id};
    }
    assert users[..|users|] == users;
    if toBeDeleted != {} {
      var n :| n in critNames;
      assert CommonName(critMap, toBeDeleted, n);
    }
    return toBeDeleted;
  }

  // ---------------------------------------------------------------- from the decision to the run

  /** A function: its control flow, and its regions by name. */
  datatype Code = Code(graph: Graph, regions: map<Name, Region>)

  function NodesOf(calls: seq<RegionCall>): set<Node> {
    set b | b in calls :: b.node
  }

  /** The function as the regions of one name see it. */
  function GraphOf(code: Code, n: Name): Graph {
    if n in code.regions then
      code.graph.(begins := NodesOf(code.regions[n].begins), ends := NodesOf(code.regions[n].ends))
    else code.graph
  }

  /** The regions of the name are well-formed, each begin is paired with the end that belongs to it, and
      it is not the post-dominance clause that puts the call between them. */
  ghost predicate PairsAreRight(code: Code, n: Name, tsan: Node) {
    n in code.regions ==>
      && WellFormed(GraphOf(code, n)) && !IsEvent(GraphOf(code, n), tsan)
      && forall b, e :: Paired(code.regions[n], b, e) ==>
           && Reachable(code.graph, e.node) && Matched(GraphOf(code, n), b.node, e.node)
           && !BackwardClause(code.graph, tsan, b.node, e.node)
  }

  lemma SamePaths(g: Graph, h: Graph)
    requires g.entry == h.entry && g.succ == h.succ
    ensures forall p, n :: PathTo(g, p, n) <==> PathTo(h, p, n)
  {
    forall p, n
      ensures PathTo(g, p, n) <==> PathTo(h, p, n)
    {
      assert Walk(g, p) <==> Walk(h, p);
    }
  }

  lemma SurroundedIsInside(code: Code, n: Name, tsan: Node)
    requires n in code.regions && Surrounds(code.graph, code.regions[n], tsan) && PairsAreRight(code, n, tsan)
    ensures AlwaysInside(GraphOf(code, n), tsan)
  {
    var b, e :| Paired(code.regions[n], b, e) && InstBetweenTwoInst(code.graph, tsan, b.node, e.node);
    SamePaths(code.graph, GraphOf(code, n));
    assert b.node in NodesOf(code.regions[n].begins) && e.node in NodesOf(code.regions[n].ends);
    ForwardClauseIsInside(GraphOf(code, n), tsan, b.node, e.node);
  }

  /** The names that the map gives a call are of regions that surround it in its function. */
  ghost predicate Grouped(critMap: map<Node, set<Name>>, codeOf: Node -> Code) {
    forall c, n :: c in critMap && n in critMap[c] ==>
      n in codeOf(c).regions && Surrounds(codeOf(c).graph, codeOf(c).regions[n], c)
  }

  /** Event j is made by a TSAN call on the variable; the regions of the name are the lock. */
  ghost predicate MadeBy(tr: Trace, j: nat, calls: set<Node>, codeOf: Node -> Code, n: Name, l: Lock) {
    exists c :: c in calls && Executes(tr, j, GraphOf(codeOf(c), n), c, l)
  }

  /** The whole pass: when the calls on a variable have a name in common in the map that the grouping
      gives, which is when they are removed, and the pairs of one such name are right, then removing the
      calls changes no verdict in any run in which the regions of this name exclude each other. */
  lemma RemovedCallsKeepVerdict(tr: Trace, drop: set<nat>, critMap: map<Node, set<Name>>, users: seq<User>,
                                codeOf: Node -> Code, n: Name, l: Lock)
    requires Grouped(critMap, codeOf) && CommonName(critMap, TsanUsers(users), n)
    requires forall c :: c in TsanUsers(users) ==> PairsAreRight(codeOf(c), n, c)
    requires Exclusive(tr, l)
    requires forall i: nat, j: nat :: i in drop && Overlap(tr, i, j) ==>
               MadeBy(tr, i, TsanUsers(users), codeOf, n, l) && MadeBy(tr, j, TsanUsers(users), codeOf, n, l)
    ensures SameVerdict(tr, Dropped(tr, drop))
  {
    forall i: nat | MadeBy(tr, i, TsanUsers(users), codeOf, n, l)
      ensures exists s :: InRegion(tr, i, s, l)
    {
      var c :| c in TsanUsers(users) && Executes(tr, i, GraphOf(codeOf(c), n), c, l);
      SurroundedIsInside(codeOf(c), n, c);
      assert InRegion(tr, i, Site(GraphOf(codeOf(c), n), c), l);
    }
    RemovalKeepsVerdict(tr, drop, l);
  }
}
