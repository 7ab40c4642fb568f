/**
When may a load run after a store?  A store is left out of the slice when, in every function that
has an activation below it, no load of the same data can be reached from there.  Runs are modelled
by their call stacks; branches are free to go either way.
*/
module CallOrder {
  type Site = nat
  type Fn = nat

  /** `next` are the edges inside functions, `calls` the possible targets of each call site. */
  datatype Cfg = Cfg(sites: set<Site>, fns: set<Fn>, owner: Site -> Fn, next: set<(Site, Site)>, calls: set<(Site, Fn)>,
                     entry: Fn -> Site, exits: set<Site>)

  ghost predicate WellFormed(g: Cfg) {
    && (forall x, y {:trigger (x, y) in g.next} :: (x, y) in g.next ==>
          x in g.sites && y in g.sites && g.owner(x) == g.owner(y))
    && (forall x, f {:trigger (x, f) in g.calls} :: (x, f) in g.calls ==> x in g.sites && f in g.fns)
    && (forall x {:trigger g.owner(x)} :: x in g.sites ==> g.owner(x) in g.fns)
    && (forall f {:trigger g.entry(f)} :: f in g.fns ==> g.entry(f) in g.sites && g.owner(g.entry(f)) == f)
    && g.exits <= g.sites
  }

  ghost predicate IsCall(g: Cfg, x: Site) {
    exists f :: (x, f) in g.calls
  }

  // ---------------------------------------------------------------- runs

  /** The sites of the active frames; the last one is about to run. */
  type Stack = seq<Site>

  ghost predicate Advances(g: Cfg, a: Stack, b: Stack) {
    var n := |a| - 1;
    a != [] && |b| == n + 1 && b[..n] == a[..n] && (a[n], b[n]) in g.next && !IsCall(g, a[n])
  }

  ghost predicate Calls(g: Cfg, a: Stack, b: Stack) {
    var n := |a|;
    a != [] && |b| == n + 1 && b[..n] == a && exists f :: (a[n - 1], f) in g.calls && b[n] == g.entry(f)
  }

  /** The frame below moves on past its call. */
  ghost predicate Returns(g: Cfg, a: Stack, b: Stack) {
    var n := |a| - 2;
    |a| > 1 && |b| == n + 1 && b[..n] == a[..n] && a[n + 1] in g.exits && (a[n], b[n]) in g.next
  }

  ghost predicate Moves(g: Cfg, a: Stack, b: Stack) {
    Advances(g, a, b) || Calls(g, a, b) || Returns(g, a, b)
  }

  ghost predicate Walk(g: Cfg, w: seq<Stack>) {
    if |w| <= 1 then w != [] && w[0] != []
    else Walk(g, w[..|w| - 1]) && Moves(g, w[|w| - 2], w[|w| - 1])
  }

  ghost predicate Leads(g: Cfg, w: seq<Stack>, a: Stack, b: Stack) {
    Walk(g, w) && w[0] == a && w[|w| - 1] == b
  }

  ghost predicate CanLead(g: Cfg, a: Stack, b: Stack) {
    exists w :: Leads(g, w, a, b)
  }

  predicate Runs(a: Stack, x: Site) {
    a != [] && a[|a| - 1] == x
  }

  // ---------------------------------------------------------------- paths and call chains

  ghost predicate Path(g: Cfg, p: seq<Site>) {
    if |p| <= 1 then p != [] else Path(g, p[..|p| - 1]) && (p[|p| - 2], p[|p| - 1]) in g.next
  }

  ghost predicate PathFrom(g: Cfg, p: seq<Site>, x: Site, y: Site) {
    Path(g, p) && p[0] == x && p[|p| - 1] == y
  }

  /** y can be reached from x inside their function, by at least one step. */
  ghost predicate Reaches(g: Cfg, x: Site, y: Site) {
    exists p :: |p| > 1 && PathFrom(g, p, x, y)
  }

  /** Each site of a chain may call the function of the following one. */
  ghost predicate Chain(g: Cfg, c: seq<Site>) {
    if |c| <= 1 then c != [] else Chain(g, c[1..]) && (c[0], g.owner(c[1])) in g.calls
  }

  ghost predicate ChainTo(g: Cfg, c: seq<Site>, x: Site, targets: set<Site>) {
    Chain(g, c) && c[0] == x && c[|c| - 1] in targets
  }

  /** Running x may end up running one of the targets. */
  ghost predicate MayRun(g: Cfg, x: Site, targets: set<Site>) {
    exists c :: ChainTo(g, c, x, targets)
  }

  lemma ReachesStep(g: Cfg, x: Site, y: Site, z: Site)
    requires (x == y || Reaches(g, x, y)) && (y, z) in g.next
    ensures Reaches(g, x, z)
  {
    if Reaches(g, x, y) {
      var p :| |p| > 1 && PathFrom(g, p, x, y);
      assert (p + [z])[..|p|] == p;
      assert PathFrom(g, p + [z], x, z);
    } else {
      assert [x, z][..1] == [x];
      assert PathFrom(g, [x, z], x, z);
    }
  }

  lemma MayRunStep(g: Cfg, x: Site, y: Site, targets: set<Site>)
    requires (x, g.owner(y)) in g.calls && MayRun(g, y, targets)
    ensures MayRun(g, x, targets)
  {
    var c :| ChainTo(g, c, y, targets);
    assert ([x] + c)[1..] == c;
    assert ChainTo(g, [x] + c, x, targets);
  }

  lemma MayRunSelf(g: Cfg, x: Site, targets: set<Site>)
    requires x in targets
    ensures MayRun(g, x, targets)
  {
    assert ChainTo(g, [x], x, targets);
  }

  // ---------------------------------------------------------------- the analysis

  function CallSites(g: Cfg, f: Fn): set<Site> {
    set e | e in g.calls && e.1 == f :: e.0
  }

  ghost predicate AllMayRun(g: Cfg, instrs: set<Site>, targets: set<Site>) {
    forall x :: x in instrs ==> MayRun(g, x, targets)
  }

  /** Adds the call sites of every function that has a member, until nothing is added: the result is
      everything whose execution may end up at one of the given instructions. */
  method GetAllTransitiveInsts(g: Cfg, targets: set<Site>) returns (instrs: set<Site>)
    ensures forall x :: x in instrs <==> MayRun(g, x, targets)
  {
    instrs := targets;
    var visited: set<Fn> := {};
    var toInsert: set<Site> := {};
    var grown := true;
    ghost var universe := targets + set e | e in g.calls :: e.0;
    forall x | x in targets
      ensures MayRun(g, x, targets)
    {
      MayRunSelf(g, x, targets);
    }
    while grown
      invariant targets <= instrs <= universe && toInsert <= instrs && AllMayRun(g, instrs, targets)
      invariant forall f :: f in visited ==> CallSites(g, f) <= toInsert
      invariant !grown ==> forall x :: x in instrs ==> g.owner(x) in visited
      decreases universe - instrs, grown
    {
      grown := false;
      visited, toInsert := VisitFunctions(g, instrs, visited, toInsert, targets);
      if !(toInsert <= instrs) {
        grown := true;
      }
      instrs := instrs + toInsert;
    }
    forall x | MayRun(g, x, targets)
      ensures x in instrs
    {
      var c :| ChainTo(g, c, x, targets);
      ClosedChain(g, c, instrs);
    }
  }

  /** One pass over the instructions collected so far. */
  method VisitFunctions(g: Cfg, instrs: set<Site>, visited: set<Fn>, toInsert: set<Site>, ghost targets: set<Site>)
    returns (visited': set<Fn>, toInsert': set<Site>)
    requires AllMayRun(g, instrs, targets) && AllMayRun(g, toInsert, targets)
    requires forall f :: f in visited ==> CallSites(g, f) <= toInsert
    ensures forall f :: f in visited' ==> CallSites(g, f) <= toInsert'
    ensures forall x :: x in instrs ==> g.owner(x) in visited'
    ensures toInsert <= toInsert' <= toInsert + set e | e in g.calls :: e.0
    ensures AllMayRun(g, toInsert', targets)
  {
    visited', toInsert' := visited, toInsert;
    var todo := instrs;
    while todo != {}
      invariant todo <= instrs
      invariant forall f :: f in visited' ==> CallSites(g, f) <= toInsert'
      invariant forall x :: x in instrs && x !in todo ==> g.owner(x) in visited'
      invariant toInsert <= toInsert' <= toInsert + set e | e in g.calls :: e.0
      invariant AllMayRun(g, toInsert', targets)
      decreases todo
    {
      var inst :| inst in todo;
      if g.owner(inst) !in visited' {
        visited' := visited' + {g.owner(inst)};
        forall c | c in CallSites(g, g.owner(inst))
          ensures MayRun(g, c, targets)
        {
          MayRunStep(g, c, inst, targets);
        }
        toInsert' := toInsert' + CallSites(g, g.owner(inst));
      }
      todo := todo - {inst};
    }
  }

  lemma {:induction false} ClosedChain(g: Cfg, c: seq<Site>, instrs: set<Site>)
    requires Chain(g, c) && c[|c| - 1] in instrs
    requires forall x :: x in instrs ==> CallSites(g, g.owner(x)) <= instrs
    ensures c[0] in instrs
  {
    if |c| > 1 {
      ClosedChain(g, c[1..], instrs);
      assert (c[0], g.owner(c[1])) in g.calls;
    }
  }

  /** What the test below establishes. */
  ghost predicate AfterAllLoads(g: Cfg, s: Site, loads: set<Site>) {
    forall x, y :: MayRun(g, x, {s}) && MayRun(g, y, loads) && g.owner(x) == g.owner(y) && x != y ==> !Reaches(g, x, y)
  }

  /** Is the store after all loads?  A site that may run both is passed over. */
  method StoreHappensAfterAllLoads(g: Cfg, s: Site, loadsOf: set<Site>, reach: (Site, Site) -> bool) returns (after: bool)
    requires forall x, y :: reach(x, y) <==> Reaches(g, x, y)
    ensures after <==> AfterAllLoads(g, s, loadsOf)
  {
    var loads := GetAllTransitiveInsts(g, loadsOf);
    var stores := GetAllTransitiveInsts(g, {s});
    var todo := loads;
    while todo != {}
      invariant todo <= loads
      invariant forall x, y :: x in stores && y in loads && y !in todo && g.owner(x) == g.owner(y) && x != y ==>
                  !reach(x, y)
      decreases todo
    {
      var l :| l in todo;
      var rest := stores;
      while rest != {}
        invariant rest <= stores
        invariant forall x :: x in stores && x !in rest && g.owner(x) == g.owner(l) && x != l ==> !reach(x, l)
        decreases rest
      {
        var x :| x in rest;
        if g.owner(l) == g.owner(x) && l != x {
          if reach(x, l) {
            return false;
          }
        }
        rest := rest - {x};
      }
      todo := todo - {l};
    }
    return true;
  }

  // ---------------------------------------------------------------- how two moments of a run relate

  ghost predicate StackOk(g: Cfg, a: Stack) {
    a != [] && Chain(g, a)
  }

  /** The frames below index h are the same, and frame h has moved on inside its function. */
  ghost predicate DivergedAt(g: Cfg, a: Stack, b: Stack, h: nat) {
    h < |a| && h < |b| && a[..h] == b[..h] && Reaches(g, a[h], b[h])
  }

  ghost predicate Diverged(g: Cfg, a: Stack, b: Stack) {
    exists h :: DivergedAt(g, a, b, h)
  }

  /** b runs below the call that a is about to make, or a has not moved. */
  predicate Inside(a: Stack, b: Stack) {
    |a| <= |b| && b[..|a|] == a
  }

  lemma InsideStep(g: Cfg, a: Stack, b: Stack, c: Stack)
    requires a != [] && Inside(a, b) && Moves(g, b, c)
    ensures Inside(a, c) || Diverged(g, a, c)
  {
    var n := |a|;
    if Advances(g, b, c) {
      if |b| == n {
        assert (a[n - 1], c[n - 1]) in g.next;
        ReachesStep(g, a[n - 1], a[n - 1], c[n - 1]);
        assert a[..n - 1] == b[..n - 1] == c[..n - 1];
        assert DivergedAt(g, a, c, n - 1);
      } else {
        assert c[..n] == c[..|b| - 1][..n] == b[..|b| - 1][..n] == b[..n];
      }
    } else if Calls(g, b, c) {
      assert c[..n] == c[..|b|][..n] == b[..n];
    } else {
      var m := |b| - 2;
      if m < n {
        ReachesStep(g, a[m], a[m], c[m]);
        assert a[..m] == b[..m] == c[..m];
        assert DivergedAt(g, a, c, m);
      } else {
        assert c[..n] == c[..m][..n] == b[..m][..n] == b[..n];
      }
    }
  }

  lemma DivergedStep(g: Cfg, a: Stack, b: Stack, c: Stack, h: nat)
    requires DivergedAt(g, a, b, h) && Moves(g, b, c)
    ensures Diverged(g, a, c)
  {
    if |c| <= h {
      assert Returns(g, b, c) && |c| == h;
      ReachesStep(g, a[h - 1], a[h - 1], c[h - 1]) by {
        assert a[h - 1] == b[h - 1];
      }
      assert a[..h - 1] == b[..h - 1] == c[..h - 1];
      assert DivergedAt(g, a, c, h - 1);
    } else {
      var n := |b| - if Returns(g, b, c) then 2 else if Calls(g, b, c) then 0 else 1;
      assert h <= n && c[..n] == b[..n];
      assert c[..h] == c[..n][..h] == b[..n][..h] == b[..h];
      if h < n {
        assert c[h] == c[..n][h] == b[..n][h] == b[h];
      } else {
        ReachesStep(g, a[h], b[h], c[h]);
      }
      assert DivergedAt(g, a, c, h);
    }
  }

  /** Of any two moments of a run, either the later one is inside the call that the earlier one is
      about to make, or some frame is common to both and has moved on in between. */
  lemma {:induction false} TwoMoments(g: Cfg, w: seq<Stack>, i: nat, j: nat)
    requires Walk(g, w) && i <= j < |w| && w[i] != []
    ensures Inside(w[i], w[j]) || Diverged(g, w[i], w[j])
    ensures i < j && !IsCall(g, w[i][|w[i]| - 1]) ==> Diverged(g, w[i], w[j])
    decreases j
  {
    if i < j {
      WalkPrefix(g, w, j + 1);
      TwoMoments(g, w, i, j - 1);
      assert Moves(g, w[j - 1], w[j]);
      if Diverged(g, w[i], w[j - 1]) {
        var h :| DivergedAt(g, w[i], w[j - 1], h);
        DivergedStep(g, w[i], w[j - 1], w[j], h);
      } else {
        InsideStep(g, w[i], w[j - 1], w[j]);
        if i == j - 1 && !IsCall(g, w[i][|w[i]| - 1]) {
          NoCallMeansMoved(g, w[i], w[j]);
        }
      }
    }
  }

  lemma NoCallMeansMoved(g: Cfg, a: Stack, b: Stack)
    requires a != [] && Moves(g, a, b) && !IsCall(g, a[|a| - 1])
    ensures Diverged(g, a, b)
  {
    var n := |a| - 1;
    assert !Calls(g, a, b);
    if Advances(g, a, b) {
      ReachesStep(g, a[n], a[n], b[n]);
      assert DivergedAt(g, a, b, n);
    } else {
      ReachesStep(g, a[n - 1], a[n - 1], b[n - 1]);
      assert DivergedAt(g, a, b, n - 1);
    }
  }

  lemma {:induction false} WalkPrefix(g: Cfg, w: seq<Stack>, n: nat)
    requires Walk(g, w) && 0 < n <= |w|
    ensures Walk(g, w[..n])
    ensures n > 1 ==> Moves(g, w[n - 2], w[n - 1])
    decreases |w| - n
  {
    if n == |w| {
      assert w[..n] == w;
    } else {
      WalkPrefix(g, w, n + 1);
      assert w[..n + 1][..n] == w[..n];
    }
  }

  /** A stack is a chain of calls, so the sites below the top may run what the top runs. */
  lemma {:induction false} ChainSnoc(g: Cfg, c: seq<Site>, x: Site)
    requires Chain(g, c) && (c[|c| - 1], g.owner(x)) in g.calls
    ensures Chain(g, c + [x])
  {
    if |c| > 1 {
      ChainSnoc(g, c[1..], x);
      assert (c + [x])[1..] == c[1..] + [x];
    } else {
      assert (c + [x])[1..] == [x];
    }
  }

  lemma {:induction false} ChainFront(g: Cfg, c: seq<Site>, n: nat)
    requires Chain(g, c) && 0 < n <= |c|
    ensures Chain(g, c[..n])
    ensures n < |c| ==> (c[n - 1], g.owner(c[n])) in g.calls
  {
    if n > 1 {
      ChainFront(g, c[1..], n - 1);
      assert c[..n][1..] == c[1..][..n - 1];
    }
  }

  lemma {:induction false} ChainDrop(g: Cfg, c: seq<Site>, n: nat)
    requires Chain(g, c) && n < |c|
    ensures Chain(g, c[n..])
  {
    if n > 0 {
      ChainDrop(g, c[1..], n - 1);
      assert c[1..][n - 1..] == c[n..];
    }
  }

  lemma ChainTop(g: Cfg, c: seq<Site>, y: Site)
    requires Chain(g, c) && g.owner(y) == g.owner(c[|c| - 1])
    ensures Chain(g, c[..|c| - 1] + [y])
  {
    var n := |c| - 1;
    if n > 0 {
      ChainFront(g, c, n);
      ChainSnoc(g, c[..n], y);
    }
  }

  lemma StackStep(g: Cfg, a: Stack, b: Stack)
    requires WellFormed(g) && StackOk(g, a) && Moves(g, a, b)
    ensures StackOk(g, b)
  {
    if Advances(g, a, b) {
      ChainTop(g, a, b[|a| - 1]);
      assert b == a[..|a| - 1] + [b[|a| - 1]];
    } else if Calls(g, a, b) {
      ChainSnoc(g, a, b[|a|]);
      assert b == a + [b[|a|]];
    } else {
      var n := |a| - 2;
      ChainFront(g, a, n + 1);
      ChainTop(g, a[..n + 1], b[n]);
      assert b == a[..n + 1][..n] + [b[n]];
    }
  }

  lemma {:induction false} StacksAreChains(g: Cfg, w: seq<Stack>)
    requires WellFormed(g) && Walk(g, w) && Chain(g, w[0])
    ensures forall a :: a in w ==> StackOk(g, a)
  {
    var n := |w| - 1;
    if n > 0 {
      StacksAreChains(g, w[..n]);
      assert w[..n][n - 1] in w[..n];
      StackStep(g, w[n - 1], w[n]);
      assert w == w[..n] + [w[n]];
    }
  }

  lemma StackMayRun(g: Cfg, a: Stack, h: nat, targets: set<Site>)
    requires StackOk(g, a) && h < |a| && a[|a| - 1] in targets
    ensures MayRun(g, a[h], targets)
  {
    ChainDrop(g, a, h);
    assert ChainTo(g, a[h..], a[h], targets);
  }

  lemma {:induction false} PathKeepsOwner(g: Cfg, p: seq<Site>)
    requires WellFormed(g) && Path(g, p)
    ensures g.owner(p[0]) == g.owner(p[|p| - 1])
  {
    if |p| > 1 {
      PathKeepsOwner(g, p[..|p| - 1]);
    }
  }

  // ---------------------------------------------------------------- when the analysis is right

  /** No site that may run both the store and a load can be reached again from itself. */
  ghost predicate NoSharedLoop(g: Cfg, s: Site, loads: set<Site>) {
    forall x :: MayRun(g, x, {s}) && MayRun(g, x, loads) ==> !Reaches(g, x, x)
  }

  /** Stacks of a store and of a load that run after each other show a path that the test looks for. */
  lemma DivergedIsFound(g: Cfg, a: Stack, b: Stack, h: nat, s: Site, loads: set<Site>)
    requires WellFormed(g) && StackOk(g, b) && DivergedAt(g, a, b, h)
    requires MayRun(g, a[h], {s}) && b[|b| - 1] in loads
    ensures !AfterAllLoads(g, s, loads) || !NoSharedLoop(g, s, loads)
  {
    var p :| |p| > 1 && PathFrom(g, p, a[h], b[h]);
    PathKeepsOwner(g, p);
    StackMayRun(g, b, h, loads);
  }

  ghost predicate Follows(g: Cfg, main: Fn, w: seq<Stack>, i: nat, j: nat, s: Site, l: Site) {
    Walk(g, w) && w[0] == [g.entry(main)] && i < j < |w| && Runs(w[i], s) && Runs(w[j], l)
  }

  /** Some run executes the load after the store. */
  ghost predicate MayFollow(g: Cfg, main: Fn, s: Site, l: Site) {
    exists w, i: nat, j: nat :: Follows(g, main, w, i, j, s, l)
  }

  /** In no run does a load come after the store. */
  lemma NoLoadAfter(g: Cfg, main: Fn, s: Site, loads: set<Site>, l: Site)
    requires WellFormed(g) && !IsCall(g, s) && l in loads
    requires AfterAllLoads(g, s, loads) && NoSharedLoop(g, s, loads)
    ensures !MayFollow(g, main, s, l)
  {
    if MayFollow(g, main, s, l) {
      var w, i: nat, j: nat :| Follows(g, main, w, i, j, s, l);
      StacksAreChains(g, w);
      assert w[i] in w && w[j] in w;
      TwoMoments(g, w, i, j);
      var h :| DivergedAt(g, w[i], w[j], h);
      StackMayRun(g, w[i], h, {s});
      DivergedIsFound(g, w[i], w[j], h, s, loads);
    }
  }

  // ---------------------------------------------------------------- and when it is not

  ghost predicate IsStarted(g: Cfg, main: Fn, f: Fn) {
    exists below: Stack :: CanLead(g, [g.entry(main)], below + [g.entry(f)])
  }

  ghost predicate IsReached(g: Cfg, x: Site) {
    CanLead(g, [g.entry(g.owner(x))], [x])
  }

  ghost predicate CanReturn(g: Cfg, x: Site) {
    exists e: Site :: e in g.exits && CanLead(g, [x], [e])
  }

  ghost predicate HasNext(g: Cfg, x: Site) {
    exists y: Site :: (x, y) in g.next
  }

  /** Every function is started in some run, every instruction can be reached in its function, and
      from every instruction the function can return. */
  ghost predicate Connected(g: Cfg, main: Fn) {
    WellFormed(g) && AllStarted(g, main) && AllReached(g) && AllReturn(g) && CallsGoOn(g)
  }

  ghost predicate AllStarted(g: Cfg, main: Fn) {
    forall f {:trigger IsStarted(g, main, f)} :: f in g.fns ==> IsStarted(g, main, f)
  }

  ghost predicate AllReached(g: Cfg) {
    forall x {:trigger IsReached(g, x)} :: x in g.sites ==> IsReached(g, x)
  }

  ghost predicate AllReturn(g: Cfg) {
    forall x {:trigger CanReturn(g, x)} :: x in g.sites ==> CanReturn(g, x)
  }

  ghost predicate CallsGoOn(g: Cfg) {
    forall x {:trigger HasNext(g, x)} :: IsCall(g, x) ==> HasNext(g, x)
  }

  lemma {:induction false} Concat(g: Cfg, v: seq<Stack>, w: seq<Stack>)
    requires Walk(g, v) && Walk(g, w) && v[|v| - 1] == w[0]
    ensures Walk(g, v + w[1..])
  {
    if |w| == 1 {
      assert v + w[1..] == v;
    } else {
      var n := |w| - 1;
      Concat(g, v, w[..n]);
      assert (v + w[1..])[..|v| + n - 1] == v + w[..n][1..];
      assert (v + w[1..])[|v| + n - 2] == w[n - 1];
    }
  }

  lemma Then(g: Cfg, a: Stack, b: Stack, c: Stack)
    requires CanLead(g, a, b) && CanLead(g, b, c)
    ensures CanLead(g, a, c)
  {
    var v :| Leads(g, v, a, b);
    var w :| Leads(g, w, b, c);
    Concat(g, v, w);
    assert Leads(g, v + w[1..], a, c);
  }

  lemma ThenMove(g: Cfg, a: Stack, b: Stack, c: Stack)
    requires CanLead(g, a, b) && Moves(g, b, c)
    ensures CanLead(g, a, c)
  {
    var v :| Leads(g, v, a, b);
    assert (v + [c])[..|v|] == v;
    assert Leads(g, v + [c], a, c);
  }

  lemma Stay(g: Cfg, a: Stack)
    requires a != []
    ensures CanLead(g, a, a)
  {
    assert Leads(g, [a], a, a);
  }

  lemma LiftMove(g: Cfg, below: Stack, a: Stack, b: Stack)
    requires Moves(g, a, b)
    ensures Moves(g, below + a, below + b)
  {
    var n := |below|;
    if Advances(g, a, b) {
      assert (below + b)[..n + |a| - 1] == below + b[..|a| - 1] == below + a[..|a| - 1] == (below + a)[..n + |a| - 1];
      assert Advances(g, below + a, below + b);
    } else if Calls(g, a, b) {
      assert (below + b)[..n + |a|] == below + b[..|a|];
      assert Calls(g, below + a, below + b);
    } else {
      assert (below + b)[..n + |a| - 2] == below + b[..|a| - 2] == below + a[..|a| - 2] == (below + a)[..n + |a| - 2];
      assert Returns(g, below + a, below + b);
    }
  }

  /** What a function does, it can do on top of any stack. */
  lemma {:induction false} Lift(g: Cfg, below: Stack, w: seq<Stack>)
    requires Walk(g, w)
    ensures CanLead(g, below + w[0], below + w[|w| - 1])
  {
    var n := |w| - 1;
    if n == 0 {
      Stay(g, below + w[0]);
    } else {
      Lift(g, below, w[..n]);
      LiftMove(g, below, w[n - 1], w[n]);
      ThenMove(g, below + w[0], below + w[n - 1], below + w[n]);
    }
  }

  lemma LiftLead(g: Cfg, below: Stack, x: Site, y: Site)
    requires CanLead(g, [x], [y])
    ensures CanLead(g, below + [x], below + [y])
  {
    var w :| Leads(g, w, [x], [y]);
    Lift(g, below, w);
  }

  /** The frame of x finishes and the one below it goes on with y. */
  lemma Finish(g: Cfg, below: Stack, z: Site, x: Site, y: Site)
    requires (z, y) in g.next
    requires CanReturn(g, x)
    ensures CanLead(g, below + [z, x], below + [y])
  {
    var e: Site :| e in g.exits && CanLead(g, [x], [e]);
    LiftLead(g, below + [z], x, e);
    assert below + [z] + [x] == below + [z, x] && below + [z] + [e] == below + [z, e];
    assert (below + [z, e])[..|below|] == below == (below + [y])[..|below|];
    assert Returns(g, below + [z, e], below + [y]);
    ThenMove(g, below + [z, x], below + [z, e], below + [y]);
  }

  /** An edge can be taken whatever is called on the way. */
  lemma TakeEdge(g: Cfg, main: Fn, below: Stack, x: Site, y: Site)
    requires Connected(g, main) && (x, y) in g.next
    ensures CanLead(g, below + [x], below + [y])
  {
    Stay(g, below + [x]);
    if IsCall(g, x) {
      var f :| (x, f) in g.calls;
      assert g.entry(f) in g.sites;
      assert below + [x] + [g.entry(f)] == below + [x, g.entry(f)];
      assert Calls(g, below + [x], below + [x, g.entry(f)]) by {
        assert (below + [x, g.entry(f)])[..|below| + 1] == below + [x];
      }
      ThenMove(g, below + [x], below + [x], below + [x, g.entry(f)]);
      assert CanReturn(g, g.entry(f));
      Finish(g, below, x, g.entry(f), y);
      Then(g, below + [x], below + [x, g.entry(f)], below + [y]);
    } else {
      assert Advances(g, below + [x], below + [y]);
      ThenMove(g, below + [x], below + [x], below + [y]);
    }
  }

  lemma {:induction false} TakePath(g: Cfg, main: Fn, below: Stack, p: seq<Site>)
    requires Connected(g, main) && Path(g, p)
    ensures CanLead(g, below + [p[0]], below + [p[|p| - 1]])
  {
    var n := |p| - 1;
    if n == 0 {
      Stay(g, below + [p[0]]);
    } else {
      TakePath(g, main, below, p[..n]);
      TakeEdge(g, main, below, p[n - 1], p[n]);
      Then(g, below + [p[0]], below + [p[n - 1]], below + [p[n]]);
    }
  }

  lemma {:induction false} PathDropFirst(g: Cfg, p: seq<Site>)
    requires Path(g, p) && |p| > 1
    ensures Path(g, p[1..]) && (p[0], p[1]) in g.next
  {
    var n := |p| - 1;
    if n > 1 {
      PathDropFirst(g, p[..n]);
      assert p[1..][..n - 1] == p[..n][1..];
    } else {
      assert |p[1..]| == 1;
    }
  }

  lemma {:induction false} ChainSites(g: Cfg, c: seq<Site>)
    requires WellFormed(g) && Chain(g, c) && c[|c| - 1] in g.sites
    ensures forall x :: x in c ==> x in g.sites
  {
    if |c| > 1 {
      ChainSites(g, c[1..]);
      assert (c[0], g.owner(c[1])) in g.calls;
      assert forall x :: x in c ==> x == c[0] || x in c[1..];
    }
  }

  lemma SecondSite(g: Cfg, c: seq<Site>)
    requires WellFormed(g) && Chain(g, c) && c[|c| - 1] in g.sites && |c| > 1
    ensures c[1] in g.sites
  {
    ChainSites(g, c);
  }

  /** The call at x is made, and the callee comes to y. */
  lemma EnterCallee(g: Cfg, main: Fn, below: Stack, x: Site, y: Site)
    requires Connected(g, main) && (x, g.owner(y)) in g.calls && y in g.sites
    ensures CanLead(g, below + [x], below + [x] + [y])
  {
    var on, e := below + [x], g.entry(g.owner(y));
    Stay(g, on);
    assert Calls(g, on, on + [e]);
    ThenMove(g, on, on, on + [e]);
    assert IsReached(g, y);
    LiftLead(g, on, e, y);
    Then(g, on, on + [e], on + [y]);
  }

  /** A chain of calls can be followed down. */
  lemma {:induction false} Descend(g: Cfg, main: Fn, below: Stack, c: seq<Site>)
    requires Connected(g, main) && Chain(g, c) && c[|c| - 1] in g.sites
    ensures CanLead(g, below + [c[0]], below + c)
    decreases |c|
  {
    if |c| == 1 {
      Stay(g, below + [c[0]]);
      assert c == [c[0]];
    } else {
      var on := below + [c[0]];
      SecondSite(g, c);
      EnterCallee(g, main, below, c[0], c[1]);
      Descend(g, main, on, c[1..]);
      Then(g, on, on + [c[1]], on + c[1..]);
      assert on + c[1..] == below + c;
    }
  }

  /** A stack can be taken down to its first frame, which goes on with y. */
  lemma {:induction false} Unwind(g: Cfg, main: Fn, below: Stack, c: seq<Site>, y: Site)
    requires Connected(g, main) && |c| > 1 && (c[0], y) in g.next
    requires (forall k :: 0 <= k < |c| - 1 ==> IsCall(g, c[k])) && c[|c| - 1] in g.sites
    ensures CanLead(g, below + c, below + [y])
    decreases |c|
  {
    var n := |c| - 1;
    var on := below + c[..n - 1];
    assert below + c == on + [c[n - 1], c[n]];
    if n == 1 {
      assert on == below && CanReturn(g, c[1]);
      Finish(g, below, c[0], c[1], y);
    } else {
      assert HasNext(g, c[n - 1]) && CanReturn(g, c[n]);
      var z: Site :| (c[n - 1], z) in g.next;
      Finish(g, on, c[n - 1], c[n], z);
      assert on + [z] == below + (c[..n - 1] + [z]);
      Unwind(g, main, below, c[..n - 1] + [z], y);
      Then(g, below + c, on + [z], below + [y]);
    }
  }

  lemma {:induction false} ChainsCall(g: Cfg, c: seq<Site>)
    requires Chain(g, c)
    ensures forall k :: 0 <= k < |c| - 1 ==> IsCall(g, c[k])
  {
    if |c| > 1 {
      ChainsCall(g, c[1..]);
      forall k | 0 <= k < |c| - 1
        ensures IsCall(g, c[k])
      {
        assert k > 0 ==> c[k] == c[1..][k - 1];
        assert (c[0], g.owner(c[1])) in g.calls;
      }
    }
  }

  ghost predicate LeadsOn(g: Cfg, a: Stack, b: Stack) {
    exists w :: |w| > 1 && Leads(g, w, a, b)
  }

  /** From the store, run by a chain that starts at x, the run goes on behind x. */
  lemma LeaveStore(g: Cfg, main: Fn, below: Stack, c: seq<Site>, y: Site)
    requires Connected(g, main) && Chain(g, c) && !IsCall(g, c[|c| - 1]) && (c[0], y) in g.next
    requires c[|c| - 1] in g.sites
    ensures LeadsOn(g, below + c, below + [y])
  {
    if |c| == 1 {
      var w := [below + c, below + [y]];
      assert Advances(g, w[0], w[1]) && w[..1] == [w[0]];
      assert Leads(g, w, w[0], w[1]);
    } else {
      ChainsCall(g, c);
      Unwind(g, main, below, c, y);
      var w :| Leads(g, w, below + c, below + [y]);
      assert |below + c| != |below + [y]|;
    }
  }

  lemma {:induction false} Started(g: Cfg, main: Fn, x: Site) returns (below: Stack)
    requires Connected(g, main) && x in g.sites
    ensures CanLead(g, [g.entry(main)], below + [x])
  {
    assert IsStarted(g, main, g.owner(x)) && IsReached(g, x);
    below :| CanLead(g, [g.entry(main)], below + [g.entry(g.owner(x))]);
    LiftLead(g, below, g.entry(g.owner(x)), x);
    Then(g, [g.entry(main)], below + [g.entry(g.owner(x))], below + [x]);
  }

  lemma RunStore(g: Cfg, main: Fn, below: Stack, x: Site, s: Site, y: Site) returns (a: Stack)
    requires Connected(g, main) && CanLead(g, [g.entry(main)], below + [x])
    requires s in g.sites && MayRun(g, x, {s}) && !IsCall(g, s) && (x, y) in g.next
    ensures CanLead(g, [g.entry(main)], a) && Runs(a, s) && LeadsOn(g, a, below + [y])
  {
    var c :| ChainTo(g, c, x, {s});
    Descend(g, main, below, c);
    Then(g, [g.entry(main)], below + [x], below + c);
    LeaveStore(g, main, below, c, y);
    a := below + c;
  }

  lemma RunLoad(g: Cfg, main: Fn, below: Stack, p: seq<Site>, loads: set<Site>) returns (a: Stack, l: Site)
    requires Connected(g, main) && Path(g, p) && MayRun(g, p[|p| - 1], loads) && loads <= g.sites
    ensures l in loads && CanLead(g, below + [p[0]], a) && Runs(a, l)
  {
    var c :| ChainTo(g, c, p[|p| - 1], loads);
    TakePath(g, main, below, p);
    Descend(g, main, below, c);
    Then(g, below + [p[0]], below + [c[0]], below + c);
    a, l := below + c, c[|c| - 1];
  }

  /** A path that the test looks for, also one from a site to itself, is a run in which a load comes
      after the store. */
  lemma PathIsRun(g: Cfg, main: Fn, s: Site, loads: set<Site>, x: Site, y: Site)
    requires Connected(g, main) && s in g.sites && loads <= g.sites && !IsCall(g, s)
    requires MayRun(g, x, {s}) && MayRun(g, y, loads) && Reaches(g, x, y)
    ensures exists l :: l in loads && MayFollow(g, main, s, l)
  {
    var p :| |p| > 1 && PathFrom(g, p, x, y);
    PathDropFirst(g, p);
    assert (x, p[1]) in g.next;
    var below := Started(g, main, x);
    var a := RunStore(g, main, below, x, s, p[1]);
    var c, l := RunLoad(g, main, below, p[1..], loads);
    JoinedRun(g, main, a, below + [p[1]], c, s, l);
  }

  lemma JoinedRun(g: Cfg, main: Fn, a: Stack, b: Stack, c: Stack, s: Site, l: Site)
    requires CanLead(g, [g.entry(main)], a) && LeadsOn(g, a, b) && CanLead(g, b, c) && Runs(a, s) && Runs(c, l)
    ensures MayFollow(g, main, s, l)
  {
    var u :| Leads(g, u, [g.entry(main)], a);
    var v :| |v| > 1 && Leads(g, v, a, b);
    var w :| Leads(g, w, b, c);
    Concat(g, v, w);
    var t := v + w[1..];
    Concat(g, u, t);
    assert (u + t[1..])[|u| + |t| - 2] == t[|t| - 1];
    assert Follows(g, main, u + t[1..], |u| - 1, |u| + |t| - 2, s, l);
  }

  /** The exact condition.  The test passes over sites that may run both the store and a load; this
      is right if and only if none of them lies on a loop. */
  lemma NeverLoadedIff(g: Cfg, main: Fn, s: Site, loads: set<Site>)
    requires Connected(g, main) && s in g.sites && loads <= g.sites && !IsCall(g, s)
    ensures (forall l :: l in loads ==> !MayFollow(g, main, s, l)) <==>
            AfterAllLoads(g, s, loads) && NoSharedLoop(g, s, loads)
  {
    if AfterAllLoads(g, s, loads) && NoSharedLoop(g, s, loads) {
      forall l | l in loads
        ensures !MayFollow(g, main, s, l)
      {
        NoLoadAfter(g, main, s, loads, l);
      }
    } else {
      var x, y :| MayRun(g, x, {s}) && MayRun(g, y, loads) && Reaches(g, x, y);
      PathIsRun(g, main, s, loads, x, y);
    }
  }

  // ---------------------------------------------------------------- a store that is dropped too early

  /** Function 0 calls function 1 in a loop (sites 0, 1, 2); function 1 loads at 10, stores at 11 and
      returns at 12. */
  function LoopedCall(): Cfg {
    Cfg({0, 1, 2, 10, 11, 12}, {0, 1}, x => if x < 10 then 0 else 1, {(0, 1), (1, 0), (1, 2), (10, 11), (11, 12)}, {(0, 1)},
        f => if f == 0 then 0 else 10, {2, 12})
  }

  lemma {:induction false} OnlyReturnFollows(p: seq<Site>)
    requires Path(LoopedCall(), p) && p[0] == 11
    ensures p[|p| - 1] == 11 || p[|p| - 1] == 12
  {
    if |p| > 1 {
      OnlyReturnFollows(p[..|p| - 1]);
    }
  }

  lemma Grow(w: seq<Stack>, b: Stack) returns (w': seq<Stack>)
    requires Walk(LoopedCall(), w) && Moves(LoopedCall(), w[|w| - 1], b)
    ensures Walk(LoopedCall(), w') && w' == w + [b]
  {
    w' := w + [b];
    assert w'[..|w|] == w;
  }

  lemma CallInLoop()
    ensures Moves(LoopedCall(), [0], [0, 10])
  {
    var g, a, b := LoopedCall(), [0], [0, 10];
    assert b[..1] == a;
    assert (a[0], 1) in g.calls && b[1] == g.entry(1);
    assert Calls(g, a, b);
  }

  lemma LoopRun() returns (w: seq<Stack>)
    ensures Walk(LoopedCall(), w) && |w| == 7 && w[0] == [0] && w[2] == [0, 11] && w[6] == [0, 10]
  {
    var g := LoopedCall();
    CallInLoop();
    w := [[0]];
    w := Grow(w, [0, 10]);
    w := Grow(w, [0, 11]);
    w := Grow(w, [0, 12]);
    assert Returns(g, [0, 12], [1]);
    w := Grow(w, [1]);
    assert Advances(g, [1], [0]);
    w := Grow(w, [0]);
    w := Grow(w, [0, 10]);
  }

  /** What the second function does, it does on its own as well as for the first one. */
  lemma SecondFunction(below: Stack)
    ensures CanLead(LoopedCall(), below + [10], below + [11]) && CanLead(LoopedCall(), below + [11], below + [12])
    ensures CanLead(LoopedCall(), below + [10], below + [12])
  {
    var g := LoopedCall();
    Stay(g, below + [10]);
    Stay(g, below + [11]);
    assert Advances(g, below + [10], below + [11]) && Advances(g, below + [11], below + [12]);
    ThenMove(g, below + [10], below + [10], below + [11]);
    ThenMove(g, below + [11], below + [11], below + [12]);
    Then(g, below + [10], below + [11], below + [12]);
  }

  lemma FirstFunction()
    ensures CanLead(LoopedCall(), [0], [0, 10]) && CanLead(LoopedCall(), [0], [1])
    ensures CanLead(LoopedCall(), [1], [2]) && CanLead(LoopedCall(), [0], [2])
  {
    var g := LoopedCall();
    CallInLoop();
    Stay(g, [0]);
    Stay(g, [1]);
    ThenMove(g, [0], [0], [0, 10]);
    SecondFunction([0]);
    assert [0] + [10] == [0, 10] && [0] + [12] == [0, 12];
    Then(g, [0], [0, 10], [0, 12]);
    assert Returns(g, [0, 12], [1]);
    ThenMove(g, [0], [0, 12], [1]);
    assert Advances(g, [1], [2]);
    ThenMove(g, [1], [1], [2]);
    Then(g, [0], [1], [2]);
  }

  lemma LoopedCallIsWellFormed()
    ensures WellFormed(LoopedCall())
  {
  }

  lemma FirstIsReached(x: Site)
    requires x == 0 || x == 1 || x == 2
    ensures CanLead(LoopedCall(), [0], [x]) && CanLead(LoopedCall(), [x], [2])
  {
    Stay(LoopedCall(), [x]);
    FirstFunction();
  }

  lemma SecondIsReached(x: Site)
    requires x == 10 || x == 11 || x == 12
    ensures CanLead(LoopedCall(), [10], [x]) && CanLead(LoopedCall(), [x], [12])
  {
    Stay(LoopedCall(), [x]);
    SecondFunction([]);
    assert [] + [10] == [10] && [] + [11] == [11] && [] + [12] == [12];
  }

  lemma SitesAreReached(x: Site)
    requires x in LoopedCall().sites
    ensures IsReached(LoopedCall(), x) && CanReturn(LoopedCall(), x)
  {
    if x < 10 {
      FirstIsReached(x);
    } else {
      SecondIsReached(x);
    }
    assert 2 in LoopedCall().exits && 12 in LoopedCall().exits;
  }

  lemma FunctionsAreStarted()
    ensures IsStarted(LoopedCall(), 0, 0) && IsStarted(LoopedCall(), 0, 1)
  {
    var g := LoopedCall();
    FirstFunction();
    Stay(g, [0]);
    assert [] + [0] == [0] && [0] + [10] == [0, 10];
    assert CanLead(g, [g.entry(0)], [] + [g.entry(0)]);
    assert CanLead(g, [g.entry(0)], [0] + [g.entry(1)]);
  }

  lemma CallIsPassed()
    ensures CallsGoOn(LoopedCall())
  {
    assert (0, 1) in LoopedCall().next;
    assert HasNext(LoopedCall(), 0);
  }

  lemma EverythingIsReached()
    ensures AllReached(LoopedCall())
  {
    forall x | x in LoopedCall().sites
      ensures IsReached(LoopedCall(), x)
    {
      SitesAreReached(x);
    }
  }

  lemma EverythingReturns()
    ensures AllReturn(LoopedCall())
  {
    forall x | x in LoopedCall().sites
      ensures CanReturn(LoopedCall(), x)
    {
      SitesAreReached(x);
    }
  }

  lemma EverythingIsStarted()
    ensures AllStarted(LoopedCall(), 0)
  {
    FunctionsAreStarted();
  }

  lemma LoopedCallIsConnected()
    ensures Connected(LoopedCall(), 0)
  {
    LoopedCallIsWellFormed();
    EverythingIsStarted();
    EverythingIsReached();
    EverythingReturns();
    CallIsPassed();
  }

  lemma PassesTheTest()
    ensures AfterAllLoads(LoopedCall(), 11, {10})
  {
    var g := LoopedCall();
    forall x, y | MayRun(g, x, {11}) && MayRun(g, y, {10}) && g.owner(x) == g.owner(y) && x != y
      ensures !Reaches(g, x, y)
    {
      var c :| ChainTo(g, c, x, {11});
      ClosedChain(g, c, {11, 0});
      var d :| ChainTo(g, d, y, {10});
      ClosedChain(g, d, {10, 0});
      if Reaches(g, x, y) {
        var p :| |p| > 1 && PathFrom(g, p, x, y);
        OnlyReturnFollows(p);
      }
    }
  }

  /** In a well-formed program in which everything can be reached, the test says that no load comes
      after the store, and the second round of the loop loads; the call site is shared and on a loop. */
  lemma LoopReloads()
    ensures Connected(LoopedCall(), 0) && !IsCall(LoopedCall(), 11)
    ensures AfterAllLoads(LoopedCall(), 11, {10}) && !NoSharedLoop(LoopedCall(), 11, {10})
    ensures MayFollow(LoopedCall(), 0, 11, 10)
  {
    LoopedCallIsConnected();
    PassesTheTest();
    SharedSite();
    var w := LoopRun();
    assert Follows(LoopedCall(), 0, w, 2, 6, 11, 10);
  }

  lemma SharedSite()
    ensures var g := LoopedCall(); MayRun(g, 0, {11}) && MayRun(g, 0, {10}) && Reaches(g, 0, 0)
  {
    var g := LoopedCall();
    MayRunSelf(g, 11, {11});
    MayRunSelf(g, 10, {10});
    MayRunStep(g, 0, 11, {11});
    MayRunStep(g, 0, 10, {10});
    ReachesStep(g, 0, 0, 1);
    ReachesStep(g, 0, 1, 0);
  }
}
