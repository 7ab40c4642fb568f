/**
Searches over the call graph: which functions can throw an exception, and which pointers a function
and everything that it calls may write.
*/
module FunctionAnalysis {
  type Fn = nat
  type Ptr = nat

  /** A call and its possible targets; calls that write to cout are not followed. */
  datatype Call = Call(targets: set<Fn>, toCout: bool)

  datatype Func =
    | Harmless                                     // nounwind, an allocation, MPI or an intrinsic
    | Unknown                                      // a declaration, or part of the standard library
    | Body(calls: seq<Call>, written: set<Ptr>)

  type Module = map<Fn, Func>

  ghost predicate Closed(m: Module) {
    forall f, k: nat :: f in m && m[f].Body? && k < |m[f].calls| ==> m[f].calls[k].targets <= m.Keys
  }

  // ---------------------------------------------------------------- what cannot throw

  /** f calls another function g through its k-th call. */
  predicate CallsOther(m: Module, f: Fn, k: nat, g: Fn) {
    f in m && m[f].Body? && k < |m[f].calls| && !m[f].calls[k].toCout && g in m[f].calls[k].targets && g != f
  }

  /** Chains of calls from one function to another. */
  ghost predicate Chain(m: Module, w: seq<Fn>) {
    w != [] && w[0] in m && (|w| > 1 ==> Chain(m, w[1..]) && exists k: nat :: CallsOther(m, w[0], k, w[1]))
  }

  ghost predicate EndsWell(m: Module, w: seq<Fn>, n: nat) {
    w != [] && w[|w| - 1] in m && !m[w[|w| - 1]].Unknown? && (m[w[|w| - 1]].Body? ==> |w| <= n)
  }

  /** Following calls to other functions, no unknown function is met and after n calls all end. */
  ghost predicate NoThrow(m: Module, f: Fn, n: nat)
    requires Closed(m) && f in m
    decreases n
  {
    match m[f]
    case Harmless => true
    case Unknown => false
    case Body(_, _) => n > 0 && forall k: nat, g :: CallsOther(m, f, k, g) ==> NoThrow(m, g, n - 1)
  }

  ghost predicate CannotThrow(m: Module, f: Fn)
    requires Closed(m) && f in m
  {
    exists n: nat :: NoThrow(m, f, n)
  }

  lemma {:induction false} NoThrowGrows(m: Module, f: Fn, n: nat, n': nat)
    requires Closed(m) && f in m && NoThrow(m, f, n) && n <= n'
    ensures NoThrow(m, f, n')
    decreases n
  {
    if m[f].Body? {
      forall k: nat, g | CallsOther(m, f, k, g)
        ensures NoThrow(m, g, n' - 1)
      {
        NoThrowGrows(m, g, n - 1, n' - 1);
      }
    }
  }

  /** What the verdict means: along every chain of calls to other functions no unknown function is met,
      and the chains have bounded length. */
  lemma {:induction false} NoThrowIff(m: Module, f: Fn, n: nat)
    requires Closed(m) && f in m
    ensures NoThrow(m, f, n) <==> forall w :: Chain(m, w) && w[0] == f ==> EndsWell(m, w, n)
    decreases n
  {
    if NoThrow(m, f, n) {
      forall w | Chain(m, w) && w[0] == f
        ensures EndsWell(m, w, n)
      {
        if |w| > 1 {
          var k: nat :| CallsOther(m, f, k, w[1]);
          NoThrowIff(m, w[1], n - 1);
          assert EndsWell(m, w[1..], n - 1);
        }
      }
    } else {
      assert Chain(m, [f]);
      if m[f].Body? && n > 0 {
        var k: nat, g :| CallsOther(m, f, k, g) && !NoThrow(m, g, n - 1);
        NoThrowIff(m, g, n - 1);
        var w :| Chain(m, w) && w[0] == g && !EndsWell(m, w, n - 1);
        assert ([f] + w)[1..] == w;
        assert Chain(m, [f] + w) && !EndsWell(m, [f] + w, n);
      } else {
        assert !EndsWell(m, [f], n);
      }
    }
  }

  /** a needs more calls to end than f. */
  ghost predicate Above(m: Module, a: Fn, f: Fn)
    requires Closed(m) && a in m && f in m
  {
    forall n: nat :: NoThrow(m, a, n) ==> n > 0 && NoThrow(m, f, n - 1)
  }

  lemma CallerIsAbove(m: Module, f: Fn, k: nat, g: Fn)
    requires Closed(m) && f in m && CallsOther(m, f, k, g)
    ensures g in m && Above(m, f, g)
  {
  }

  lemma AboveTransitive(m: Module, a: Fn, f: Fn, g: Fn)
    requires Closed(m) && a in m && f in m && g in m && Above(m, a, f) && Above(m, f, g)
    ensures Above(m, a, g)
  {
    forall n: nat | NoThrow(m, a, n)
      ensures n > 0 && NoThrow(m, g, n - 1)
    {
      NoThrowGrows(m, g, n - 2, n - 1);
    }
  }

  /** A call back to a function that is being analysed: that function cannot be cleared. */
  lemma {:induction false} CycleIsNotCleared(m: Module, f: Fn, c: Fn, n: nat)
    requires Closed(m) && f in m && c in m && Above(m, c, f) && Above(m, f, c)
    ensures !NoThrow(m, f, n)
    decreases n
  {
    if NoThrow(m, f, n) {
      CycleIsNotCleared(m, f, c, n - 2);
    }
  }

  // ---------------------------------------------------------------- the search

  ghost predicate AllCannotThrow(m: Module, cleared: set<Fn>)
    requires Closed(m)
  {
    forall f :: f in cleared ==> f in m && CannotThrow(m, f)
  }

  /** Everything that is being analysed leads to f. */
  ghost predicate LeadsTo(m: Module, analyzing: set<Fn>, f: Fn)
    requires Closed(m) && f in m
  {
    forall a :: a in analyzing ==> a in m && Above(m, a, f)
  }

  ghost predicate CalleesCleared(m: Module, f: Fn, k: nat, todo: set<Fn>, cleared: set<Fn>) {
    forall g :: CallsOther(m, f, k, g) && g !in todo ==> g in cleared
  }

  /** If all other functions that f calls cannot throw, then neither can f. */
  lemma {:induction false} BoundTargets(m: Module, ts: set<Fn>) returns (n: nat)
    requires Closed(m) && forall g :: g in ts ==> g in m && CannotThrow(m, g)
    ensures forall g :: g in ts ==> NoThrow(m, g, n)
  {
    if ts == {} {
      n := 0;
    } else {
      var g :| g in ts;
      var n0 := BoundTargets(m, ts - {g});
      var n1: nat :| NoThrow(m, g, n1);
      n := n0 + n1;
      forall h | h in ts
        ensures NoThrow(m, h, n)
      {
        NoThrowGrows(m, h, if h == g then n1 else n0, n);
      }
    }
  }

  lemma CalleesDecide(m: Module, f: Fn, cleared: set<Fn>)
    requires Closed(m) && f in m && m[f].Body? && AllCannotThrow(m, cleared)
    requires forall k: nat, g :: CallsOther(m, f, k, g) ==> g in cleared
    ensures CannotThrow(m, f)
  {
    var n := BoundTargets(m, cleared);
    assert NoThrow(m, f, n + 1);
  }

  class ExceptionAnalysis {
    const m: Module
    var cleared: set<Fn>    // the functions that have been found not to throw
    var analyzing: set<Fn>  // the functions whose analysis is under way

    constructor (m: Module)
      ensures this.m == m && cleared == {} && analyzing == {}
    {
      this.m, cleared, analyzing := m, {}, {};
    }

    method AnalyzeFunctions()
      requires Closed(m) && cleared == {} && analyzing == {}
      modifies this
      ensures forall f :: f in m ==> (f in cleared <==> CannotThrow(m, f))
    {
      var todo := m.Keys;
      while todo != {}
        invariant todo <= m.Keys && analyzing == {} && AllCannotThrow(m, cleared)
        invariant forall f :: f in m && f !in todo ==> (f in cleared <==> CannotThrow(m, f))
        decreases todo
      {
        var f :| f in todo;
        AnalyzeCanExcept(f);
        todo := todo - {f};
      }
    }

    /** The verdict is exact, however often and from wherever a function is analysed: functions whose
        analysis is under way need no verdict, because they cannot be cleared through a cycle. */
    method AnalyzeCanExcept(f: Fn)
      requires Closed(m) && f in m && f !in analyzing && AllCannotThrow(m, cleared) && LeadsTo(m, analyzing, f)
      modifies this
      ensures analyzing == old(analyzing) && old(cleared) <= cleared && AllCannotThrow(m, cleared)
      ensures f in cleared <==> CannotThrow(m, f)
      decreases m.Keys - analyzing, 1
    {
      if m[f].Harmless? {
        assert NoThrow(m, f, 0);
        cleared := cleared + {f};
        return;
      }
      if m[f].Unknown? {
        assert f !in cleared;
        return;
      }
      analyzing := analyzing + {f};
      for k := 0 to |m[f].calls|
        invariant analyzing == old(analyzing) + {f} && old(cleared) <= cleared && AllCannotThrow(m, cleared)
        invariant forall j: nat, g :: j < k && CallsOther(m, f, j, g) ==> g in cleared
      {
        if !m[f].calls[k].toCout {
          var mayThrow := AnalyzeTargets(f, k);
          if mayThrow {
            analyzing := analyzing - {f};
            assert f !in cleared;
            return;
          }
        }
      }
      analyzing := analyzing - {f};
      CalleesDecide(m, f, cleared);
      cleared := cleared + {f};
    }

    /** Looks at the possible targets of one call, until one of them may throw. */
    method AnalyzeTargets(f: Fn, k: nat) returns (mayThrow: bool)
      requires Closed(m) && f in m && m[f].Body? && k < |m[f].calls| && !m[f].calls[k].toCout
      requires f in analyzing && AllCannotThrow(m, cleared) && LeadsTo(m, analyzing - {f}, f)
      modifies this
      ensures analyzing == old(analyzing) && old(cleared) <= cleared && AllCannotThrow(m, cleared)
      ensures if mayThrow then !CannotThrow(m, f) else CalleesCleared(m, f, k, {}, cleared)
      decreases m.Keys - analyzing, 2
    {
      var todo := m[f].calls[k].targets;
      while todo != {}
        invariant todo <= m[f].calls[k].targets && analyzing == old(analyzing)
        invariant old(cleared) <= cleared && AllCannotThrow(m, cleared) && CalleesCleared(m, f, k, todo, cleared)
        decreases todo
      {
        var c :| c in todo;
        if c !in analyzing {
          CalleeLeads(m, analyzing, f, k, c);
          AnalyzeCanExcept(c);
        }
        if c !in cleared && c != f {
          CalleeThrows(m, analyzing - {f}, f, k, c);
          return true;
        }
        todo := todo - {c};
      }
      return false;
    }
  }

  /** A callee that is not cleared, although it has been analysed or is being analysed. */
  lemma CalleeThrows(m: Module, analyzing: set<Fn>, f: Fn, k: nat, c: Fn)
    requires Closed(m) && f in m && CallsOther(m, f, k, c) && LeadsTo(m, analyzing, f)
    requires c in analyzing || !CannotThrow(m, c)
    ensures !CannotThrow(m, f)
  {
    CallerIsAbove(m, f, k, c);
    forall n: nat
      ensures !NoThrow(m, f, n)
    {
      if c in analyzing {
        CycleIsNotCleared(m, f, c, n);
      } else if n > 0 {
        assert !NoThrow(m, c, n - 1);
      }
    }
  }

  lemma CalleeLeads(m: Module, analyzing: set<Fn>, f: Fn, k: nat, c: Fn)
    requires Closed(m) && f in m && f in analyzing && LeadsTo(m, analyzing - {f}, f) && CallsOther(m, f, k, c)
    ensures c in m && LeadsTo(m, analyzing, c)
  {
    CallerIsAbove(m, f, k, c);
    forall a | a in analyzing
      ensures a in m && Above(m, a, c)
    {
      if a != f {
        AboveTransitive(m, a, f, c);
      }
    }
  }

  /** Two functions that only call each other are taken to throw, although neither does. */
  lemma MutualRecursionIsNotCleared(n: nat)
    ensures var m: Module := map[0 := Body([Call({1}, false)], {}), 1 := Body([Call({0}, false)], {})];
            !NoThrow(m, 0, n) && !NoThrow(m, 1, n)
  {
    var m: Module := map[0 := Body([Call({1}, false)], {}), 1 := Body([Call({0}, false)], {})];
    CallerIsAbove(m, 0, 0, 1);
    CallerIsAbove(m, 1, 0, 0);
    CycleIsNotCleared(m, 0, 1, n);
    CycleIsNotCleared(m, 1, 0, n);
  }

  // ---------------------------------------------------------------- what a call may write

  predicate MayCall(m: Module, f: Fn, k: nat, g: Fn) {
    f in m && m[f].Body? && k < |m[f].calls| && g in m[f].calls[k].targets
  }

  ghost predicate Calls(m: Module, f: Fn, g: Fn) {
    exists k: nat :: MayCall(m, f, k, g)
  }

  function Written(m: Module, f: Fn): (r: set<Ptr>)
    ensures forall p :: p in r <==> f in m && m[f].Body? && p in m[f].written
  {
    if f in m && m[f].Body? then m[f].written else {}
  }

  /** The possible targets of all calls. */
  function Callees(m: Module, f: Fn): (r: set<Fn>)
    ensures forall g :: g in r <==> Calls(m, f, g)
  {
    if f in m && m[f].Body? then
      var r := set k, g | 0 <= k < |m[f].calls| && g in m[f].calls[k].targets :: g;
      assert forall k: nat, g :: MayCall(m, f, k, g) ==> g in r;
      assert forall k: nat, g :: k < |m[f].calls| && g in m[f].calls[k].targets ==> MayCall(m, f, k, g);
      r
    else {}
  }

  ghost predicate CallPath(m: Module, w: seq<Fn>) {
    if |w| <= 1 then w != [] else CallPath(m, w[..|w| - 1]) && Calls(m, w[|w| - 2], w[|w| - 1])
  }

  /** g may be executed by a call of f. */
  ghost predicate MayExecute(m: Module, f: Fn, g: Fn) {
    exists w :: CallPath(m, w) && w[0] == f && w[|w| - 1] == g
  }

  /** All targets of all calls of f have been visited. */
  ghost predicate AllFollowed(m: Module, f: Fn, visited: set<Fn>) {
    forall g :: Calls(m, f, g) ==> g in visited
  }

  lemma MayExecuteStep(m: Module, f: Fn, g: Fn, h: Fn)
    requires MayExecute(m, f, g) && Calls(m, g, h)
    ensures MayExecute(m, f, h)
  {
    var w :| CallPath(m, w) && w[0] == f && w[|w| - 1] == g;
    assert (w + [h])[..|w|] == w;
    assert CallPath(m, w + [h]);
  }

  lemma {:induction false} VisitedPath(m: Module, w: seq<Fn>, visited: set<Fn>)
    requires CallPath(m, w) && w[0] in visited && forall f :: f in visited ==> AllFollowed(m, f, visited)
    ensures w[|w| - 1] in visited
  {
    if |w| > 1 {
      VisitedPath(m, w[..|w| - 1], visited);
      assert AllFollowed(m, w[|w| - 2], visited);
    }
  }

  /** One collection of the pointers written, or read: the sets are filled in place. */
  class Collector {
    const m: Module
    var visited: set<Fn>
    var result: set<Ptr>

    constructor (m: Module)
      ensures this.m == m && visited == {} && result == {}
    {
      this.m, visited, result := m, {}, {};
    }

    /** What has been collected belongs to the visited functions, and only functions that may be
        executed have been visited. */
    ghost predicate Collected(root: Fn)
      reads this
    {
      && (forall f :: f in visited ==> f in m && MayExecute(m, root, f))
      && (forall p :: p in result <==> exists f :: f in visited && m[f].Body? && p in m[f].written)
    }

    method Visit(f: Fn, ghost root: Fn)
      requires Closed(m) && f in m && MayExecute(m, root, f) && Collected(root)
      modifies this
      ensures Collected(root) && old(visited) <= visited && f in visited
      ensures forall g :: g in visited && g !in old(visited) ==> AllFollowed(m, g, visited)
      decreases m.Keys - visited
    {
      if f in visited {
        return;
      }
      ghost var before := visited;
      visited := visited + {f};
      result := result + Written(m, f);
      CollectedMore(m, before, f, old(result));
      CalleesExist(m, f);
      var todo := Callees(m, f);
      while todo != {}
        invariant todo <= Callees(m, f) && Collected(root) && before + {f} <= visited
        invariant Callees(m, f) - todo <= visited
        invariant forall g :: g in visited && g !in before && g != f ==> AllFollowed(m, g, visited)
        decreases todo
      {
        var c :| c in todo;
        MayExecuteStep(m, root, f, c);
        Visit(c, root);
        todo := todo - {c};
      }
    }
  }

  lemma CollectedMore(m: Module, visited: set<Fn>, f: Fn, result: set<Ptr>)
    requires f in m && visited <= m.Keys
    requires forall p :: p in result <==> exists g :: g in visited && m[g].Body? && p in m[g].written
    ensures forall p :: p in result + Written(m, f) <==> exists g :: g in visited + {f} && m[g].Body? && p in m[g].written
  {
  }

  lemma CalleesExist(m: Module, f: Fn)
    requires Closed(m)
    ensures Callees(m, f) <= m.Keys
  {
  }

  /** The result holds the pointers written by all functions that a call may execute, and no others,
      also when the call graph has cycles. */
  method GetPtrWrittenRecursive(m: Module, f: Fn) returns (result: set<Ptr>)
    requires Closed(m) && f in m
    ensures forall p :: p in result <==> exists g :: MayExecute(m, f, g) && g in m && m[g].Body? && p in m[g].written
  {
    var collector := new Collector(m);
    assert CallPath(m, [f]);
    collector.Visit(f, f);
    forall g | MayExecute(m, f, g)
      ensures g in collector.visited
    {
      var w :| CallPath(m, w) && w[0] == f && w[|w| - 1] == g;
      VisitedPath(m, w, collector.visited);
    }
    result := collector.result;
  }
}
