/**
Removing the TSAN calls of functions that OpenMP never runs in parallel.  A recursive search marks
every function that a parallel region may execute; all other functions lose their calls.
*/
module SequentialRemoval {
  import opened HappensBefore
  import opened Verdict
  import opened ForkJoin
  import opened FiniteSets

  type Fn = nat

  datatype Kind = Ordinary | OpenMP | Pthread

  datatype Inst =
    | Call(targets: set<Fn>, fnArgs: seq<Fn>)
    | TsanAccess(write: bool, bytes: set<Byte>)
    | TsanMemory(name: string)   // an intercepted function, which does its work as well
    | TsanFrame                  // function entry and exit markers
    | Memory(name: string)
    | Other

  datatype Func = Func(name: string, kind: Kind, body: seq<Inst>, isDeclaration: bool)

  type Module = map<Fn, Func>

  predicate StartsWith(s: string, p: string) {
    |p| <= |s| && s[..|p|] == p
  }

  ghost predicate IsPrefix(p: string, s: string) {
    exists rest: string :: s == p + rest
  }

  lemma StartsWithIff(s: string, p: string)
    ensures StartsWith(s, p) <==> IsPrefix(p, s)
  {
    if StartsWith(s, p) {
      assert s == p + s[|p|..];
    }
  }

  /** The function is defined in the module. */
  predicate Defined(m: Module, f: Fn) {
    f in m && !m[f].isDeclaration
  }

  predicate IsThreadFunction(m: Module, f: Fn) {
    f in m && m[f].kind != Ordinary
  }

  predicate IsOmpFunction(m: Module, f: Fn) {
    f in m && m[f].kind == OpenMP
  }

  // ---------------------------------------------------------------- the edges that are followed

  /** At instruction k, function f may call ct. */
  predicate MayCall(m: Module, f: Fn, k: nat, ct: Fn) {
    && f in m && !m[f].isDeclaration && k < |m[f].body| && m[f].body[k].Call? && ct in m[f].body[k].targets
  }

  /** Through its k-th instruction and the possible callee ct, f leads the search to g; `region` says
      that the OpenMP runtime comes in between. */
  predicate LeadsThrough(m: Module, f: Fn, k: nat, ct: Fn, g: Fn, region: bool) {
    && g in m && !m[g].isDeclaration && MayCall(m, f, k, ct)
    && region == (ct in m && m[ct].kind == OpenMP)
    && if ct in m && m[ct].kind != Ordinary then g in m[f].body[k].fnArgs else g == ct
  }

  ghost predicate Leads(m: Module, f: Fn, k: nat, g: Fn, region: bool) {
    exists ct :: LeadsThrough(m, f, k, ct, g, region)
  }

  /** g is passed to the OpenMP runtime by f. */
  ghost predicate Handed(m: Module, f: Fn, g: Fn) {
    exists k: nat :: Leads(m, f, k, g, true)
  }

  /** g is called by f, or passed by f to another thread library. */
  ghost predicate Called(m: Module, f: Fn, g: Fn) {
    exists k: nat :: Leads(m, f, k, g, false)
  }

  ghost predicate Root(m: Module, f: Fn) {
    f in m && !m[f].isDeclaration && !IsPrefix("tsan", m[f].name)
  }

  /** A chain of calls and hand-overs from a root. */
  ghost predicate Chain(m: Module, w: seq<Fn>) {
    if |w| <= 1 then w != [] && Root(m, w[0])
    else
      var f, g := w[|w| - 2], w[|w| - 1];
      Chain(m, w[..|w| - 1]) && (Called(m, f, g) || Handed(m, f, g))
  }

  ghost predicate Passes(m: Module, w: seq<Fn>) {
    |w| > 1 && (Handed(m, w[|w| - 2], w[|w| - 1]) || Passes(m, w[..|w| - 1]))
  }

  ghost predicate Visited(m: Module, f: Fn) {
    exists w :: Chain(m, w) && w[|w| - 1] == f
  }

  /** Some chain that leads to f goes through the OpenMP runtime. */
  ghost predicate MayRunParallel(m: Module, f: Fn) {
    exists w :: Chain(m, w) && w[|w| - 1] == f && Passes(m, w)
  }

  lemma RootIsVisited(m: Module, f: Fn)
    requires Root(m, f)
    ensures Visited(m, f)
  {
    assert Chain(m, [f]);
  }

  lemma VisitedStep(m: Module, f: Fn, g: Fn)
    requires Visited(m, f)
    ensures Called(m, f, g) ==> Visited(m, g)
    ensures Handed(m, f, g) ==> MayRunParallel(m, g)
  {
    var w :| Chain(m, w) && w[|w| - 1] == f;
    assert (w + [g])[..|w|] == w;
    if Called(m, f, g) || Handed(m, f, g) {
      assert Chain(m, w + [g]);
      assert Handed(m, f, g) ==> Passes(m, w + [g]);
    }
  }

  lemma ParallelStep(m: Module, f: Fn, g: Fn)
    requires MayRunParallel(m, f) && (Called(m, f, g) || Handed(m, f, g))
    ensures MayRunParallel(m, g)
  {
    var w :| Chain(m, w) && w[|w| - 1] == f && Passes(m, w);
    assert (w + [g])[..|w|] == w;
    assert Chain(m, w + [g]) && Passes(m, w + [g]);
  }

  // ---------------------------------------------------------------- the search

  /** What a marked function demands of the marks. */
  ghost predicate ClosedParallel(m: Module, f: Fn, marked: set<Fn>) {
    forall g :: Called(m, f, g) || Handed(m, f, g) ==> g in marked
  }

  /** What a function that was visited outside parallel regions demands. */
  ghost predicate ClosedSequential(m: Module, f: Fn, marked: set<Fn>, seen: set<Fn>) {
    && (forall g :: Handed(m, f, g) ==> g in marked)
    && (forall g :: Called(m, f, g) ==> g in marked || g in seen)
  }

  /** Functions added since the marks were as given have been followed completely. */
  ghost predicate Followed(m: Module, marked: set<Fn>, seen: set<Fn>, marked': set<Fn>, seen': set<Fn>) {
    && marked <= marked' && seen <= seen'
    && (forall f {:trigger ClosedParallel(m, f, marked')} :: f in marked' && f !in marked ==> ClosedParallel(m, f, marked'))
    && (forall f {:trigger ClosedSequential(m, f, marked', seen')} :: f in seen' && f !in seen ==> ClosedSequential(m, f, marked', seen'))
  }

  lemma FollowedTransitive(m: Module, a: set<Fn>, b: set<Fn>, a': set<Fn>, b': set<Fn>, a'': set<Fn>, b'': set<Fn>)
    requires Followed(m, a, b, a', b') && Followed(m, a', b', a'', b'')
    ensures Followed(m, a, b, a'', b'')
  {
    forall f | f in a'' && f !in a
      ensures ClosedParallel(m, f, a'')
    {
      assert f in a' ==> ClosedParallel(m, f, a');
    }
    forall f | f in b'' && f !in b
      ensures ClosedSequential(m, f, a'', b'')
    {
      assert f in b' ==> ClosedSequential(m, f, a', b');
    }
  }

  /** Everything marked may run in parallel and everything seen is visited. */
  ghost predicate Justified(m: Module, marked: set<Fn>, seen: set<Fn>) {
    && (forall f {:trigger MayRunParallel(m, f)} {:trigger Defined(m, f)} :: f in marked ==> Defined(m, f) && MayRunParallel(m, f))
    && (forall f {:trigger Visited(m, f)} {:trigger Defined(m, f)} :: f in seen ==> Defined(m, f) && Visited(m, f))
  }

  /** What following the first k instructions, or the given targets of one, has to have marked. */
  ghost predicate Reached(g: Fn, region: bool, parallel: bool, marked: set<Fn>, seen: set<Fn>) {
    g in marked || (!region && !parallel && g in seen)
  }

  ghost predicate AllReached(m: Module, fs: seq<Fn>, parallel: bool, marked: set<Fn>, seen: set<Fn>) {
    forall g :: g in fs && Defined(m, g) ==> Reached(g, false, parallel, marked, seen)
  }

  lemma ReachedOneMore(m: Module, fs: seq<Fn>, i: nat, parallel: bool, marked: set<Fn>, seen: set<Fn>,
                       marked': set<Fn>, seen': set<Fn>)
    requires i < |fs| && AllReached(m, fs[..i], parallel, marked, seen) && marked <= marked' && seen <= seen'
    requires Defined(m, fs[i]) ==> Reached(fs[i], false, parallel, marked', seen')
    ensures AllReached(m, fs[..i + 1], parallel, marked', seen')
  {
    assert fs[..i + 1] == fs[..i] + [fs[i]];
  }

  function Measure(m: Module, marked: set<Fn>, seen: set<Fn>): nat {
    |m.Keys - marked| + |m.Keys - seen|
  }

  lemma MeasureShrinks(m: Module, a: set<Fn>, b: set<Fn>, a': set<Fn>, b': set<Fn>)
    requires a <= a' && b <= b'
    ensures Measure(m, a', b') <= Measure(m, a, b)
    ensures forall f :: f in m && ((f in a' && f !in a) || (f in b' && f !in b)) ==> Measure(m, a', b') < Measure(m, a, b)
  {
    SubsetSize(m.Keys - a', m.Keys - a);
    SubsetSize(m.Keys - b', m.Keys - b);
  }

  lemma CompletelyFollowed(m: Module, a: set<Fn>, b: set<Fn>, marked: set<Fn>, seen: set<Fn>, marked': set<Fn>,
                           seen': set<Fn>,
                           func: Fn, parallel: bool)
    requires Followed(m, marked, seen, marked', seen')
    requires if parallel then marked == a + {func} && seen == b else marked == a && seen == b + {func}
    requires forall k: nat, g, region :: Leads(m, func, k, g, region) ==> Reached(g, region, parallel, marked', seen')
    ensures Followed(m, a, b, marked', seen')
  {
    forall g
      ensures Handed(m, func, g) ==> Reached(g, true, parallel, marked', seen')
      ensures Called(m, func, g) ==> Reached(g, false, parallel, marked', seen')
    {
      if Handed(m, func, g) {
        var k: nat :| Leads(m, func, k, g, true);
      }
      if Called(m, func, g) {
        var k: nat :| Leads(m, func, k, g, false);
      }
    }
  }

  lemma SeenGrows(m: Module, marked: set<Fn>, seen: set<Fn>, marked': set<Fn>, new': set<Fn>)
    requires Justified(m, marked, seen) && Followed(m, {}, {}, marked, seen)
    requires Justified(m, marked', new') && Followed(m, marked, {}, marked', new')
    ensures Justified(m, marked', seen + new') && Followed(m, {}, {}, marked', seen + new')
  {
    forall f | f in marked'
      ensures ClosedParallel(m, f, marked')
    {
      assert f in marked ==> ClosedParallel(m, f, marked);
    }
    forall f | f in seen + new'
      ensures ClosedSequential(m, f, marked', seen + new')
    {
      assert f in seen ==> ClosedSequential(m, f, marked, seen);
      assert f in new' ==> ClosedSequential(m, f, marked', new');
    }
    forall f | f in seen + new'
      ensures Defined(m, f) && Visited(m, f)
    {
      assert f in seen ==> Visited(m, f);
    }
  }

  /** Along a chain from a root everything is seen or marked, and marked from the first hand-over on. */
  lemma {:induction false} ClosedChain(m: Module, w: seq<Fn>, marked: set<Fn>, seen: set<Fn>)
    requires Chain(m, w) && Followed(m, {}, {}, marked, seen)
    requires forall f :: Root(m, f) ==> f in marked || f in seen
    ensures var f := w[|w| - 1]; f in marked || (f in seen && !Passes(m, w))
  {
    if |w| > 1 {
      var f, g := w[|w| - 2], w[|w| - 1];
      ClosedChain(m, w[..|w| - 1], marked, seen);
      if f in marked {
        assert ClosedParallel(m, f, marked);
      } else {
        assert ClosedSequential(m, f, marked, seen);
      }
    }
  }

  class Removal {
    const m: Module
    var parallelFunctions: set<Fn>
    var callGraph: set<Fn>

    constructor (m: Module)
      ensures this.m == m && parallelFunctions == {} && callGraph == {}
    {
      this.m, parallelFunctions, callGraph := m, {}, {};
    }

    /** The passes over all root functions mark exactly what some chain of calls from a root reaches
        through the OpenMP runtime. */
    method MarkAll()
      requires parallelFunctions == {}
      modifies this
      ensures forall f :: f in parallelFunctions <==> f in m && !m[f].isDeclaration && MayRunParallel(m, f)
    {
      ghost var seen: set<Fn> := {};
      var todo := m.Keys;
      while todo != {}
        invariant todo <= m.Keys
        invariant Justified(m, parallelFunctions, seen) && Followed(m, {}, {}, parallelFunctions, seen)
        invariant forall f :: Root(m, f) && f !in todo ==> f in parallelFunctions || f in seen
        decreases todo
      {
        var f :| f in todo;
        StartsWithIff(m[f].name, "tsan");
        if !StartsWith(m[f].name, "tsan") {
          ghost var marked := parallelFunctions;
          if Defined(m, f) {
            RootIsVisited(m, f);
          }
          callGraph := {};
          CollectAllParallelFunctions(f, false);
          SeenGrows(m, marked, seen, parallelFunctions, callGraph);
          seen := seen + callGraph;
        }
        todo := todo - {f};
      }
      forall f | f in parallelFunctions
        ensures f in m && !m[f].isDeclaration && MayRunParallel(m, f)
      {
        assert Defined(m, f);
      }
      forall f | MayRunParallel(m, f)
        ensures f in parallelFunctions
      {
        var w :| Chain(m, w) && w[|w| - 1] == f && Passes(m, w);
        ClosedChain(m, w, parallelFunctions, seen);
      }
    }

    /** Visits a function: in a parallel region it is marked and everything it leads to is marked;
        outside it is seen, and what it hands to the OpenMP runtime is marked. */
    method CollectAllParallelFunctions(func: Fn, parallel: bool)
      requires Justified(m, parallelFunctions, callGraph)
      requires Defined(m, func) ==> if parallel then MayRunParallel(m, func) else Visited(m, func)
      modifies this
      ensures Justified(m, parallelFunctions, callGraph)
      ensures Followed(m, old(parallelFunctions), old(callGraph), parallelFunctions, callGraph)
      ensures Defined(m, func) ==> Reached(func, false, parallel, parallelFunctions, callGraph)
      decreases Measure(m, parallelFunctions, callGraph), 0
    {
      if !Defined(m, func) || func in parallelFunctions {
        return;
      }
      if parallel {
        parallelFunctions := parallelFunctions + {func};
      } else {
        if func in callGraph {
          return;
        }
        callGraph := callGraph + {func};
      }
      MeasureShrinks(m, old(parallelFunctions), old(callGraph), parallelFunctions, callGraph);
      ghost var marked, seen := parallelFunctions, callGraph;
      FollowBody(func, parallel);
      CompletelyFollowed(m, old(parallelFunctions), old(callGraph), marked, seen, parallelFunctions, callGraph, func, parallel);
    }

    method FollowBody(func: Fn, parallel: bool)
      requires Justified(m, parallelFunctions, callGraph) && Defined(m, func)
      requires if parallel then MayRunParallel(m, func) else Visited(m, func)
      modifies this
      ensures Justified(m, parallelFunctions, callGraph)
      ensures Followed(m, old(parallelFunctions), old(callGraph), parallelFunctions, callGraph)
      ensures forall k: nat, g, region :: Leads(m, func, k, g, region) ==>
                                            Reached(g, region, parallel, parallelFunctions, callGraph)
      decreases Measure(m, parallelFunctions, callGraph), 4
    {
      for k := 0 to |m[func].body|
        invariant Justified(m, parallelFunctions, callGraph)
        invariant Followed(m, old(parallelFunctions), old(callGraph), parallelFunctions, callGraph)
        invariant forall j: nat, g, region :: j < k && Leads(m, func, j, g, region) ==>
                                                Reached(g, region, parallel, parallelFunctions, callGraph)
      {
        ghost var marked, seen := parallelFunctions, callGraph;
        MeasureShrinks(m, old(parallelFunctions), old(callGraph), marked, seen);
        FollowInstruction(func, k, parallel);
        FollowedTransitive(m, old(parallelFunctions), old(callGraph), marked, seen, parallelFunctions, callGraph);
      }
    }

    method FollowInstruction(func: Fn, k: nat, parallel: bool)
      requires Justified(m, parallelFunctions, callGraph) && Defined(m, func) && k < |m[func].body|
      requires if parallel then MayRunParallel(m, func) else Visited(m, func)
      modifies this
      ensures Justified(m, parallelFunctions, callGraph)
      ensures Followed(m, old(parallelFunctions), old(callGraph), parallelFunctions, callGraph)
      ensures forall g, region :: Leads(m, func, k, g, region) ==>
                Reached(g, region, parallel, parallelFunctions, callGraph)
      decreases Measure(m, parallelFunctions, callGraph), 3
    {
      if !m[func].body[k].Call? {
        return;
      }
      var todo := m[func].body[k].targets;
      while todo != {}
        invariant todo <= m[func].body[k].targets
        invariant Justified(m, parallelFunctions, callGraph)
        invariant Followed(m, old(parallelFunctions), old(callGraph), parallelFunctions, callGraph)
        invariant forall ct, g, region :: ct !in todo && LeadsThrough(m, func, k, ct, g, region) ==>
                                            Reached(g, region, parallel, parallelFunctions, callGraph)
        decreases todo
      {
        var ct :| ct in todo;
        ghost var marked, seen := parallelFunctions, callGraph;
        MeasureShrinks(m, old(parallelFunctions), old(callGraph), marked, seen);
        if IsThreadFunction(m, ct) {
          FollowArguments(func, k, ct, if IsOmpFunction(m, ct) then true else parallel);
        } else {
          EdgeOf(m, func, k, ct, ct);
          CollectAllParallelFunctions(ct, parallel);
        }
        FollowedTransitive(m, old(parallelFunctions), old(callGraph), marked, seen, parallelFunctions, callGraph);
        todo := todo - {ct};
      }
    }

    /** The functions among the arguments of a thread call. */
    method FollowArguments(func: Fn, k: nat, ct: Fn, parallel: bool)
      requires Justified(m, parallelFunctions, callGraph)
      requires MayCall(m, func, k, ct) && IsThreadFunction(m, ct)
      requires MayRunParallel(m, func) || Visited(m, func)
      requires if parallel then IsOmpFunction(m, ct) || MayRunParallel(m, func) else !IsOmpFunction(m, ct) && Visited(m, func)
      modifies this
      ensures Justified(m, parallelFunctions, callGraph)
      ensures Followed(m, old(parallelFunctions), old(callGraph), parallelFunctions, callGraph)
      ensures AllReached(m, m[func].body[k].fnArgs, parallel, parallelFunctions, callGraph)
      decreases Measure(m, parallelFunctions, callGraph), 2
    {
      var args := m[func].body[k].fnArgs;
      for i := 0 to |args|
        invariant Justified(m, parallelFunctions, callGraph)
        invariant Followed(m, old(parallelFunctions), old(callGraph), parallelFunctions, callGraph)
        invariant AllReached(m, args[..i], parallel, parallelFunctions, callGraph)
      {
        ghost var marked, seen := parallelFunctions, callGraph;
        MeasureShrinks(m, old(parallelFunctions), old(callGraph), marked, seen);
        EdgeOf(m, func, k, ct, args[i]);
        CollectAllParallelFunctions(args[i], parallel);
        ReachedOneMore(m, args, i, parallel, marked, seen, parallelFunctions, callGraph);
        FollowedTransitive(m, old(parallelFunctions), old(callGraph), marked, seen, parallelFunctions, callGraph);
      }
      assert args[..|args|] == args;
    }
  }

  /** The function that the search goes on to is visited, or may run in parallel, as the flag says. */
  lemma EdgeOf(m: Module, f: Fn, k: nat, ct: Fn, g: Fn)
    requires MayCall(m, f, k, ct) && if IsThreadFunction(m, ct) then g in m[f].body[k].fnArgs else g == ct
    ensures Defined(m, g) && Visited(m, f) ==> if IsOmpFunction(m, ct) then MayRunParallel(m, g) else Visited(m, g)
    ensures Defined(m, g) && MayRunParallel(m, f) ==> MayRunParallel(m, g)
  {
    if Defined(m, g) {
      assert LeadsThrough(m, f, k, ct, g, IsOmpFunction(m, ct));
      assert Leads(m, f, k, g, IsOmpFunction(m, ct));
      if Visited(m, f) {
        VisitedStep(m, f, g);
      }
      if MayRunParallel(m, f) {
        ParallelStep(m, f, g);
      }
    }
  }

  // ---------------------------------------------------------------- which modules, which calls

  /** A program with a main function that uses no thread library but OpenMP. */
  ghost predicate OnlyOpenMP(m: Module) {
    && (exists f :: f in m && m[f].name == "main")
    && forall f, k, ct :: MayCall(m, f, k, ct) && !IsPrefix("tsan.", m[f].name) && ct in m ==> m[ct].kind != Pthread
  }

  method CheckModule(m: Module) returns (ok: bool)
    ensures ok <==> OnlyOpenMP(m)
  {
    if !exists f :: f in m && m[f].name == "main" {
      return false;
    }
    var todo := m.Keys;
    while todo != {}
      invariant todo <= m.Keys
      invariant forall f, k, ct :: f !in todo && MayCall(m, f, k, ct) && !IsPrefix("tsan.", m[f].name) && ct in m ==>
                                     m[ct].kind != Pthread
      decreases todo
    {
      var f :| f in todo;
      StartsWithIff(m[f].name, "tsan.");
      if !StartsWith(m[f].name, "tsan.") && !m[f].isDeclaration {
        for k := 0 to |m[f].body|
          invariant forall j: nat, ct :: j < k && MayCall(m, f, j, ct) && ct in m ==> m[ct].kind != Pthread
        {
          if m[f].body[k].Call? {
            if exists ct :: ct in m[f].body[k].targets && IsThreadFunction(m, ct) && !IsOmpFunction(m, ct) {
              ghost var ct :| ct in m[f].body[k].targets && IsThreadFunction(m, ct) && !IsOmpFunction(m, ct);
              assert MayCall(m, f, k, ct);
              return false;
            }
            assert forall ct :: ct in m[f].body[k].targets ==> !IsThreadFunction(m, ct) || IsOmpFunction(m, ct);
          }
        }
      }
      todo := todo - {f};
    }
    return true;
  }

  /** The calls that are removed; the intercepted memset and memcpy become the plain functions. */
  function CleanedInst(i: Inst): seq<Inst> {
    match i
    case TsanAccess(_, _) => []
    case TsanMemory(name) => if name == "memset" || name == "memcpy" then [Memory(name)] else []
    case _ => [i]
  }

  function CleanedBody(body: seq<Inst>): seq<Inst> {
    if body == [] then [] else CleanedBody(body[..|body| - 1]) + CleanedInst(body[|body| - 1])
  }

  /** What executing an instruction does, apart from telling the detector. */
  datatype Effect = Calling(targets: set<Fn>, fnArgs: seq<Fn>) | Running(memoryFunction: string) | Marking | Working

  function EffectOf(i: Inst): seq<Effect> {
    match i
    case Call(targets, fnArgs) => [Calling(targets, fnArgs)]
    case TsanAccess(_, _) => []
    case TsanMemory(name) => [Running(name)]
    case TsanFrame => [Marking]
    case Memory(name) => [Running(name)]
    case Other => [Working]
  }

  function Effects(body: seq<Inst>): seq<Effect> {
    if body == [] then [] else Effects(body[..|body| - 1]) + EffectOf(body[|body| - 1])
  }

  lemma EffectsSnoc(body: seq<Inst>, more: seq<Inst>)
    requires |more| <= 1
    ensures Effects(body + more) == Effects(body) + Effects(more)
  {
    if more == [] {
      assert body + more == body;
    } else {
      assert (body + more)[..|body|] == body && more[..0] == [];
    }
  }

  ghost predicate NoTsan(body: seq<Inst>) {
    forall i :: i in body ==> !i.TsanAccess? && !i.TsanMemory?
  }

  lemma {:induction false} CleanedHasNoTsan(body: seq<Inst>)
    ensures NoTsan(CleanedBody(body))
  {
    if body != [] {
      CleanedHasNoTsan(body[..|body| - 1]);
    }
  }

  /** An intercepted function keeps its work only if it is memset or memcpy. */
  predicate IsKept(i: Inst) {
    i.TsanMemory? ==> i.name == "memset" || i.name == "memcpy"
  }

  /** The only intercepted functions are memset and memcpy. */
  ghost predicate OnlySetAndCopy(body: seq<Inst>) {
    forall i :: i in body ==> IsKept(i)
  }

  lemma CleanedEffect(i: Inst)
    ensures |CleanedInst(i)| <= 1 && |EffectOf(i)| <= 1
    ensures Effects(CleanedInst(i)) == if IsKept(i) then EffectOf(i) else []
    ensures !IsKept(i) ==> |EffectOf(i)| == 1
  {
    assert forall x: Inst :: Effects([x]) == EffectOf(x) by {
      forall x: Inst
        ensures Effects([x]) == EffectOf(x)
      {
        assert [x][..0] == [];
      }
    }
  }

  lemma Snoc(few: seq<Inst>, last: Inst)
    ensures CleanedBody(few + [last]) == CleanedBody(few) + CleanedInst(last)
    ensures Effects(few + [last]) == Effects(few) + EffectOf(last)
  {
    assert (few + [last])[..|few|] == few;
  }

  lemma CleanedLast(few: seq<Inst>, last: Inst)
    ensures Effects(CleanedBody(few + [last])) == Effects(CleanedBody(few)) + if IsKept(last) then EffectOf(last) else []
    ensures Effects(few + [last]) == Effects(few) + EffectOf(last)
    ensures !IsKept(last) ==> |EffectOf(last)| == 1
  {
    Snoc(few, last);
    EffectsSnoc(CleanedBody(few), CleanedInst(last));
    CleanedEffect(last);
  }

  lemma OnlySetAndCopySnoc(few: seq<Inst>, last: Inst)
    ensures OnlySetAndCopy(few + [last]) <==> OnlySetAndCopy(few) && IsKept(last)
  {
    assert last in few + [last];
  }

  ghost predicate SameIff(done: seq<Effect>, was: seq<Effect>, kept: bool) {
    && (done == was <==> kept)
    && |done| <= |was| && (!kept ==> |done| < |was|)
  }

  lemma SameIffSnoc(done: seq<Effect>, was: seq<Effect>, kept: bool, last: seq<Effect>, lastKept: bool)
    requires SameIff(done, was, kept) && (!lastKept ==> |last| == 1)
    ensures SameIff(done + if lastKept then last else [], was + last, kept && lastKept)
  {
  }

  lemma SameIffLast(few: seq<Inst>, last: Inst)
    requires SameIff(Effects(CleanedBody(few)), Effects(few), OnlySetAndCopy(few))
    ensures SameIff(Effects(CleanedBody(few + [last])), Effects(few + [last]), OnlySetAndCopy(few + [last]))
  {
    CleanedLast(few, last);
    OnlySetAndCopySnoc(few, last);
    SameIffSnoc(Effects(CleanedBody(few)), Effects(few), OnlySetAndCopy(few), EffectOf(last), IsKept(last));
  }

  /** The cleaned body does what the body did, in the same order, if and only if it has no other intercepted
      functions; their calls are removed, and their work is not done. */
  lemma {:induction false} CleanedDoesTheSameIff(body: seq<Inst>)
    ensures Effects(CleanedBody(body)) == Effects(body) <==> OnlySetAndCopy(body)
    ensures SameIff(Effects(CleanedBody(body)), Effects(body), OnlySetAndCopy(body))
  {
    if body != [] {
      var few, last := body[..|body| - 1], body[|body| - 1];
      assert body == few + [last];
      CleanedDoesTheSameIff(few);
      SameIffLast(few, last);
    }
  }

  /** An intercepted memmove is lost. */
  lemma MemmoveIsLost()
    ensures Effects([TsanMemory("memmove")]) == [Running("memmove")] && Effects(CleanedBody([TsanMemory("memmove")])) == []
  {
    var body := [TsanMemory("memmove")];
    assert body[..0] == [] && CleanedBody(body) == CleanedBody([]) + CleanedInst(body[0]);
  }

  /** The functions that lose their calls. */
  ghost predicate Sequential(m: Module, marked: set<Fn>, f: Fn) {
    f in m && !m[f].isDeclaration && !IsPrefix("tsan.", m[f].name) && f !in marked
  }

  predicate IsTsan(i: Inst) {
    i.TsanAccess? || i.TsanMemory?
  }

  /** Where the removed calls are. */
  function TsanCalls(body: seq<Inst>): set<nat> {
    set k: nat | 0 <= k < |body| && (body[k].TsanAccess? || body[k].TsanMemory?)
  }

  ghost function RemovedCalls(m: Module, marked: set<Fn>, fs: set<Fn>): set<(Fn, nat)> {
    set f, k | f in fs && Sequential(m, marked, f) && k in TsanCalls(m[f].body) :: (f, k)
  }

  function Tagged(f: Fn, ks: set<nat>): set<(Fn, nat)> {
    set k | k in ks :: (f, k)
  }

  lemma {:induction false} TaggedSize(f: Fn, ks: set<nat>)
    ensures |Tagged(f, ks)| == |ks|
  {
    if k :| k in ks {
      TaggedSize(f, ks - {k});
      assert Tagged(f, ks) == Tagged(f, ks - {k}) + {(f, k)};
    }
  }

  lemma RemovedStep(m: Module, marked: set<Fn>, fs: set<Fn>, f: Fn)
    requires f !in fs
    ensures |RemovedCalls(m, marked, fs + {f})| == |RemovedCalls(m, marked, fs)| +
                                                   if Sequential(m, marked, f) then |TsanCalls(m[f].body)| else 0
  {
    var before, more := RemovedCalls(m, marked, fs), if Sequential(m, marked, f) then Tagged(f, TsanCalls(m[f].body)) else {};
    assert RemovedCalls(m, marked, fs + {f}) == before + more;
    assert before !! more;
    if Sequential(m, marked, f) {
      TaggedSize(f, TsanCalls(m[f].body));
    }
  }

  /** Every function outside the marked set loses its calls, no other function changes; each call that
      was removed is counted. */
  method CollectAndCleanup(m: Module, marked: set<Fn>) returns (m': Module, removed: nat)
    ensures m'.Keys == m.Keys && removed == |RemovedCalls(m, marked, m.Keys)|
    ensures forall f :: f in m ==>
              m'[f] == if Sequential(m, marked, f) then m[f].(body := CleanedBody(m[f].body)) else m[f]
    ensures forall f :: f in m && Sequential(m, marked, f) ==>
              NoTsan(m'[f].body) && (Effects(m'[f].body) == Effects(m[f].body) <==> OnlySetAndCopy(m[f].body))
  {
    m', removed := m, 0;
    var todo := m.Keys;
    while todo != {}
      invariant todo <= m.Keys == m'.Keys && removed == |RemovedCalls(m, marked, m.Keys - todo)|
      invariant forall f :: f in m ==>
                  m'[f] == if f !in todo && Sequential(m, marked, f) then m[f].(body := CleanedBody(m[f].body)) else m[f]
      decreases todo
    {
      var f :| f in todo;
      RemovedStep(m, marked, m.Keys - todo, f);
      assert m.Keys - todo + {f} == m.Keys - (todo - {f});
      StartsWithIff(m[f].name, "tsan.");
      if Defined(m, f) && !StartsWith(m[f].name, "tsan.") && f !in marked {
        var body, n := CleanBody(m[f].body);
        removed := removed + n;
        m' := m'[f := m[f].(body := body)];
      }
      todo := todo - {f};
    }
    assert m.Keys - todo == m.Keys;
    forall f | f in m && Sequential(m, marked, f)
      ensures NoTsan(m'[f].body) && (Effects(m'[f].body) == Effects(m[f].body) <==> OnlySetAndCopy(m[f].body))
    {
      CleanedDoesTheSameIff(m[f].body);
      CleanedHasNoTsan(m[f].body);
    }
  }

  method CleanBody(body: seq<Inst>) returns (out: seq<Inst>, removed: nat)
    ensures out == CleanedBody(body) && (Effects(out) == Effects(body) <==> OnlySetAndCopy(body))
    ensures NoTsan(out)
    ensures removed == |TsanCalls(body)|
  {
    out, removed := [], 0;
    for k := 0 to |body|
      invariant out == CleanedBody(body[..k])
      invariant removed == |TsanCalls(body[..k])|
    {
      assert body[..k + 1][..k] == body[..k];
      assert TsanCalls(body[..k + 1]) == TsanCalls(body[..k]) + if IsTsan(body[k]) then {k} else {};
      if IsTsan(body[k]) {
        removed := removed + 1;
      }
      out := out + CleanedInst(body[k]);
    }
    assert body[..|body|] == body;
    CleanedDoesTheSameIff(body);
    CleanedHasNoTsan(body);
  }

  /** Functions with a body that are not part of the sanitizer and that no chain of calls reaches through the
      OpenMP runtime. */
  ghost predicate LosesCalls(m: Module, f: Fn) {
    f in m && !m[f].isDeclaration && !IsPrefix("tsan.", m[f].name) && !MayRunParallel(m, f)
  }

  /** The whole pass: programs that use another thread library are not changed; in the others exactly
      the functions above lose their calls. */
  method RemoveAllSingleThreadRegions(m: Module) returns (m': Module, removed: nat)
    ensures m'.Keys == m.Keys && (!OnlyOpenMP(m) ==> m' == m && removed == 0)
    ensures OnlyOpenMP(m) ==> forall f :: f in m ==>
              if LosesCalls(m, f)
              then m'[f] == m[f].(body := m'[f].body) && NoTsan(m'[f].body) &&
                   (Effects(m'[f].body) == Effects(m[f].body) <==> OnlySetAndCopy(m[f].body))
              else m'[f] == m[f]
  {
    m', removed := m, 0;
    var ok := CheckModule(m);
    if ok {
      var removal := new Removal(m);
      removal.MarkAll();
      m', removed := CollectAndCleanup(m, removal.parallelFunctions);
    }
  }
}
