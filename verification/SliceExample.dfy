/**
A program that meets every condition under which its slice is proved right:

    main:  1: f();  2: load a;  3: store b;  4: observe(2)        f:  6: store a

The call and the store in f are included, because the load is observed; the store to b is left out.
*/
module SliceExample {
  import opened Program
  import opened Pruning
  import opened Correspondence
  import opened AnalysedSlice
  import M = SliceMemory
  import O = CallOrder
  import T = TaintRules
  import V = VisitOrder
  import L = LateCalls
  import K = PointerKinds

  const MAIN: Fn := 0
  const F: Fn := 1
  const A := Lit(7)
  const B := Lit(11)
  const CALL := Call(1, F, [])
  const LOAD := Load(2, A)
  const OTHER := Store(3, B, Lit(1))
  const OBSERVE := Extern(4, [Res(2)])
  const STORE := Store(6, A, Lit(9))
  const MAIN_BLOCK := BB(map[], [CALL, LOAD, OTHER, OBSERVE], Ret(5, Lit(0)))
  const F_BLOCK := BB(map[], [STORE], Ret(7, Lit(0)))
  const PROGRAM: Program := map[MAIN := map[ENTRY := MAIN_BLOCK], F := map[ENTRY := F_BLOCK]]

  function Owner(x: Site): Fn {
    if x <= 5 then MAIN else F
  }

  const GRAPH := O.Cfg({1, 2, 3, 4, 5, 6, 7}, {MAIN, F}, x => Owner(x), {(1, 2), (2, 3), (3, 4), (4, 5), (6, 7)},
                       {(1, F)}, (f: O.Fn) => if f == MAIN then 1 else 6, {5, 7})

  const WRITES := T.Entry(F, A, true)

  function Operands(v: Value): set<Value> {
    if v == Res(4) then {Res(2)} else if v == Res(2) then {A} else {}
  }

  function Stores(v: Value): set<Value> {
    if v == A then {Res(6)} else if v == B then {Res(3)} else {}
  }

  const RULES := T.Rules({Res(1), Res(2), Res(3), Res(4), Res(6), Res(7), A}, {MAIN, F},
                         v => Operands(v),
                         v => if v == Res(1) then {Res(7)} else {}, _ => {},
                         (v: Value) => if v.Res? then {Owner(v.site)} else {}, (f: Fn) => if f == F then {Res(1)} else {},
                         v => if v == Res(2) then {T.Access(Res(2), A, T.Read)} else {},
                         v => if v == A then {WRITES} else if v == B then {T.Entry(MAIN, B, true)} else {},
                         v => Stores(v), _ => {}, _ => {},
                         _ => {}, (_, p, q) => p == q,
                         v => if v == Res(1) then {WRITES} else {}, (_, loads) => loads != {}, _ => false)

  const GIVEN := V.Given({Res(4)}, {MAIN})
  const NEEDS := {(Res(4), Res(2)), (Res(2), A)}
  const FOUND := T.Facts({Res(1), Res(2), Res(4), Res(6), A}, {Res(1), Res(2), Res(4), Res(6), A}, NEEDS,
                         {Res(1), Res(2), Res(4), Res(6), A}, {MAIN, F})
  const MARKS := MarksOf(FOUND, {MAIN}, {MAIN, F}, {4})

  /** The load and the store in f are of one class, the other store is of another. */
  function Class(x: Site): nat {
    if x == 3 then 1 else 0
  }

  function Region(a: Addr): nat {
    if a == 11 then 1 else 0
  }

  const CLASSES: Site -> nat := x => Class(x)
  const KINDS := K.Kinds(_ => K.NoPointer, _ => K.NoPointer, _ => 0, a => Region(a))

  // ---------------------------------------------------------------- the program and its rules

  lemma MainBlock()
    ensures M.DescribesBlock(GRAPH, PROGRAM, MAIN, MAIN_BLOCK)
  {
    assert M.SiteAt(MAIN_BLOCK, 0) == 1 && M.SiteAt(MAIN_BLOCK, 1) == 2 && M.SiteAt(MAIN_BLOCK, 2) == 3;
    assert M.SiteAt(MAIN_BLOCK, 3) == 4 && M.SiteAt(MAIN_BLOCK, 4) == 5;
  }

  lemma FBlock()
    ensures M.DescribesBlock(GRAPH, PROGRAM, F, F_BLOCK)
  {
    assert M.SiteAt(F_BLOCK, 0) == 6 && M.SiteAt(F_BLOCK, 1) == 7;
  }

  lemma ItsBlocks(f: Fn, b: Block)
    requires Has(PROGRAM, f, b)
    ensures b == ENTRY && ((f == MAIN && PROGRAM[f][b] == MAIN_BLOCK) || (f == F && PROGRAM[f][b] == F_BLOCK))
  {
  }

  lemma ItsGraph()
    ensures WellFormed(PROGRAM) && Has(PROGRAM, MAIN, ENTRY) && M.Describes(GRAPH, PROGRAM)
  {
    MainBlock();
    FBlock();
    GraphIsWellFormed();
    forall f, b | Has(PROGRAM, f, b)
      ensures M.DescribesBlock(GRAPH, PROGRAM, f, PROGRAM[f][b])
    {
      ItsBlocks(f, b);
    }
    assert M.SiteAt(MAIN_BLOCK, 0) == 1 && M.SiteAt(F_BLOCK, 0) == 6;
  }

  lemma GraphIsWellFormed()
    ensures O.WellFormed(GRAPH)
  {
  }

  lemma ItsSites()
    ensures OnlyDescribes(GRAPH, PROGRAM) && DescribesEntries(PROGRAM, RULES)
  {
    assert Has(PROGRAM, MAIN, ENTRY) && CALL in PROGRAM[MAIN][ENTRY].insts;
    assert IsCallInst(PROGRAM, 1, F);
    forall f, b, x | Has(PROGRAM, f, b) && InBlock(PROGRAM[f][b], x)
      ensures Owner(x) == f
    {
      ItsBlocks(f, b);
    }
  }

  lemma RulesAreOk()
    ensures T.RulesOk(RULES)
  {
    forall v
      ensures T.RuleOk(RULES, v)
    {
    }
  }

  lemma InstRules()
    ensures DescribesInst(RULES, CALL) && DescribesInst(RULES, LOAD) && DescribesInst(RULES, OTHER)
    ensures DescribesInst(RULES, OBSERVE) && DescribesInst(RULES, STORE) && DescribesRets(PROGRAM, RULES, CALL)
  {
  }

  /** A single block that returns a literal. */
  lemma OneBlock(p: Program, r: T.Rules, f: Fn, bb: BB)
    requires bb.phis == map[] && bb.term.Ret? && bb.term.val.Lit?
    requires forall i {:trigger DescribesInst(r, i)} :: i in bb.insts ==> DescribesInst(r, i) && DescribesRets(p, r, i)
    ensures DescribesBlock(p, r, f, bb)
  {
  }

  lemma ItsRules()
    ensures Describes(PROGRAM, RULES)
  {
    InstRules();
    OneBlock(PROGRAM, RULES, MAIN, MAIN_BLOCK);
    OneBlock(PROGRAM, RULES, F, F_BLOCK);
    forall f, b | Has(PROGRAM, f, b)
      ensures DescribesBlock(PROGRAM, RULES, f, PROGRAM[f][b])
    {
      ItsBlocks(f, b);
    }
  }

  lemma ItsMarks()
    ensures EverywhereClosed(PROGRAM, RULES, {MAIN}, {4}) && StartsFrom(PROGRAM, FOUND, {Res(4)}, {MAIN, F}, {4})
  {
    forall f, b, i | Has(PROGRAM, f, b) && i in PROGRAM[f][b].insts
      ensures EverywhereInst(RULES, f, i, {MAIN}, {4}) && (i.Call? ==> i.callee in {MAIN, F})
    {
      ItsBlocks(f, b);
    }
  }

  lemma ItsPaths()
    ensures AllReached(PROGRAM)
  {
    forall f, b | Has(PROGRAM, f, b)
      ensures IsReached(PROGRAM, f, b)
    {
      assert PathTo(PROGRAM, f, [ENTRY], b);
    }
  }

  // ---------------------------------------------------------------- what is found

  lemma Records(seen: set<Value>)
    ensures T.Accesses(RULES, seen) == if Res(2) in seen then {T.Access(Res(2), A, T.Read)} else {}
    ensures forall q :: T.LoadsOf(RULES, seen, q) == if q == A && Res(2) in seen then {Res(2)} else {}
    ensures WRITES in T.Entries(RULES, seen) <==> A in seen
    ensures forall v :: T.CallTest(RULES, seen, v) <==> v == Res(1) && A in seen && Res(2) in seen
    ensures forall v :: !T.OwnTest(RULES, seen, v)
  {
    var load := T.Access(Res(2), A, T.Read);
    assert load in RULES.accesses(Res(2)) && WRITES in RULES.enters(A);
    assert T.Accesses(RULES, seen) == if Res(2) in seen then {load} else {};
    forall q
      ensures T.LoadsOf(RULES, seen, q) == if q == A && Res(2) in seen then {Res(2)} else {}
    {
      assert Res(2) in seen ==> load in T.AccessesOf(RULES, seen, A);
    }
    assert WRITES in RULES.writes(Res(1));
  }

  /** What there is to show of a visited value. */
  lemma Demands(v: Value)
    ensures RULES.operands(v) == Operands(v) && RULES.stores(v) == Stores(v) && RULES.traces(v) == {}
    ensures RULES.unites(v) == {} && !RULES.always(v) && (v != Res(1) ==> RULES.rets(v) == {})
  {
  }

  lemma FoundVisit(v: Value)
    requires v in FOUND.tainted
    ensures T.VisitRule(RULES, FOUND, v)
  {
    Demands(v);
  }

  lemma FoundInclude(v: Value)
    requires v in FOUND.included
    ensures T.IncludeRule(RULES, FOUND, v)
  {
  }

  lemma FoundIncludes()
    ensures T.ClosedIncludes(RULES, FOUND)
  {
    forall v | v in FOUND.included
      ensures T.IncludeRule(RULES, FOUND, v)
    {
      FoundInclude(v);
    }
  }

  lemma FoundTests(v: Value)
    requires v in FOUND.tainted
    ensures T.OwnRule(RULES, FOUND, v) && T.CallRule(RULES, FOUND, v)
  {
    Records(FOUND.seen);
  }

  lemma FoundIsClosed()
    ensures T.ClosedBy(RULES, RULES.all, RULES.all, FOUND) && T.Le(GIVEN, FOUND)
  {
    FoundIncludes();
    forall v | v in FOUND.tainted
      ensures T.VisitRule(RULES, FOUND, v) && T.OwnRule(RULES, FOUND, v) && T.CallRule(RULES, FOUND, v)
    {
      FoundVisit(v);
      FoundTests(v);
    }
  }

  lemma OperandFollows(r: T.Rules, s: T.Facts, v: Value, w: Value)
    requires T.ClosedFacts(r, s) && v in s.included && w in r.operands(v)
    ensures v in s.tainted && v in s.seen && w in s.tainted && w in s.included && (v, w) in s.needs
  {
    assert T.IncludeRule(r, s, v) && T.VisitRule(r, s, v);
  }

  /** What every run finds, one fact after the other. */
  lemma LoadIsForced(s: T.Facts)
    requires T.ClosedFacts(RULES, s) && T.Le(GIVEN, s)
    ensures {Res(4), Res(2), A} <= s.included && {Res(4), Res(2), A} <= s.seen && NEEDS <= s.needs
    ensures {Res(4), Res(2), A, Res(6)} <= s.tainted && MAIN in s.functions
  {
    OperandFollows(RULES, s, Res(4), Res(2));
    OperandFollows(RULES, s, Res(2), A);
    assert T.VisitRule(RULES, s, A);
  }

  /** An included value of the entry block brings the calls of its function. */
  lemma CallsFollow(r: T.Rules, s: T.Facts, v: Value, f: Fn)
    requires T.ClosedFacts(r, s) && v in s.included && f in r.entryOf(v)
    ensures f in s.functions && r.callSites(f) <= s.tainted
  {
    assert T.IncludeRule(r, s, v) && T.FunctionRule(r, s, f);
  }

  lemma StoreFollows(r: T.Rules, s: T.Facts, p: Value, u: Value)
    requires T.ClosedFacts(r, s) && p in s.tainted && u in r.stores(p) && r.important(u, T.LoadsOf(r, s.seen, p))
    ensures u in s.included && u in s.tainted && u in s.seen
  {
    assert T.VisitRule(r, s, p) && T.IncludeRule(r, s, u) && T.VisitRule(r, s, u);
  }

  lemma StoreIsForced(s: T.Facts)
    requires T.ClosedFacts(RULES, s) && T.Le(GIVEN, s)
    ensures Res(6) in s.included && Res(6) in s.seen && F in s.functions && Res(1) in s.tainted && Res(1) in s.seen
  {
    LoadIsForced(s);
    Records(s.seen);
    Demands(A);
    StoreFollows(RULES, s, A, Res(6));
    CallsFollow(RULES, s, Res(6), F);
    assert T.VisitRule(RULES, s, Res(1));
  }

  lemma FoundIsForced(s: T.Facts)
    requires T.ClosedBy(RULES, RULES.all, RULES.all, s) && T.Le(GIVEN, s) && T.Le(s, T.Universe(RULES))
    ensures T.Le(FOUND, s)
  {
    assert T.ClosedFacts(RULES, s);
    LoadIsForced(s);
    StoreIsForced(s);
    Records(s.seen);
    assert T.CallRule(RULES, s, Res(1));
  }

  lemma TopIsFound()
    ensures V.Top(RULES, GIVEN) == FOUND
  {
    RulesAreOk();
    FoundIsClosed();
    V.LeastIsBelow(RULES, GIVEN, RULES.all, RULES.all, FOUND);
    V.LeastIsClosed(RULES, GIVEN, RULES.all, RULES.all);
    FoundIsForced(V.Top(RULES, GIVEN));
    T.LeBoth(FOUND, V.Top(RULES, GIVEN));
  }

  const BEFORE := {Res(2), Res(4), Res(6), A}

  /** What is found without a visit of the load or of its pointer. */
  function Early(vs: set<Value>): T.Facts {
    T.Facts(BEFORE, {Res(2), Res(4), A}, NEEDS, vs * BEFORE, {MAIN})
  }

  lemma EarlyVisit(vs: set<Value>, v: Value)
    requires !(A in vs && Res(2) in vs) && v in BEFORE && v in vs
    ensures T.VisitRule(RULES, Early(vs), v)
  {
    Demands(v);
    EarlyStores(vs, v);
  }

  lemma EarlyStores(vs: set<Value>, v: Value)
    requires !(A in vs && Res(2) in vs) && v in vs
    ensures T.StoreRule(RULES, Early(vs), v)
  {
    Demands(v);
    Records(Early(vs).seen);
  }

  lemma EarlyTests(vs: set<Value>)
    requires !(A in vs && Res(2) in vs)
    ensures forall v :: T.OwnRule(RULES, Early(vs), v) && T.CallRule(RULES, Early(vs), v)
  {
    Records(Early(vs).seen);
  }

  lemma EarlyIncludes(vs: set<Value>)
    ensures T.ClosedIncludes(RULES, Early(vs)) && T.Le(GIVEN, Early(vs))
  {
  }

  lemma FunctionIsLate(vs: set<Value>)
    requires !(A in vs && Res(2) in vs)
    ensures F !in V.Least(RULES, GIVEN, vs, vs).functions
  {
    var limit := Early(vs);
    forall v | v in limit.tainted && v in vs
      ensures T.VisitRule(RULES, limit, v)
    {
      EarlyVisit(vs, v);
    }
    EarlyTests(vs);
    EarlyIncludes(vs);
    V.LeastIsBelow(RULES, GIVEN, vs, vs, limit);
  }

  lemma FunctionIsFound()
    ensures F in V.Base(RULES, GIVEN).functions
  {
    RulesAreOk();
    V.LeastIsClosed(RULES, GIVEN, RULES.all, {});
    StoreIsForced(V.Base(RULES, GIVEN));
  }

  lemma CallIsTimely()
    ensures V.AllTimely(RULES, GIVEN)
  {
    TopIsFound();
    Records(FOUND.seen);
    FunctionIsFound();
    assert Res(1) in RULES.callSites(F);
    forall vs | vs <= RULES.all && V.AllCalled(RULES, V.Least(RULES, GIVEN, vs, vs), V.Base(RULES, GIVEN), Res(1))
      ensures T.CallTest(RULES, vs, Res(1))
    {
      Records(vs);
      if !(A in vs && Res(2) in vs) {
        FunctionIsLate(vs);
      }
    }
  }

  // ---------------------------------------------------------------- memory

  lemma ItsMemory()
    ensures DescribesMemory(GRAPH, PROGRAM, RULES) && OnlyUnited(RULES)
  {
    forall x: Site, loads: set<Value> | x == 1 || x == 3 || x == 6
      ensures RULES.important(Res(x), loads) || O.AfterAllLoads(GRAPH, x, SitesOf(loads))
    {
      NothingToRun(GRAPH, x);
      assert loads == {} ==> SitesOf(loads) == {};
    }
    OnlyTheStore();
  }

  lemma OnlyTheStore()
    ensures forall x :: IsStore(PROGRAM, x) ==> x == OTHER || x == STORE
    ensures !O.MayRun(GRAPH, 1, {3})
  {
    forall x | IsStore(PROGRAM, x)
      ensures x == OTHER || x == STORE
    {
      var f, b :| Has(PROGRAM, f, b) && x in PROGRAM[f][b].insts;
      ItsBlocks(f, b);
    }
    if O.MayRun(GRAPH, 1, {3}) {
      var c :| O.ChainTo(GRAPH, c, 1, {3});
      LastOfChain(c);
    }
  }

  lemma {:induction false} LastOfChain(c: seq<O.Site>)
    requires O.Chain(GRAPH, c)
    ensures c[|c| - 1] == c[0] || Owner(c[|c| - 1]) == F
  {
    if |c| > 1 {
      LastOfChain(c[1..]);
    }
  }

  lemma ItsClasses()
    ensures ClassesOf(PROGRAM, RULES, FOUND, CLASSES)
  {
    Records(FOUND.seen);
    OnlyTheStore();
    assert Loaded(RULES, FOUND) == {Res(2)};
  }

  /** Only the other store is left out, and its class is never loaded. */
  lemma ItsLoops()
    ensures NoLoops(GRAPH, PROGRAM, RULES, CLASSES, FOUND)
  {
    forall f, b, i | Has(PROGRAM, f, b) && i in PROGRAM[f][b].insts
      ensures NoLoopedReuse(GRAPH, PROGRAM, RULES, CLASSES, FOUND, i)
    {
      ItsBlocks(f, b);
      if Res(i.site) !in FOUND.included {
        assert i == OTHER;
        OtherIsAlone();
      }
    }
  }

  lemma OtherIsAlone()
    ensures NoLoopedReuse(GRAPH, PROGRAM, RULES, CLASSES, FOUND, OTHER)
  {
    Records(FOUND.seen);
    assert Loaded(RULES, FOUND) == {Res(2)};
    forall c | MayStore(GRAPH, PROGRAM, CLASSES, OTHER, c)
      ensures O.NoSharedLoop(GRAPH, 3, LoadsOf(Loaded(RULES, FOUND), CLASSES, c))
    {
      assert c == 1 && LoadsOf(Loaded(RULES, FOUND), CLASSES, 1) == {};
      assert forall x :: !O.MayRun(GRAPH, x, {});
    }
  }

  lemma ItsKinds()
    ensures K.IsKinded(KINDS, PROGRAM, CLASSES)
  {
    forall f, b | Has(PROGRAM, f, b)
      ensures K.KindedBlock(KINDS, PROGRAM, PROGRAM[f][b], CLASSES)
    {
      ItsBlocks(f, b);
    }
  }

  lemma ItsRuns(args: seq<int>, inputs: seq<int>)
    ensures K.SaneRun(KINDS, PROGRAM, {4}, MAIN, args, inputs)
  {
    ItsGraph();
    forall f, b, i | Has(PROGRAM, f, b) && i in PROGRAM[f][b].insts
      ensures K.IsFixed(KINDS, i)
    {
      ItsBlocks(f, b);
    }
    K.FixedIsSane(KINDS, GRAPH, PROGRAM, {4}, MAIN, args, inputs);
  }

  lemma ItIsDescribed()
    ensures IsDescribed(GRAPH, PROGRAM, RULES, {MAIN}, {4}) && Has(PROGRAM, MAIN, ENTRY)
  {
    RulesAreOk();
    ItsGraph();
    ItsSites();
    ItsRules();
    ItsMarks();
    ItsPaths();
    ItsMemory();
  }

  lemma ItIsTested()
    ensures IsTested(GRAPH, PROGRAM, RULES, {Res(4)}, {MAIN}, {MAIN, F}, {4}, CLASSES)
  {
    CallIsTimely();
    TopIsFound();
    ItsMarks();
    ItsClasses();
    ItsLoops();
  }

  lemma ARun() returns (start: T.Snapshot, order: seq<Value>, end: T.Snapshot)
    ensures V.IsStart(RULES, GIVEN, start) && T.Visits(T.Exact, RULES, start, order, end) && T.IsComplete(end)
    ensures end.facts == FOUND
  {
    RulesAreOk();
    start := T.Snapshot(V.Least(RULES, GIVEN, {}, {}), {});
    L.StartIsExact(RULES, GIVEN, start);
    order, end := L.CompleteOn(RULES, start, RULES.all);
    CallIsTimely();
    V.TimelyRunsAgree(T.Exact, RULES, GIVEN, start, order, end);
    TopIsFound();
  }

  lemma SlicedBy(g: O.Cfg, p: Program, r: T.Rules, k: Marks, args: seq<int>, inputs: seq<int>) returns (inputs': seq<int>)
    requires g == GRAPH && p == PROGRAM && r == RULES && k == MARKS && Has(p, MAIN, ENTRY)
    requires IsDescribed(g, p, r, {MAIN}, {4}) && IsTested(g, p, r, {Res(4)}, {MAIN}, {MAIN, F}, {4}, CLASSES)
    requires K.IsKinded(KINDS, p, CLASSES) && K.SaneRun(KINDS, p, {4}, MAIN, args, inputs)
    ensures Run(p, {4}, MAIN, args, inputs).trace == Run(Slice(k, p), {4}, MAIN, args, inputs').trace
  {
    var start, order, end := ARun();
    inputs' := K.KindedSliceIsRight(KINDS, g, p, r, {Res(4)}, {MAIN}, k, T.Exact, start, order, end,
                                    CLASSES, MAIN, args, inputs);
  }

  lemma ItKeeps()
    ensures Keeps(MARKS, 1) && Keeps(MARKS, 2) && Keeps(MARKS, 6) && !Keeps(MARKS, 3)
  {
  }

  /** All conditions hold together; the call, the load and the store in f stay, the other store goes. */
  lemma ExampleIsSliced(args: seq<int>, inputs: seq<int>) returns (inputs': seq<int>)
    ensures Run(PROGRAM, {4}, MAIN, args, inputs).trace == Run(Slice(MARKS, PROGRAM), {4}, MAIN, args, inputs').trace
    ensures Keeps(MARKS, 1) && Keeps(MARKS, 2) && Keeps(MARKS, 6) && !Keeps(MARKS, 3)
  {
    ItIsDescribed();
    ItIsTested();
    ItsKinds();
    ItsRuns(args, inputs);
    ItKeeps();
    inputs' := SlicedBy(GRAPH, PROGRAM, RULES, MARKS, args, inputs);
  }
}
