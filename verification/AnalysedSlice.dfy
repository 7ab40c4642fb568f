/**
From the analysis to the slice: what the worklist has found, for rules that describe the program,
meets everything that the slice needs to observe the same calls.
*/
module AnalysedSlice {
  import opened Program
  import opened Pruning
  import opened Correspondence
  import SliceSimulation
  import M = SliceMemory
  import O = CallOrder
  import T = TaintRules
  import V = VisitOrder

  // ---------------------------------------------------------------- rules for a program

  ghost predicate Operand(r: T.Rules, site: Site, v: Value) {
    v.Lit? || v in r.operands(Res(site))
  }

  ghost predicate AllOperands(r: T.Rules, site: Site, vs: seq<Value>) {
    forall j :: 0 <= j < |vs| ==> Operand(r, site, vs[j])
  }

  /** The operands of an instruction; of a parameter, the arguments at every call. */
  ghost predicate DescribesInst(r: T.Rules, i: Inst) {
    match i
    case Compute(site, _, args) => AllOperands(r, site, args)
    case Load(site, ptr) => ptr in r.operands(Res(site)) && T.Access(Res(site), ptr, T.Read) in r.accesses(Res(site))
    case Store(site, ptr, val) => Operand(r, site, ptr) && Operand(r, site, val) && Res(site) in r.stores(ptr)
    case Extern(site, args) => AllOperands(r, site, args)
    case Call(site, g, args) => Res(site) in r.callSites(g) && forall j :: 0 <= j < |args| ==> args[j] in r.operands(Param(g, j))
  }

  /** The returns of the callee give the result of a call. */
  ghost predicate DescribesRets(p: Program, r: T.Rules, i: Inst) {
    i.Call? ==> forall b :: Has(p, i.callee, b) && p[i.callee][b].term.Ret? ==> Res(p[i.callee][b].term.site) in r.rets(Res(i.site))
  }

  ghost predicate InBlock(bb: BB, x: Site) {
    x == bb.term.site || (exists i :: i in bb.insts && i.site == x) || x in bb.phis
  }

  /** What the block demands, with the terminators that lead to its successors. */
  ghost predicate DescribesBlock(p: Program, r: T.Rules, f: Fn, bb: BB) {
    && (forall i {:trigger DescribesInst(r, i)} :: i in bb.insts ==> DescribesInst(r, i) && DescribesRets(p, r, i))
    && (forall x, b :: x in bb.phis && b in bb.phis[x] ==> Operand(r, x, bb.phis[x][b]))
    && (bb.term.Switch? ==> Operand(r, bb.term.site, bb.term.cond))
    && (bb.term.Ret? ==> Operand(r, bb.term.site, bb.term.val))
    && (forall b, x :: b in Succs(bb.term) && InBlock(Code(p, f, b), x) ==> Res(bb.term.site) in r.control(Res(x)))
  }

  ghost predicate Describes(p: Program, r: T.Rules) {
    forall f, b {:trigger DescribesBlock(p, r, f, p[f][b])} :: Has(p, f, b) ==> DescribesBlock(p, r, f, p[f][b])
  }

  /** A function with an observed call is included everywhere, and so is every caller of such a function. */
  ghost predicate EverywhereInst(r: T.Rules, f: Fn, i: Inst, everywhere: set<Fn>, observed: set<Site>) {
    && (i.Extern? && i.site in observed ==> f in everywhere)
    && (i.Call? && i.callee in everywhere ==> f in everywhere && r.always(Res(i.site)))
  }

  ghost predicate EverywhereClosed(p: Program, r: T.Rules, everywhere: set<Fn>, observed: set<Site>) {
    forall f, b, i {:trigger Has(p, f, b), EverywhereInst(r, f, i, everywhere, observed)} ::
      Has(p, f, b) && i in p[f][b].insts ==> EverywhereInst(r, f, i, everywhere, observed)
  }

  // ---------------------------------------------------------------- what was found is closed

  /** The included values; needed are those that an included value needs. */
  function MarksOf(s: T.Facts, everywhere: set<Fn>, copied: set<Fn>, observed: set<Site>): Marks {
    Marks(s.included, set e | e in s.needs && e.0 in s.included :: e.1, everywhere, copied, observed)
  }

  /** The observed calls are to be included, and every function that an included call calls has a copy. */
  ghost predicate StartsFrom(p: Program, s: T.Facts, toPrecompute: set<Value>, copied: set<Fn>, observed: set<Site>) {
    && (forall x :: x in observed ==> Res(x) in toPrecompute)
    && forall f, b, i :: Has(p, f, b) && i in p[f][b].insts && i.Call? && Res(i.site) in s.included ==> i.callee in copied
  }

  lemma NeededIsIncluded(r: T.Rules, s: T.Facts, k: Marks, v: Value)
    requires T.ClosedFacts(r, s) && k.values == s.included && k.needed == set e | e in s.needs && e.0 in s.included :: e.1
    requires v in k.needed
    ensures v in s.included && v in s.tainted && T.IsNeeded(s, v)
  {
    var e :| e in s.needs && e.0 in s.included && e.1 == v;
    assert T.IncludeRule(r, s, e.0) && (e.0, v) in s.needs;
    assert T.IncludeRule(r, s, v);
  }

  /** The operands of an included value are needed. */
  lemma OperandIsNeeded(r: T.Rules, s: T.Facts, k: Marks, x: Value, v: Value)
    requires T.ClosedFacts(r, s) && k.values == s.included && k.needed == set e | e in s.needs && e.0 in s.included :: e.1
    requires x in s.included && v in r.operands(x)
    ensures v in k.needed
  {
    assert T.IncludeRule(r, s, x) && T.VisitRule(r, s, x);
    assert (x, v) in s.needs && (x, v).0 in s.included && (x, v).1 == v;
  }

  lemma OperandAvail(r: T.Rules, s: T.Facts, k: Marks, site: Site, v: Value)
    requires T.ClosedFacts(r, s) && k.values == s.included && k.needed == set e | e in s.needs && e.0 in s.included :: e.1
    requires Keeps(k, site) && Operand(r, site, v)
    ensures Avail(k, v)
  {
    if !v.Lit? {
      OperandIsNeeded(r, s, k, Res(site), v);
    }
  }

  lemma OperandsAreOk(r: T.Rules, s: T.Facts, k: Marks, i: Inst)
    requires T.ClosedFacts(r, s) && k.values == s.included && k.needed == set e | e in s.needs && e.0 in s.included :: e.1
    requires Keeps(k, i.site) && DescribesInst(r, i) && (i.Call? ==> i.callee in k.copied)
    ensures OperandsOk(k, i)
  {
    match i
    case Compute(site, _, args) =>
      forall j | 0 <= j < |args|
        ensures Avail(k, args[j])
      {
        OperandAvail(r, s, k, site, args[j]);
      }
    case Load(site, ptr) => OperandAvail(r, s, k, site, ptr);
    case Store(site, ptr, val) =>
      OperandAvail(r, s, k, site, ptr);
      OperandAvail(r, s, k, site, val);
    case Extern(site, args) =>
      forall j | 0 <= j < |args|
        ensures Avail(k, args[j])
      {
        OperandAvail(r, s, k, site, args[j]);
      }
    case Call(site, g, args) =>
      forall j | 0 <= j < |args| && Param(g, j) in k.needed
        ensures args[j] in k.needed
      {
        NeededIsIncluded(r, s, k, Param(g, j));
        OperandIsNeeded(r, s, k, Param(g, j), args[j]);
      }
  }

  lemma InstIsOk(p: Program, r: T.Rules, s: T.Facts, toPrecompute: set<Value>, k: Marks, f: Fn, b: Block, i: Inst)
    requires T.ClosedFacts(r, s) && k == MarksOf(s, k.everywhere, k.copied, k.observed)
    requires Describes(p, r) && EverywhereClosed(p, r, k.everywhere, k.observed)
    requires StartsFrom(p, s, toPrecompute, k.copied, k.observed) && toPrecompute <= s.included && k.everywhere <= s.functions
    requires Has(p, f, b) && i in p[f][b].insts
    ensures InstOk(p, k, f, i)
  {
    assert DescribesBlock(p, r, f, p[f][b]) && DescribesInst(r, i);
    assert EverywhereInst(r, f, i, k.everywhere, k.observed);
    if Keeps(k, i.site) {
      OperandsAreOk(r, s, k, i);
    }
    if i.Call? && Res(i.site) in k.needed {
      NeededIsIncluded(r, s, k, Res(i.site));
      assert T.VisitRule(r, s, Res(i.site)) && T.IncludeRule(r, s, Res(i.site));
    }
    if i.Call? && i.callee in k.everywhere {
      assert T.FunctionRule(r, s, i.callee) && T.VisitRule(r, s, Res(i.site));
    }
  }

  lemma KeptSite(k: Marks, bb: BB) returns (x: Site)
    requires HasKept(k, bb)
    ensures InBlock(bb, x) && Keeps(k, x)
  {
    if Keeps(k, bb.term.site) {
      x := bb.term.site;
    } else if i :| i in bb.insts && Keeps(k, i.site) {
      x := i.site;
    } else {
      x :| x in bb.phis && Keeps(k, x);
    }
  }

  /** The marks of the analysis are closed in the sense that the slice needs. */
  lemma AnalysisIsClosed(p: Program, r: T.Rules, s: T.Facts, toPrecompute: set<Value>, k: Marks)
    requires T.ClosedFacts(r, s) && k == MarksOf(s, k.everywhere, k.copied, k.observed)
    requires Describes(p, r) && EverywhereClosed(p, r, k.everywhere, k.observed)
    requires StartsFrom(p, s, toPrecompute, k.copied, k.observed) && toPrecompute <= s.included && k.everywhere <= s.functions
    ensures Closed(p, k)
  {
    forall v | v in k.needed
      ensures v in k.values
    {
      NeededIsIncluded(r, s, k, v);
    }
    forall f, b | Has(p, f, b)
      ensures BlockOk(p, k, f, p[f][b])
    {
      BlockIsOk(p, r, s, toPrecompute, k, f, b);
    }
  }

  lemma BlockIsOk(p: Program, r: T.Rules, s: T.Facts, toPrecompute: set<Value>, k: Marks, f: Fn, b: Block)
    requires T.ClosedFacts(r, s) && k == MarksOf(s, k.everywhere, k.copied, k.observed)
    requires Describes(p, r) && EverywhereClosed(p, r, k.everywhere, k.observed)
    requires StartsFrom(p, s, toPrecompute, k.copied, k.observed) && toPrecompute <= s.included && k.everywhere <= s.functions
    requires Has(p, f, b)
    ensures BlockOk(p, k, f, p[f][b])
  {
    var bb := p[f][b];
    assert DescribesBlock(p, r, f, bb);
    forall i | i in bb.insts
      ensures InstOk(p, k, f, i)
    {
      InstIsOk(p, r, s, toPrecompute, k, f, b, i);
    }
    forall x, b' | x in bb.phis && Keeps(k, x) && b' in bb.phis[x]
      ensures Avail(k, bb.phis[x][b'])
    {
      OperandAvail(r, s, k, x, bb.phis[x][b']);
    }
    if Keeps(k, bb.term.site) {
      if bb.term.Switch? {
        OperandAvail(r, s, k, bb.term.site, bb.term.cond);
      }
      if bb.term.Ret? {
        OperandAvail(r, s, k, bb.term.site, bb.term.val);
      }
    }
    forall b' | b' in Succs(bb.term) && HasKept(k, Code(p, f, b'))
      ensures Keeps(k, bb.term.site)
    {
      var x := KeptSite(k, Code(p, f, b'));
      assert T.IncludeRule(r, s, Res(x));
    }
  }

  // ---------------------------------------------------------------- what was left out is unimportant

  function SitesOf(loads: set<Value>): set<Site> {
    set v | v in loads && v.Res? :: v.site
  }

  /** The registered loads, and those of an alias class. */
  function Loaded(r: T.Rules, s: T.Facts): set<Value> {
    set a | a in T.Accesses(r, s.seen) && a.kind.Read? :: a.inst
  }

  function LoadsOf(loaded: set<Value>, cls: Site -> nat, c: nat): set<Site> {
    set v | v in loaded && v.Res? && cls(v.site) == c :: v.site
  }

  ghost predicate IsStore(p: Program, x: Inst) {
    x.Store? && exists f, b :: Has(p, f, b) && x in p[f][b].insts
  }

  /** The function of store x is recorded to write its pointer. */
  function EntryOf(g: O.Cfg, x: Inst): T.Entry
    requires x.Store?
  {
    T.Entry(g.owner(x.site), x.ptr, true)
  }

  /** A pointer records the functions of its stores, and a call may make all entries of the stores that it
      may run; a store or a call counts as important unless it is after all loads. */
  ghost predicate DescribesAccess(g: O.Cfg, p: Program, r: T.Rules, i: Inst) {
    && (i.Store? || i.Call? ==> forall loads {:trigger r.important(Res(i.site), loads)} ::
          r.important(Res(i.site), loads) || O.AfterAllLoads(g, i.site, SitesOf(loads)))
    && (i.Store? ==> EntryOf(g, i) in r.enters(i.ptr))
    && (i.Call? ==> forall x {:trigger IsStore(p, x)} :: IsStore(p, x) && O.MayRun(g, i.site, {x.site}) ==>
          EntryOf(g, x) in r.writes(Res(i.site)))
  }

  ghost predicate DescribesMemory(g: O.Cfg, p: Program, r: T.Rules) {
    forall f, b, i {:trigger Has(p, f, b), DescribesAccess(g, p, r, i)} ::
      Has(p, f, b) && i in p[f][b].insts ==> DescribesAccess(g, p, r, i)
  }

  /** Pointers come to share an info by being merged, or by a merge that concerns them. */
  ghost predicate OnlyUnited(r: T.Rules) {
    forall e, a, b {:trigger r.same(e, a, b)} :: r.same(e, a, b) && a != b ==> b in T.Ends(e)
  }

  /** The numbering of the alias classes is that of the analysis: a load and a store in one class go
      through pointers that share an info. */
  ghost predicate ClassesOf(p: Program, r: T.Rules, s: T.Facts, cls: Site -> nat) {
    forall l, x {:trigger Res(l) in T.LoadsOf(r, s.seen, x.ptr)} ::
      Res(l) in Loaded(r, s) && IsStore(p, x) && cls(l) == cls(x.site) ==> Res(l) in T.LoadsOf(r, s.seen, x.ptr)
  }

  /** x may store to class c: it is a store of the class, or a call that may run one. */
  ghost predicate MayStore(g: O.Cfg, p: Program, cls: Site -> nat, i: Inst, c: nat) {
    exists x :: IsStore(p, x) && cls(x.site) == c && (i == x || (i.Call? && O.MayRun(g, i.site, {x.site})))
  }

  /** The condition under which the test for stores is exact, for everything that is left out. */
  ghost predicate NoLoopedReuse(g: O.Cfg, p: Program, r: T.Rules, cls: Site -> nat, s: T.Facts, i: Inst) {
    Res(i.site) !in s.included ==> forall c {:trigger MayStore(g, p, cls, i, c)} :: MayStore(g, p, cls, i, c) ==>
      O.NoSharedLoop(g, i.site, LoadsOf(Loaded(r, s), cls, c))
  }

  ghost predicate NoLoops(g: O.Cfg, p: Program, r: T.Rules, cls: Site -> nat, s: T.Facts) {
    forall f, b, i {:trigger Has(p, f, b), NoLoopedReuse(g, p, r, cls, s, i)} ::
      Has(p, f, b) && i in p[f][b].insts ==> NoLoopedReuse(g, p, r, cls, s, i)
  }

  lemma NothingToRun(g: O.Cfg, s: Site)
    ensures O.AfterAllLoads(g, s, {})
  {
    assert forall y :: !O.MayRun(g, y, {});
  }

  lemma FewerLoads(g: O.Cfg, d: Site, few: set<Site>, many: set<Site>)
    requires O.AfterAllLoads(g, d, many) && few <= many
    ensures O.AfterAllLoads(g, d, few)
  {
    forall y | O.MayRun(g, y, few)
      ensures O.MayRun(g, y, many)
    {
      var c :| O.ChainTo(g, c, y, few);
      assert O.ChainTo(g, c, y, many);
    }
  }

  // ---------------------------------------------------------------- functions of included stores

  /** The graph has no calls and no owners but those of the program. */
  ghost predicate OnlyDescribes(g: O.Cfg, p: Program) {
    && (forall f, b, x {:trigger Has(p, f, b), g.owner(x)} :: Has(p, f, b) && InBlock(p[f][b], x) ==> g.owner(x) == f)
    && (forall e {:trigger e in g.calls} :: e in g.calls ==> IsCallInst(p, e.0, e.1))
  }

  ghost predicate IsCallInst(p: Program, x: Site, f: Fn) {
    exists f', b, i :: Has(p, f', b) && i in p[f'][b].insts && i.Call? && i.site == x && i.callee == f
  }

  ghost predicate PathTo(p: Program, f: Fn, path: seq<Block>, b: Block) {
    && path != [] && path[0] == ENTRY && path[|path| - 1] == b && Has(p, f, ENTRY)
    && forall j :: 0 < j < |path| ==> Has(p, f, path[j]) && path[j] in Succs(Code(p, f, path[j - 1]).term)
  }

  ghost predicate IsReached(p: Program, f: Fn, b: Block) {
    exists path :: PathTo(p, f, path, b)
  }

  /** No function has unreachable blocks. */
  ghost predicate AllReached(p: Program) {
    forall f, b {:trigger IsReached(p, f, b)} :: Has(p, f, b) ==> IsReached(p, f, b)
  }

  ghost predicate DescribesEntries(p: Program, r: T.Rules) {
    forall f, x {:trigger r.entryOf(Res(x)), Has(p, f, ENTRY)} :: Has(p, f, ENTRY) && InBlock(p[f][ENTRY], x) ==> f in r.entryOf(Res(x))
  }

  /** If something in a block is included, so are the branches that lead there, and its function. */
  lemma {:induction false} FunctionIsIncluded(p: Program, r: T.Rules, s: T.Facts, f: Fn, path: seq<Block>, b: Block, x: Site)
    requires T.ClosedFacts(r, s) && Describes(p, r) && DescribesEntries(p, r)
    requires PathTo(p, f, path, b) && InBlock(p[f][b], x) && Res(x) in s.included
    ensures f in s.functions
    decreases |path|
  {
    assert T.IncludeRule(r, s, Res(x));
    if |path| > 1 {
      var before := path[|path| - 2];
      assert Has(p, f, before) && DescribesBlock(p, r, f, p[f][before]);
      assert Code(p, f, b) == p[f][b];
      FunctionIsIncluded(p, r, s, f, path[..|path| - 1], before, p[f][before].term.site);
    }
  }

  // ---------------------------------------------------------------- what was left out

  /** The facts that the worklist ends with, when no call was overlooked. */
  ghost predicate Analysed(p: Program, r: T.Rules, s: T.Facts, cls: Site -> nat) {
    && T.RulesOk(r) && T.ClosedFacts(r, s) && T.CallsTested(r, s)
    && s.seen == s.tainted && T.Ends(T.Unions(r, s.seen)) <= s.tainted
    && OnlyUnited(r) && ClassesOf(p, r, s, cls)
  }

  ghost predicate After(g: O.Cfg, r: T.Rules, cls: Site -> nat, s: T.Facts, d: Site, c: nat) {
    O.AfterAllLoads(g, d, LoadsOf(Loaded(r, s), cls, c))
  }

  /** A store shares its info with all registered loads of its class, and has been visited itself. */
  lemma PointerIsFound(p: Program, r: T.Rules, s: T.Facts, cls: Site -> nat, x: Inst, l: Site)
    requires Analysed(p, r, s, cls) && IsStore(p, x) && Res(l) in Loaded(r, s) && cls(l) == cls(x.site)
    ensures x.ptr in s.tainted
    ensures LoadsOf(Loaded(r, s), cls, cls(x.site)) <= SitesOf(T.LoadsOf(r, s.seen, x.ptr))
  {
    assert Res(l) in T.LoadsOf(r, s.seen, x.ptr);
    var a :| a in T.AccessesOf(r, s.seen, x.ptr) && a.kind.Read? && a.inst == Res(l);
    var v :| v in s.seen && a in r.accesses(v);
    assert T.RuleOk(r, v) && T.VisitRule(r, s, v);
    assert a.ptr in s.tainted;
    forall m | m in LoadsOf(Loaded(r, s), cls, cls(x.site))
      ensures m in SitesOf(T.LoadsOf(r, s.seen, x.ptr))
    {
      assert Res(m) in T.LoadsOf(r, s.seen, x.ptr);
    }
  }

  /** Whatever is left out when the worklist ends comes after all loads that are known at the end, also
      those found after its last visit, and whatever pointers came to be aliases on the way. */
  lemma LeftOutIsUnimportant(g: O.Cfg, p: Program, r: T.Rules, cls: Site -> nat, s: T.Facts, i: Inst, x: Inst)
    requires Analysed(p, r, s, cls) && IsStore(p, x) && DescribesInst(r, x)
    requires DescribesAccess(g, p, r, i) && DescribesAccess(g, p, r, x)
    requires Res(i.site) !in s.included
    requires i == x || (i.Call? && O.MayRun(g, i.site, {x.site}) && Res(i.site) in s.tainted)
    ensures After(g, r, cls, s, i.site, cls(x.site))
  {
    var c := cls(x.site);
    if LoadsOf(Loaded(r, s), cls, c) == {} {
      NothingToRun(g, i.site);
    } else {
      var l :| l in LoadsOf(Loaded(r, s), cls, c);
      PointerIsFound(p, r, s, cls, x, l);
      assert T.VisitRule(r, s, x.ptr);
      assert EntryOf(g, x) in T.Entries(r, s.seen);
      assert i.Call? ==> EntryOf(g, x) in r.writes(Res(i.site)) && T.CallRule(r, s, Res(i.site));
      assert !r.important(Res(i.site), T.LoadsOf(r, s.seen, x.ptr));
      FewerLoads(g, i.site, LoadsOf(Loaded(r, s), cls, c), SitesOf(T.LoadsOf(r, s.seen, x.ptr)));
    }
  }

  /** A call is after all loads if something that it may run is. */
  lemma AfterUp(g: O.Cfg, d: Site, e: Site, loads: set<Site>)
    requires O.AfterAllLoads(g, e, loads) && (d, g.owner(e)) in g.calls
    ensures O.AfterAllLoads(g, d, loads)
  {
    forall y | O.MayRun(g, y, {d})
      ensures O.MayRun(g, y, {e})
    {
      var c :| O.ChainTo(g, c, y, {d});
      LongerChain(g, c, d, e);
    }
  }

  lemma {:induction false} LongerChain(g: O.Cfg, c: seq<Site>, d: Site, e: Site)
    requires O.Chain(g, c) && c[|c| - 1] == d && (d, g.owner(e)) in g.calls
    ensures O.ChainTo(g, c + [e], c[0], {e})
  {
    if |c| == 1 {
      assert [e] == (c + [e])[1..];
      assert O.Chain(g, [e]);
    } else {
      LongerChain(g, c[1..], d, e);
      assert (c + [e])[1..] == c[1..] + [e];
    }
  }

  ghost predicate IsPlace(p: Program, x: Site) {
    exists f, b :: Has(p, f, b) && InBlock(p[f][b], x)
  }

  lemma StoreIsDescribed(g: O.Cfg, p: Program, r: T.Rules, x: Inst)
    requires IsStore(p, x) && DescribesMemory(g, p, r) && Describes(p, r)
    ensures DescribesInst(r, x) && DescribesAccess(g, p, r, x) && IsPlace(p, x.site)
  {
    var f, b :| Has(p, f, b) && x in p[f][b].insts;
    assert DescribesBlock(p, r, f, p[f][b]) && InBlock(p[f][b], x.site);
  }

  lemma CallIsDescribed(g: O.Cfg, p: Program, r: T.Rules, e: (Site, Fn)) returns (i: Inst)
    requires OnlyDescribes(g, p) && e in g.calls && DescribesMemory(g, p, r) && Describes(p, r)
    ensures i.Call? && i.site == e.0 && Res(i.site) in r.callSites(e.1) && DescribesAccess(g, p, r, i) && IsPlace(p, e.0)
  {
    assert IsCallInst(p, e.0, e.1);
    var f, b, j :| Has(p, f, b) && j in p[f][b].insts && j.Call? && j.site == e.0 && j.callee == e.1;
    i := j;
    assert DescribesBlock(p, r, f, p[f][b]) && DescribesInst(r, i) && InBlock(p[f][b], i.site);
  }

  /** The calls of the function of an included instruction are tainted, so they have been tested. */
  lemma OwnerIsIncluded(g: O.Cfg, p: Program, r: T.Rules, s: T.Facts, x: Site)
    requires T.ClosedFacts(r, s) && Describes(p, r) && DescribesEntries(p, r) && OnlyDescribes(g, p) && AllReached(p)
    requires IsPlace(p, x) && Res(x) in s.included
    ensures r.callSites(g.owner(x)) <= s.tainted
  {
    var f, b :| Has(p, f, b) && InBlock(p[f][b], x);
    assert IsReached(p, f, b);
    var path :| PathTo(p, f, path, b);
    FunctionIsIncluded(p, r, s, f, path, b, x);
    assert T.FunctionRule(r, s, f) && g.owner(x) == f;
  }

  /** Along a chain of calls to a store, everything is included or after all loads. */
  lemma {:induction false} ChainIsUnimportant(g: O.Cfg, p: Program, r: T.Rules, cls: Site -> nat, s: T.Facts,
                                              c: seq<Site>, x: Inst)
    requires Analysed(p, r, s, cls) && IsStore(p, x) && DescribesMemory(g, p, r) && Describes(p, r)
    requires OnlyDescribes(g, p) && AllReached(p) && DescribesEntries(p, r)
    requires O.Chain(g, c) && c[|c| - 1] == x.site
    ensures Res(c[0]) in s.included || After(g, r, cls, s, c[0], cls(x.site))
    ensures IsPlace(p, c[0])
  {
    if |c| == 1 {
      StoreIsDescribed(g, p, r, x);
      if Res(x.site) !in s.included {
        LeftOutIsUnimportant(g, p, r, cls, s, x, x);
      }
    } else {
      ChainIsUnimportant(g, p, r, cls, s, c[1..], x);
      var i := CallIsDescribed(g, p, r, (c[0], g.owner(c[1])));
      if Res(c[1]) !in s.included {
        AfterUp(g, c[0], c[1], LoadsOf(Loaded(r, s), cls, cls(x.site)));
      } else if Res(c[0]) !in s.included {
        OwnerIsIncluded(g, p, r, s, c[1]);
        StoreIsDescribed(g, p, r, x);
        assert O.ChainTo(g, c, c[0], {x.site});
        LeftOutIsUnimportant(g, p, r, cls, s, i, x);
      }
    }
  }

  /** What is left out passes the test for stores, for the loads and the aliases known at the end. */
  lemma DropsAreOk(g: O.Cfg, p: Program, r: T.Rules, cls: Site -> nat, s: T.Facts, k: Marks)
    requires Analysed(p, r, s, cls) && k.values == s.included && DescribesMemory(g, p, r) && Describes(p, r)
    requires OnlyDescribes(g, p) && AllReached(p) && DescribesEntries(p, r) && NoLoops(g, p, r, cls, s)
    ensures M.OnlyUnimportantDropped(g, p, k, cls, c => LoadsOf(Loaded(r, s), cls, c))
  {
    forall f, b, i | Has(p, f, b) && i in p[f][b].insts
      ensures M.DropOk(g, p, k, cls, c => LoadsOf(Loaded(r, s), cls, c), i)
    {
      InstDropIsOk(g, p, r, cls, s, k, f, b, i);
    }
  }

  lemma InstDropIsOk(g: O.Cfg, p: Program, r: T.Rules, cls: Site -> nat, s: T.Facts, k: Marks, f: Fn, b: Block, i: Inst)
    requires Analysed(p, r, s, cls) && k.values == s.included && DescribesMemory(g, p, r) && Describes(p, r)
    requires OnlyDescribes(g, p) && AllReached(p) && DescribesEntries(p, r) && NoLoops(g, p, r, cls, s)
    requires Has(p, f, b) && i in p[f][b].insts
    ensures M.DropOk(g, p, k, cls, c => LoadsOf(Loaded(r, s), cls, c), i)
  {
    if i.Load? && Keeps(k, i.site) {
      LoadIsRegistered(p, r, s, f, b, i);
    } else if i.Store? && !Keeps(k, i.site) {
      assert M.StoreSite(p, i.site);
      DropIsUnimportant(g, p, r, cls, s, f, b, i, i.site);
    } else if i.Call? && !Keeps(k, i.site) {
      forall x | M.StoreSite(p, x) && O.MayRun(g, i.site, {x})
        ensures M.Unimportant(g, i.site, LoadsOf(Loaded(r, s), cls, cls(x)))
      {
        DropIsUnimportant(g, p, r, cls, s, f, b, i, x);
      }
    }
  }

  lemma LoadIsRegistered(p: Program, r: T.Rules, s: T.Facts, f: Fn, b: Block, i: Inst)
    requires T.ClosedFacts(r, s) && Describes(p, r) && Has(p, f, b) && i in p[f][b].insts && i.Load?
    requires Res(i.site) in s.included
    ensures Res(i.site) in Loaded(r, s)
  {
    assert DescribesBlock(p, r, f, p[f][b]) && DescribesInst(r, i);
    assert T.IncludeRule(r, s, Res(i.site)) && T.VisitRule(r, s, Res(i.site));
    var load := T.Access(Res(i.site), i.ptr, T.Read);
    assert load in T.Accesses(r, s.seen) && load.kind.Read?;
  }

  lemma DropIsUnimportant(g: O.Cfg, p: Program, r: T.Rules, cls: Site -> nat, s: T.Facts, f: Fn, b: Block, i: Inst, x: Site)
    requires Analysed(p, r, s, cls) && DescribesMemory(g, p, r) && Describes(p, r)
    requires OnlyDescribes(g, p) && AllReached(p) && DescribesEntries(p, r) && NoLoops(g, p, r, cls, s)
    requires Has(p, f, b) && i in p[f][b].insts && Res(i.site) !in s.included && M.StoreSite(p, x)
    requires (i.Store? && x == i.site) || (i.Call? && O.MayRun(g, i.site, {x}))
    ensures M.Unimportant(g, i.site, LoadsOf(Loaded(r, s), cls, cls(x)))
  {
    var store, c := StoreOf(g, p, f, b, i, x);
    ChainIsUnimportant(g, p, r, cls, s, c, store);
    assert MayStore(g, p, cls, i, cls(x)) && NoLoopedReuse(g, p, r, cls, s, i);
  }

  /** The store that is left out with i, and the chain of calls that leads to it. */
  lemma StoreOf(g: O.Cfg, p: Program, f: Fn, b: Block, i: Inst, x: Site) returns (store: Inst, c: seq<Site>)
    requires Has(p, f, b) && i in p[f][b].insts && M.StoreSite(p, x)
    requires (i.Store? && x == i.site) || (i.Call? && O.MayRun(g, i.site, {x}))
    ensures IsStore(p, store) && store.site == x && O.Chain(g, c) && c[0] == i.site && c[|c| - 1] == x
    ensures i == store || (i.Call? && O.MayRun(g, i.site, {store.site}))
  {
    if i.Store? {
      store, c := i, [x];
    } else {
      var f', b', j :| Has(p, f', b') && j in p[f'][b'].insts && j.Store? && j.site == x;
      store := j;
      c :| O.ChainTo(g, c, i.site, {x});
    }
  }

  /** The graph and the rules describe the program. */
  ghost predicate IsDescribed(g: O.Cfg, p: Program, r: T.Rules, everywhere: set<Fn>, observed: set<Site>) {
    && WellFormed(p) && M.Describes(g, p) && OnlyDescribes(g, p) && AllReached(p) && T.RulesOk(r) && Describes(p, r)
    && EverywhereClosed(p, r, everywhere, observed) && DescribesEntries(p, r) && DescribesMemory(g, p, r) && OnlyUnited(r)
  }

  /** No call is tested too early, and for the facts found from what is given the test for stores is exact. */
  ghost predicate IsTested(g: O.Cfg, p: Program, r: T.Rules, toPrecompute: set<Value>, everywhere: set<Fn>,
                           copied: set<Fn>, observed: set<Site>, cls: Site -> nat) {
    var given := V.Given(toPrecompute, everywhere);
    var top := V.Top(r, given);
    && V.AllTimely(r, given) && StartsFrom(p, top, toPrecompute, copied, observed)
    && ClassesOf(p, r, top, cls) && NoLoops(g, p, r, cls, top)
  }

  /** Everything together.  The conditions are on the program, on the rules and on what is given: all calls
      are timely, and the facts that then are found are such that the test for stores is exact.  Then slice
      the program with what any complete run of the analysis has found, in whatever order: every run of the
      program is matched by a run of the slice with the same observed calls and arguments. */
  lemma AnalysedSliceIsRight(g: O.Cfg, p: Program, r: T.Rules, toPrecompute: set<Value>, everywhere: set<Fn>, k: Marks,
                             m: T.Mode, start: T.Snapshot, order: seq<Value>, end: T.Snapshot,
                             cls: Site -> nat, region: Addr -> nat,
                             main: Fn, args: seq<int>, inputs: seq<int>) returns (inputs': seq<int>)
    requires IsDescribed(g, p, r, everywhere, k.observed) && Has(p, main, ENTRY)
    requires IsTested(g, p, r, toPrecompute, everywhere, k.copied, k.observed, cls)
    requires V.IsStart(r, V.Given(toPrecompute, everywhere), start)
    requires T.Visits(m, r, start, order, end) && T.IsComplete(end)
    requires k == MarksOf(end.facts, everywhere, k.copied, k.observed) && main in k.copied
    requires M.Respects(p, k, main, args, inputs, cls, region)
    ensures var a, b := Run(p, k.observed, main, args, inputs), Run(Slice(k, p), k.observed, main, args, inputs');
            b.trace == a.trace && (a.stack == [] ==> b.stack == []) && |inputs'| <= |inputs|
  {
    var given := V.Given(toPrecompute, everywhere);
    V.OutcomeIsClosed(m, r, given, start, order, end);
    V.TimelyRunsAgree(m, r, given, start, order, end);
    AnalysisIsClosed(p, r, end.facts, toPrecompute, k);
    DropsAreOk(g, p, r, cls, end.facts, k);
    inputs' := M.SliceIsRight(g, p, k, cls, c => LoadsOf(Loaded(r, end.facts), cls, c), region, main, args, inputs);
  }
}
