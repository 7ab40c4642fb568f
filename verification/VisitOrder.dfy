/**
Does the order of visits matter?  Whatever the order, a complete run ends with facts that are closed
under all rules but the test of calls, which is made only when a call is visited.  What a run ends with
is decided by the rules and the given values if every call is sure to be visited once its test passes.
*/
module VisitOrder {
  import opened Program
  import opened TaintRules

  // ---------------------------------------------------------------- least facts

  /** Fact x is in all facts above g that are closed under the rules for the values in vs and under the
      tests of the calls in cs. */
  ghost predicate Forced(r: Rules, g: Facts, vs: set<Value>, cs: set<Value>, x: Fact) {
    forall limit {:trigger ClosedBy(r, vs, cs, limit)} :: ClosedBy(r, vs, cs, limit) && Le(g, limit) ==> Holds(limit, x)
  }

  ghost function Least(r: Rules, g: Facts, vs: set<Value>, cs: set<Value>): Facts {
    Facts(set v | v in r.all && Forced(r, g, vs, cs, IsTainted(v)),
          set v | v in r.all && Forced(r, g, vs, cs, IsIncluded(v)),
          set u, w | u in r.all && w in r.all && Forced(r, g, vs, cs, Edge(u, w)) :: (u, w),
          set v | v in r.all && Forced(r, g, vs, cs, IsSeen(v)),
          set f | f in r.fns && Forced(r, g, vs, cs, IsFunction(f)))
  }

  lemma LeastIsBelow(r: Rules, g: Facts, vs: set<Value>, cs: set<Value>, limit: Facts)
    requires ClosedBy(r, vs, cs, limit) && Le(g, limit)
    ensures Le(Least(r, g, vs, cs), limit)
  {
    var least := Least(r, g, vs, cs);
    forall v
      ensures v in least.tainted ==> Holds(limit, IsTainted(v))
      ensures v in least.included ==> Holds(limit, IsIncluded(v))
      ensures v in least.seen ==> Holds(limit, IsSeen(v))
    {
    }
    forall f | f in least.functions
      ensures Holds(limit, IsFunction(f))
    {
    }
    forall u, w | (u, w) in least.needs
      ensures Holds(limit, Edge(u, w))
    {
    }
    forall e | e in least.needs
      ensures e in limit.needs
    {
      assert (e.0, e.1) == e;
    }
  }

  lemma UniverseIsClosed(r: Rules, vs: set<Value>, cs: set<Value>)
    requires RulesOk(r)
    ensures ClosedBy(r, vs, cs, Universe(r))
  {
    var all := Universe(r);
    forall v | v in r.all
      ensures VisitRule(r, all, v) && IncludeRule(r, all, v) && OwnRule(r, all, v) && CallRule(r, all, v)
    {
      assert RuleOk(r, v);
      forall u | u in r.stores(v)
        ensures u in all.included
      {
      }
    }
  }

  lemma LeastInUniverse(r: Rules, g: Facts, vs: set<Value>, cs: set<Value>)
    requires RulesOk(r) && Le(g, Universe(r))
    ensures Le(g, Least(r, g, vs, cs)) && Le(Least(r, g, vs, cs), Universe(r))
  {
    UniverseIsClosed(r, vs, cs);
    LeastIsBelow(r, g, vs, cs, Universe(r));
    var least := Least(r, g, vs, cs);
    forall e | e in g.needs
      ensures e in least.needs
    {
      assert e == (e.0, e.1) && e in Universe(r).needs;
      assert Forced(r, g, vs, cs, Edge(e.0, e.1));
    }
  }

  lemma LeastIncludes(r: Rules, g: Facts, vs: set<Value>, cs: set<Value>, v: Value)
    requires RulesOk(r) && Le(g, Universe(r)) && v in Least(r, g, vs, cs).included
    ensures IncludeRule(r, Least(r, g, vs, cs), v)
  {
    var least := Least(r, g, vs, cs);
    LeastInUniverse(r, g, vs, cs);
    assert RuleOk(r, v);
    forall limit | ClosedBy(r, vs, cs, limit) && Le(g, limit)
      ensures IncludeRule(r, limit, v) && Le(least, limit)
    {
      LeastIsBelow(r, g, vs, cs, limit);
    }
    assert Forced(r, g, vs, cs, IsTainted(v));
    forall w | w in r.control(v)
      ensures w in least.included
    {
      assert Forced(r, g, vs, cs, IsIncluded(w));
    }
    forall f | f in r.entryOf(v)
      ensures f in least.functions
    {
      assert Forced(r, g, vs, cs, IsFunction(f));
    }
    forall w | (v, w) in least.needs
      ensures w in least.included
    {
      assert Forced(r, g, vs, cs, IsIncluded(w));
    }
  }

  lemma LeastCalls(r: Rules, g: Facts, vs: set<Value>, cs: set<Value>, f: Fn)
    requires RulesOk(r) && Le(g, Universe(r)) && f in Least(r, g, vs, cs).functions
    ensures FunctionRule(r, Least(r, g, vs, cs), f)
  {
    forall c | c in r.callSites(f)
      ensures c in Least(r, g, vs, cs).tainted
    {
      forall limit | ClosedBy(r, vs, cs, limit) && Le(g, limit)
        ensures c in limit.tainted
      {
        LeastIsBelow(r, g, vs, cs, limit);
        assert ClosedIncludes(r, limit) && f in limit.functions;
        assert FunctionRule(r, limit, f);
      }
      assert Forced(r, g, vs, cs, IsTainted(c));
    }
  }

  /** What a closed limit holds about a value that is visited, the least facts hold as well. */
  lemma LeastVisits(r: Rules, g: Facts, vs: set<Value>, cs: set<Value>, v: Value)
    requires RulesOk(r) && Le(g, Universe(r)) && v in Least(r, g, vs, cs).tainted && v in vs
    ensures VisitRule(r, Least(r, g, vs, cs), v) && OwnRule(r, Least(r, g, vs, cs), v)
  {
    var least := Least(r, g, vs, cs);
    LeastInUniverse(r, g, vs, cs);
    assert RuleOk(r, v);
    forall limit | ClosedBy(r, vs, cs, limit) && Le(g, limit)
      ensures VisitRule(r, limit, v) && OwnRule(r, limit, v) && Le(least, limit)
    {
      LeastIsBelow(r, g, vs, cs, limit);
    }
    assert Forced(r, g, vs, cs, IsSeen(v));
    LeastNeeds(r, g, vs, cs, v, r.operands(v));
    if IsNeeded(least, v) {
      var u :| (u, v) in least.needs;
      LeastNeeds(r, g, vs, cs, v, r.rets(v));
    }
    forall w | w in Ends(r.unites(v)) + r.stores(v) + r.traces(v)
      ensures w in least.tainted
    {
      assert Forced(r, g, vs, cs, IsTainted(w));
    }
    LeastTests(r, g, vs, cs, v);
    if r.always(v) {
      assert Forced(r, g, vs, cs, IsIncluded(v));
    }
  }

  lemma LeastNeeds(r: Rules, g: Facts, vs: set<Value>, cs: set<Value>, v: Value, ws: set<Value>)
    requires RulesOk(r) && Le(g, Universe(r)) && v in r.all && ws <= r.all
    requires forall limit :: ClosedBy(r, vs, cs, limit) && Le(g, limit) ==> NeedsAll(limit, v, ws)
    ensures NeedsAll(Least(r, g, vs, cs), v, ws)
  {
    forall w | w in ws
      ensures w in Least(r, g, vs, cs).tainted && (v, w) in Least(r, g, vs, cs).needs
    {
      assert Forced(r, g, vs, cs, IsTainted(w)) && Forced(r, g, vs, cs, Edge(v, w));
    }
  }

  lemma LeastTests(r: Rules, g: Facts, vs: set<Value>, cs: set<Value>, v: Value)
    requires RulesOk(r) && Le(g, Universe(r)) && v in Least(r, g, vs, cs).tainted && v in vs
    ensures StoreRule(r, Least(r, g, vs, cs), v) && OwnRule(r, Least(r, g, vs, cs), v)
  {
    var least := Least(r, g, vs, cs);
    assert RuleOk(r, v);
    forall u | u in r.stores(v) && r.important(u, LoadsOf(r, least.seen, v))
      ensures u in least.included
    {
      forall limit | ClosedBy(r, vs, cs, limit) && Le(g, limit)
        ensures u in limit.included
      {
        LeastIsBelow(r, g, vs, cs, limit);
        LoadsGrow(r, least.seen, limit.seen, v);
        assert VisitRule(r, limit, v);
      }
      assert Forced(r, g, vs, cs, IsIncluded(u));
    }
    if OwnTest(r, least.seen, v) {
      forall limit | ClosedBy(r, vs, cs, limit) && Le(g, limit)
        ensures v in limit.included
      {
        LeastIsBelow(r, g, vs, cs, limit);
        TestsGrow(r, least.seen, limit.seen, v);
        assert VisitRule(r, limit, v);
      }
      assert Forced(r, g, vs, cs, IsIncluded(v));
    }
  }

  lemma LeastCallRule(r: Rules, g: Facts, vs: set<Value>, cs: set<Value>, c: Value)
    requires RulesOk(r) && Le(g, Universe(r)) && c in Least(r, g, vs, cs).tainted && c in cs
    ensures CallRule(r, Least(r, g, vs, cs), c)
  {
    var least := Least(r, g, vs, cs);
    if CallTest(r, least.seen, c) {
      forall limit | ClosedBy(r, vs, cs, limit) && Le(g, limit)
        ensures c in limit.included
      {
        LeastIsBelow(r, g, vs, cs, limit);
        TestsGrow(r, least.seen, limit.seen, c);
        assert CallRule(r, limit, c);
      }
      assert Forced(r, g, vs, cs, IsIncluded(c));
    }
  }

  /** The rules are such that the least facts meet them. */
  lemma LeastIsClosed(r: Rules, g: Facts, vs: set<Value>, cs: set<Value>)
    requires RulesOk(r) && Le(g, Universe(r))
    ensures ClosedBy(r, vs, cs, Least(r, g, vs, cs))
    ensures Le(g, Least(r, g, vs, cs)) && Le(Least(r, g, vs, cs), Universe(r))
  {
    var least := Least(r, g, vs, cs);
    LeastInUniverse(r, g, vs, cs);
    forall v | v in least.tainted && v in vs
      ensures VisitRule(r, least, v) && OwnRule(r, least, v)
    {
      LeastVisits(r, g, vs, cs, v);
    }
    forall c | c in least.tainted && c in cs
      ensures CallRule(r, least, c)
    {
      LeastCallRule(r, g, vs, cs, c);
    }
    forall v | v in least.included
      ensures IncludeRule(r, least, v)
    {
      LeastIncludes(r, g, vs, cs, v);
    }
    forall f | f in least.functions
      ensures FunctionRule(r, least, f)
    {
      LeastCalls(r, g, vs, cs, f);
    }
  }

  // ---------------------------------------------------------------- what every order keeps

  /** The given values and functions are included. */
  function Given(toPrecompute: set<Value>, everywhere: set<Fn>): Facts {
    NO_FACTS.(included := toPrecompute, functions := everywhere)
  }

  /** What is given is included with all that this entails; nothing has been visited yet. */
  ghost predicate IsStart(r: Rules, g: Facts, a: Snapshot) {
    a == Snapshot(Least(r, g, {}, {}), {}) && g.seen == {} && Le(g, Universe(r))
  }

  /** A store that is not included although it is important for pointer q is one of a pointer of the class
      that is still due. */
  ghost predicate StoreKept(r: Rules, a: Snapshot, q: Value) {
    forall u {:trigger u in r.stores(q)} :: u in r.stores(q) && r.important(u, LoadsOf(r, a.facts.seen, q)) ==>
      u in a.facts.included || exists p :: IsDue(r, a, q, u, p)
  }

  ghost predicate IsDue(r: Rules, a: Snapshot, q: Value, u: Value, p: Value) {
    p in a.facts.tainted && p !in a.visited && u in r.stores(p) && Alias(r, a.facts.seen, p, q)
  }

  ghost predicate VisitKept(r: Rules, a: Snapshot, q: Value) {
    && NeedsAll(a.facts, q, r.operands(q)) && StoreKept(r, a, q) && (r.always(q) ==> q in a.facts.included)
    && (IsNeeded(a.facts, q) ==> NeedsAll(a.facts, q, r.rets(q)))
  }

  /** What holds of a value as soon as it has been visited once. */
  ghost predicate SeenKept(r: Rules, s: Facts, v: Value) {
    v in s.tainted && NeedsAll(s, v, r.operands(v)) && TraceRule(r, s, v)
  }

  ghost predicate RulesKept(r: Rules, a: Snapshot) {
    && (forall q {:trigger VisitKept(r, a, q)} :: q in a.visited ==> VisitKept(r, a, q))
    && (forall v {:trigger SeenKept(r, a.facts, v)} :: v in a.facts.seen ==> SeenKept(r, a.facts, v))
    && ClosedIncludes(r, a.facts) && a.visited <= a.facts.seen
  }

  lemma StoreStays(r: Rules, a: Snapshot, v: Value, b: Snapshot, q: Value, u: Value, p: Value)
    requires RulesOk(r) && VisitStep(r, a, v, b) && RulesKept(r, a)
    requires p in b.facts.tainted && u in r.stores(p) && Alias(r, b.facts.seen, p, q)
    requires p in a.visited ==> p == v || u in a.facts.included || exists o :: IsDue(r, a, p, u, o)
    requires r.important(u, LoadsOf(r, b.facts.seen, q))
    ensures u in b.facts.included || exists o :: IsDue(r, b, q, u, o)
  {
    AliasesSeeTheSame(r, b.facts.seen, p, q);
    RecordsGrow(r, a.facts.seen, b.facts.seen);
    if p in b.visited && p != v && u !in a.facts.included {
      var o :| IsDue(r, a, p, u, o);
      assert Alias(r, b.facts.seen, o, p) && Alias(r, b.facts.seen, o, q);
      AliasesSeeTheSame(r, b.facts.seen, o, q);
      assert o in b.visited ==> o == v;
      assert o !in b.visited ==> IsDue(r, b, q, u, o);
    } else if p !in b.visited {
      assert IsDue(r, b, q, u, p);
    }
  }

  lemma StoresStay(r: Rules, a: Snapshot, v: Value, b: Snapshot, q: Value)
    requires RulesOk(r) && VisitStep(r, a, v, b) && RulesKept(r, a) && q in b.visited
    ensures StoreKept(r, b, q)
  {
    forall u | u in r.stores(q) && r.important(u, LoadsOf(r, b.facts.seen, q))
      ensures u in b.facts.included || exists p :: IsDue(r, b, q, u, p)
    {
      if q != v {
        assert VisitKept(r, a, q) && SeenKept(r, a.facts, q);
        if LoadsOf(r, a.facts.seen, q) == LoadsOf(r, b.facts.seen, q) {
          StoreStays(r, a, v, b, q, u, q);
        } else {
          assert Covered(r, a.facts, b.facts, q);
          var p :| CoveredBy(r, a.facts, b.facts, q, u, p);
          assert p in a.visited ==> VisitKept(r, a, p);
          StoreStays(r, a, v, b, q, u, p);
        }
      }
    }
  }

  lemma StepKeepsRules(r: Rules, a: Snapshot, v: Value, b: Snapshot)
    requires RulesOk(r) && VisitStep(r, a, v, b) && RulesKept(r, a)
    ensures RulesKept(r, b)
  {
    forall q | q in b.visited
      ensures VisitKept(r, b, q)
    {
      StoresStay(r, a, v, b, q);
      assert q == v || VisitKept(r, a, q);
      if IsNeeded(b.facts, q) && r.rets(q) != {} {
        assert IsNeeded(a.facts, q);
      }
    }
    forall x | x in b.facts.seen
      ensures SeenKept(r, b.facts, x)
    {
      assert x == v || SeenKept(r, a.facts, x);
    }
  }

  lemma StepIsBelow(r: Rules, vs: set<Value>, cs: set<Value>, a: Snapshot, v: Value, b: Snapshot, limit: Facts)
    requires VisitStep(r, a, v, b) && Le(a.facts, limit) && ClosedBy(r, vs, cs, limit) && v in vs && v in cs
    ensures Le(b.facts, limit)
  {
    assert VisitRule(r, limit, v) && CallRule(r, limit, v);
  }

  function Elements(order: seq<Value>): set<Value> {
    set v | v in order
  }

  /** What has been found so far: the rules are kept, exactly the values of the order have been seen, and
      nothing has been found that visits of these values would not find. */
  lemma {:induction false} RunKeeps(m: Mode, r: Rules, a: Snapshot, order: seq<Value>, b: Snapshot, states: seq<Snapshot>, n: nat)
    requires RulesOk(r) && RulesKept(r, a) && Through(m, r, a, order, b, states) && n <= |order|
    ensures RulesKept(r, states[n]) && Le(a.facts, states[n].facts)
    ensures states[n].facts.seen == a.facts.seen + Elements(order[..n])
  {
    if n > 0 {
      RunKeeps(m, r, a, order, b, states, n - 1);
      assert StepAt(m, r, states, order, n - 1);
      StepKeepsRules(r, states[n - 1], order[n - 1], states[n]);
      assert order[..n] == order[..n - 1] + [order[n - 1]];
    }
  }

  lemma {:induction false} RunIsBelow(m: Mode, r: Rules, a: Snapshot, order: seq<Value>, b: Snapshot, states: seq<Snapshot>,
                                      n: nat, vs: set<Value>, cs: set<Value>, limit: Facts)
    requires Through(m, r, a, order, b, states) && n <= |order| && Le(a.facts, limit) && ClosedBy(r, vs, cs, limit)
    requires forall v :: v in order[..n] ==> v in vs && v in cs
    ensures Le(states[n].facts, limit)
  {
    if n > 0 {
      assert order[..n] == order[..n - 1] + [order[n - 1]];
      RunIsBelow(m, r, a, order, b, states, n - 1, vs, cs, limit);
      assert StepAt(m, r, states, order, n - 1);
      StepIsBelow(r, vs, cs, states[n - 1], order[n - 1], states[n], limit);
    }
  }

  lemma StartIsKept(r: Rules, g: Facts, a: Snapshot)
    requires RulesOk(r) && IsStart(r, g, a)
    ensures RulesKept(r, a) && a.facts.seen == {} && Le(g, a.facts) && Le(a.facts, Universe(r))
  {
    LeastIsClosed(r, g, {}, {});
    var without := a.facts.(seen := {});
    assert ClosedBy(r, {}, {}, without) by {
      forall v | v in without.included
        ensures IncludeRule(r, without, v)
      {
        assert IncludeRule(r, a.facts, v);
      }
      forall f | f in without.functions
        ensures FunctionRule(r, without, f)
      {
        assert FunctionRule(r, a.facts, f);
      }
    }
    LeastIsBelow(r, g, {}, {}, without);
  }

  lemma CompleteIsClosed(r: Rules, b: Snapshot)
    requires RulesOk(r) && RulesKept(r, b) && IsComplete(b)
    ensures ClosedFacts(r, b.facts) && b.facts.seen == b.facts.tainted
    ensures Ends(Unions(r, b.facts.seen)) <= b.facts.tainted
  {
    forall v | v in b.facts.tainted
      ensures VisitRule(r, b.facts, v)
    {
      assert VisitKept(r, b, v) && SeenKept(r, b.facts, v);
      forall u | u in r.stores(v) && r.important(u, LoadsOf(r, b.facts.seen, v))
        ensures u in b.facts.included
      {
      }
    }
    forall x | x in b.facts.seen
      ensures x in b.facts.tainted && Ends(r.unites(x)) <= b.facts.tainted
    {
      assert SeenKept(r, b.facts, x);
    }
  }

  /** Closed under all rules: no call fails the test either. */
  lemma FullyClosed(r: Rules, s: Facts)
    requires RulesOk(r) && ClosedFacts(r, s)
    ensures ClosedBy(r, r.all, {}, s) && (CallsTested(r, s) ==> ClosedBy(r, r.all, r.all, s))
  {
    forall v | v in s.tainted
      ensures OwnRule(r, s, v)
    {
      assert VisitRule(r, s, v) && RuleOk(r, v);
      forall p | p in r.through(v)
        ensures StoreRule(r, s, p)
      {
        assert p in s.tainted && VisitRule(r, s, p);
      }
      OwnIsStoreRule(r, s, v);
    }
  }

  /** Whatever the order, a complete run ends with facts that are closed under all rules but the test of
      calls, contain what every closed set of facts contains, and nothing that is not forced. */
  lemma OutcomeIsClosed(m: Mode, r: Rules, g: Facts, a: Snapshot, order: seq<Value>, b: Snapshot)
    requires RulesOk(r) && IsStart(r, g, a) && Visits(m, r, a, order, b) && IsComplete(b)
    ensures ClosedFacts(r, b.facts) && Le(g, b.facts) && b.facts.seen == b.facts.tainted
    ensures Le(Least(r, g, r.all, {}), b.facts) && Le(b.facts, Least(r, g, r.all, r.all))
    ensures Ends(Unions(r, b.facts.seen)) <= b.facts.tainted
  {
    var states :| Through(m, r, a, order, b, states);
    StartIsKept(r, g, a);
    RunKeeps(m, r, a, order, b, states, |order|);
    CompleteIsClosed(r, b);
    FullyClosed(r, b.facts);
    LeastIsBelow(r, g, r.all, {}, b.facts);
    RunBelowLeast(m, r, g, a, order, b, states, |order|, r.all);
  }

  /** A run that visits values of vs only finds no more than these visits may find. */
  lemma RunBelowLeast(m: Mode, r: Rules, g: Facts, a: Snapshot, order: seq<Value>, b: Snapshot, states: seq<Snapshot>,
                      n: nat, vs: set<Value>)
    requires RulesOk(r) && IsStart(r, g, a) && Through(m, r, a, order, b, states) && n <= |order|
    requires Elements(order[..n]) <= vs || vs == r.all
    ensures Le(states[n].facts, Least(r, g, vs, vs))
  {
    var limit := Least(r, g, vs, vs);
    LeastIsClosed(r, g, vs, vs);
    LeastIsBelow(r, g, {}, {}, limit);
    if vs == r.all {
      OrderInUniverse(m, r, g, a, order, b, states, n);
    }
    forall v | v in order[..n]
      ensures v in vs
    {
      assert v in Elements(order[..n]);
    }
    RunIsBelow(m, r, a, order, b, states, n, vs, vs, limit);
  }

  /** Only values of the program are visited. */
  lemma {:induction false} OrderInUniverse(m: Mode, r: Rules, g: Facts, a: Snapshot, order: seq<Value>, b: Snapshot,
                                           states: seq<Snapshot>, n: nat)
    requires RulesOk(r) && IsStart(r, g, a) && Through(m, r, a, order, b, states) && n <= |order|
    ensures Elements(order[..n]) <= r.all && Le(states[n].facts, Universe(r))
  {
    if n == 0 {
      StartIsKept(r, g, a);
    } else {
      OrderInUniverse(m, r, g, a, order, b, states, n - 1);
      assert StepAt(m, r, states, order, n - 1);
      UniverseIsClosed(r, r.all, r.all);
      StepIsBelow(r, r.all, r.all, states[n - 1], order[n - 1], states[n], Universe(r));
      assert order[..n] == order[..n - 1] + [order[n - 1]];
    }
  }

  // ---------------------------------------------------------------- when no call is overlooked

  /** What every run finds, and what a run finds that overlooks no call. */
  ghost function Base(r: Rules, g: Facts): Facts {
    Least(r, g, r.all, {})
  }

  ghost function Top(r: Rules, g: Facts): Facts {
    Least(r, g, r.all, r.all)
  }

  /** Function f has recorded a pointer that it writes, or reads. */
  predicate HasEntry(r: Rules, seen: set<Value>, f: Fn, write: bool) {
    exists e :: e in Entries(r, seen) && e.f == f && e.write == write
  }

  /** All that is sure to make call c be visited again has happened: it has been found, and those of its
      functions that are included in every run are, and those that come to record a pointer have. */
  ghost predicate AllCalled(r: Rules, s: Facts, base: Facts, c: Value) {
    && c in s.tainted
    && (forall f {:trigger r.callSites(f)} :: f in base.functions && c in r.callSites(f) ==> f in s.functions)
    && (forall e {:trigger e in Entries(r, base.tainted)} :: e in Entries(r, base.tainted) && c in r.callSites(e.f) ==>
          HasEntry(r, s.seen, e.f, e.write))
  }

  /** However all this is found, by visits of whatever values, what these visits record passes the test. */
  ghost predicate IsTimely(r: Rules, g: Facts, c: Value) {
    forall vs {:trigger Least(r, g, vs, vs)} :: vs <= r.all && AllCalled(r, Least(r, g, vs, vs), Base(r, g), c) ==>
      CallTest(r, vs, c)
  }

  /** A condition on the rules and on what is given: every call that a run may have to include is included
      without the test, or is sure to be visited late enough. */
  ghost predicate AllTimely(r: Rules, g: Facts) {
    forall c {:trigger IsTimely(r, g, c)} :: c in Top(r, g).tainted && CallTest(r, Top(r, g).seen, c) ==>
      c in Base(r, g).included || IsTimely(r, g, c)
  }

  /** A call that has been visited since all this has happened is included. */
  ghost predicate TestedLate(r: Rules, a: Snapshot, base: Facts, c: Value) {
    c in a.visited && AllCalled(r, a.facts, base, c) ==> c in a.facts.included
  }

  lemma EntryIsFirst(r: Rules, s: Facts, t: Facts, base: Facts, c: Value)
    requires Le(s, t) && AllCalled(r, t, base, c) && c in s.tainted && !AllCalled(r, s, base, c)
    ensures Must(r, s, t, c)
  {
    if f :| f in base.functions && c in r.callSites(f) && f !in s.functions {
      assert f in t.functions;
    } else {
      var e :| e in Entries(r, base.tainted) && c in r.callSites(e.f) && !HasEntry(r, s.seen, e.f, e.write);
      assert HasEntry(r, t.seen, e.f, e.write);
      var e' :| e' in Entries(r, t.seen) && e'.f == e.f && e'.write == e.write;
      assert IsFirstEntry(r, s, t, e');
    }
  }

  lemma AllCalledGrows(r: Rules, s: Facts, t: Facts, base: Facts, c: Value)
    requires Le(s, t) && AllCalled(r, s, base, c)
    ensures AllCalled(r, t, base, c)
  {
    RecordsGrow(r, s.seen, t.seen);
  }

  lemma LateStep(r: Rules, g: Facts, a: Snapshot, v: Value, b: Snapshot, c: Value)
    requires VisitStep(r, a, v, b) && TestedLate(r, a, Base(r, g), c) && IsTimely(r, g, c) && a.visited <= a.facts.tainted
    requires b.facts.seen <= r.all && Le(b.facts, Least(r, g, b.facts.seen, b.facts.seen))
    ensures TestedLate(r, b, Base(r, g), c)
  {
    var base := Base(r, g);
    if c in b.visited && AllCalled(r, b.facts, base, c) {
      if !AllCalled(r, a.facts, base, c) {
        EntryIsFirst(r, a.facts, b.facts, base, c);
        assert false;
      } else if c == v {
        AllCalledGrows(r, b.facts, Least(r, g, b.facts.seen, b.facts.seen), base, c);
        assert CallTest(r, b.facts.seen, c);
      }
    }
  }

  lemma {:induction false} TimelyIsTested(m: Mode, r: Rules, g: Facts, a: Snapshot, order: seq<Value>, b: Snapshot,
                                          states: seq<Snapshot>, n: nat, c: Value)
    requires RulesOk(r) && IsStart(r, g, a) && Through(m, r, a, order, b, states) && n <= |order| && IsTimely(r, g, c)
    ensures TestedLate(r, states[n], Base(r, g), c)
  {
    if n > 0 {
      TimelyIsTested(m, r, g, a, order, b, states, n - 1, c);
      assert StepAt(m, r, states, order, n - 1);
      StartIsKept(r, g, a);
      RunKeeps(m, r, a, order, b, states, n - 1);
      RunKeeps(m, r, a, order, b, states, n);
      OrderInUniverse(m, r, g, a, order, b, states, n);
      assert states[n].facts.seen == Elements(order[..n]);
      RunBelowLeast(m, r, g, a, order, b, states, n, states[n].facts.seen);
      VisitedIsTainted(r, states[n - 1]);
      LateStep(r, g, states[n - 1], order[n - 1], states[n], c);
    }
  }

  lemma VisitedIsTainted(r: Rules, a: Snapshot)
    requires RulesKept(r, a)
    ensures a.visited <= a.facts.tainted
  {
    forall v | v in a.visited
      ensures v in a.facts.tainted
    {
      assert SeenKept(r, a.facts, v);
    }
  }

  /** If all calls are timely, every complete run in whatever order ends with the same facts, and no call is
      overlooked. */
  lemma TimelyRunsAgree(m: Mode, r: Rules, g: Facts, a: Snapshot, order: seq<Value>, b: Snapshot)
    requires RulesOk(r) && IsStart(r, g, a) && Visits(m, r, a, order, b) && IsComplete(b) && AllTimely(r, g)
    ensures b.facts == Top(r, g) && CallsTested(r, b.facts)
  {
    var top, base := Top(r, g), Base(r, g);
    OutcomeIsClosed(m, r, g, a, order, b);
    forall c | c in b.facts.tainted
      ensures CallRule(r, b.facts, c)
    {
      if CallTest(r, b.facts.seen, c) {
        TestsGrow(r, b.facts.seen, top.seen, c);
        if IsTimely(r, g, c) {
          var states :| Through(m, r, a, order, b, states);
          TimelyIsTested(m, r, g, a, order, b, states, |order|, c);
          RecordsGrow(r, base.tainted, b.facts.seen);
        }
      }
    }
    FullyClosed(r, b.facts);
    LeastIsBelow(r, g, r.all, r.all, b.facts);
    LeBoth(b.facts, top);
  }

  /** In particular if the test adds nothing to what is found without it. */
  lemma NothingToAdd(r: Rules, g: Facts)
    requires RulesOk(r) && Le(g, Universe(r)) && CallsTested(r, Base(r, g))
    ensures AllTimely(r, g) && Top(r, g) == Base(r, g)
  {
    var base, top := Base(r, g), Top(r, g);
    LeastIsClosed(r, g, r.all, {});
    LeastIsClosed(r, g, r.all, r.all);
    assert ClosedBy(r, r.all, r.all, base);
    LeastIsBelow(r, g, r.all, r.all, base);
    LeastIsBelow(r, g, r.all, {}, top);
    LeBoth(base, top);
    forall c | c in top.tainted && CallTest(r, top.seen, c)
      ensures c in base.included
    {
      assert CallRule(r, base, c);
    }
  }
}
