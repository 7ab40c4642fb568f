/**
What the taint analysis looks for.  Facts about values are found by visiting values; a visit finds what
the rules for the value demand, and makes other values due to be visited again.  Orders of visits are
arbitrary here: a visit is a step between snapshots, and a run is any sequence of steps.
*/
module TaintRules {
  import opened Program

  type Union = (Value, Value)

  /** What an info records: loads and stores through the pointer, and other marks. */
  datatype Kind = Read | Write | Mark(id: nat)
  datatype Access = Access(inst: Value, ptr: Value, kind: Kind)

  /** Function f is known to write, or to read, through a pointer. */
  datatype Entry = Entry(f: Fn, ptr: Value, write: bool)

  /**
  What the instructions demand.  `operands` are needed to compute a value (of a parameter: the arguments
  at the call sites), `rets` are the returns that may give the result of a call, `control` are the
  terminators of the predecessors of the block of a value, `entryOf` its function if it is in the
  entry block.

  For the pointers: `accesses` and `enters` are what a visit records with infos and with functions,
  `stores` are the stores through a pointer, `traces` the other values that it is followed to, `through`
  the pointers of a store, and `unites` the pairs of pointers whose infos are merged.  `same` says which
  pointers share an info once some pairs have been merged, with all that merging entails for targets and
  members.  `writes` are the entries of the functions that a call may run, `important` says whether a
  store or a call has to be included given the loads of a class, `always` are the calls that are
  included wherever they are.
  */
  datatype Rules = Rules(all: set<Value>, fns: set<Fn>,
                         operands: Value -> set<Value>, rets: Value -> set<Value>,
                         control: Value -> set<Value>, entryOf: Value -> set<Fn>, callSites: Fn -> set<Value>,
                         accesses: Value -> set<Access>, enters: Value -> set<Entry>,
                         stores: Value -> set<Value>, traces: Value -> set<Value>, through: Value -> set<Value>,
                         unites: Value -> set<Union>, same: (set<Union>, Value, Value) -> bool,
                         writes: Value -> set<Entry>, important: (Value, set<Value>) -> bool, always: Value -> bool)

  function Ends(unions: set<Union>): set<Value> {
    (set e | e in unions :: e.0) + (set e | e in unions :: e.1)
  }

  ghost predicate RuleOk(r: Rules, v: Value) {
    && r.operands(v) + r.rets(v) + r.control(v) + r.stores(v) + r.traces(v) + Ends(r.unites(v)) <= r.all
    && r.entryOf(v) <= r.fns
    && (forall a :: a in r.accesses(v) ==> a.ptr == v || a.ptr in r.operands(v))
    && (forall p :: p in r.through(v) ==> p in r.operands(v) && v in r.stores(p))
  }

  /** Sharing an info is an equivalence, and more unions separate no pointers. */
  ghost predicate SameOk(r: Rules) {
    && (forall p, q, a, b {:trigger r.same(a, p, q), r.same(b, p, q)} :: a <= b && r.same(a, p, q) ==> r.same(b, p, q))
    && (forall u, p {:trigger r.same(u, p, p)} :: r.same(u, p, p))
    && (forall u, p, q {:trigger r.same(u, p, q)} :: r.same(u, p, q) ==> r.same(u, q, p))
    && (forall u, p, q, o {:trigger r.same(u, p, q), r.same(u, q, o)} :: r.same(u, p, q) && r.same(u, q, o) ==> r.same(u, p, o))
  }

  /** The rules stay inside the program, and more loads make no store less important. */
  ghost predicate RulesOk(r: Rules) {
    && (forall v {:trigger RuleOk(r, v)} :: RuleOk(r, v))
    && (forall f :: r.callSites(f) <= r.all)
    && (forall v, a, b {:trigger r.important(v, a), r.important(v, b)} :: a <= b && r.important(v, a) ==> r.important(v, b))
    && SameOk(r)
  }

  // ---------------------------------------------------------------- what has been found

  /** `seen` have been visited at least once; what infos and functions have recorded depends on them. */
  datatype Facts = Facts(tainted: set<Value>, included: set<Value>, needs: set<(Value, Value)>, seen: set<Value>,
                         functions: set<Fn>)

  const NO_FACTS := Facts({}, {}, {}, {}, {})

  predicate Le(a: Facts, b: Facts) {
    && a.tainted <= b.tainted && a.included <= b.included && a.needs <= b.needs && a.seen <= b.seen
    && a.functions <= b.functions
  }

  function Unions(r: Rules, seen: set<Value>): set<Union> {
    set v, e | v in seen && e in r.unites(v) :: e
  }

  function Accesses(r: Rules, seen: set<Value>): set<Access> {
    set v, a | v in seen && a in r.accesses(v) :: a
  }

  function Entries(r: Rules, seen: set<Value>): set<Entry> {
    set v, e | v in seen && e in r.enters(v) :: e
  }

  predicate Alias(r: Rules, seen: set<Value>, p: Value, q: Value) {
    r.same(Unions(r, seen), p, q)
  }

  /** What the info of pointer q has recorded. */
  function AccessesOf(r: Rules, seen: set<Value>, q: Value): set<Access> {
    set a | a in Accesses(r, seen) && Alias(r, seen, a.ptr, q)
  }

  function LoadsOf(r: Rules, seen: set<Value>, q: Value): set<Value> {
    set a | a in AccessesOf(r, seen, q) && a.kind.Read? :: a.inst
  }

  lemma RecordsGrow(r: Rules, seen: set<Value>, more: set<Value>)
    requires seen <= more
    ensures Unions(r, seen) <= Unions(r, more) && Accesses(r, seen) <= Accesses(r, more) && Entries(r, seen) <= Entries(r, more)
  {
  }

  lemma LoadsGrow(r: Rules, seen: set<Value>, more: set<Value>, q: Value)
    requires RulesOk(r) && seen <= more
    ensures AccessesOf(r, seen, q) <= AccessesOf(r, more, q) && LoadsOf(r, seen, q) <= LoadsOf(r, more, q)
  {
    RecordsGrow(r, seen, more);
  }

  /** Pointers that share an info see the same. */
  lemma AliasesSeeTheSame(r: Rules, seen: set<Value>, p: Value, q: Value)
    requires RulesOk(r) && Alias(r, seen, p, q)
    ensures AccessesOf(r, seen, p) == AccessesOf(r, seen, q) && LoadsOf(r, seen, p) == LoadsOf(r, seen, q)
  {
    assert Alias(r, seen, q, p);
  }

  // ---------------------------------------------------------------- the rules

  predicate NeedsAll(s: Facts, v: Value, ws: set<Value>) {
    forall w :: w in ws ==> w in s.tainted && (v, w) in s.needs
  }

  ghost predicate IsNeeded(s: Facts, v: Value) {
    exists u :: (u, v) in s.needs
  }

  predicate TraceRule(r: Rules, s: Facts, v: Value) {
    Ends(r.unites(v)) + r.stores(v) + r.traces(v) <= s.tainted
  }

  /** A visited pointer has its stores tested against the loads that its info has recorded. */
  ghost predicate StoreRule(r: Rules, s: Facts, v: Value) {
    forall u :: u in r.stores(v) && r.important(u, LoadsOf(r, s.seen, v)) ==> u in s.included
  }

  /** What a visited value demands. */
  ghost predicate VisitRule(r: Rules, s: Facts, v: Value) {
    && v in s.seen && NeedsAll(s, v, r.operands(v)) && TraceRule(r, s, v) && StoreRule(r, s, v)
    && (r.always(v) ==> v in s.included)
    && (IsNeeded(s, v) ==> NeedsAll(s, v, r.rets(v)))
  }

  /** The test of a store in its own visit. */
  predicate OwnTest(r: Rules, seen: set<Value>, v: Value) {
    exists p :: p in r.through(v) && r.important(v, LoadsOf(r, seen, p))
  }

  /** The test of a call in its own visit: may it write what is read later? */
  predicate CallTest(r: Rules, seen: set<Value>, v: Value) {
    exists e :: e in r.writes(v) && e in Entries(r, seen) && r.important(v, LoadsOf(r, seen, e.ptr))
  }

  predicate OwnRule(r: Rules, s: Facts, v: Value) {
    OwnTest(r, s.seen, v) ==> v in s.included
  }

  predicate CallRule(r: Rules, s: Facts, v: Value) {
    CallTest(r, s.seen, v) ==> v in s.included
  }

  /** What an included value demands. */
  ghost predicate IncludeRule(r: Rules, s: Facts, v: Value) {
    && v in s.tainted && r.control(v) <= s.included && r.entryOf(v) <= s.functions
    && forall w :: (v, w) in s.needs ==> w in s.included
  }

  ghost predicate FunctionRule(r: Rules, s: Facts, f: Fn) {
    r.callSites(f) <= s.tainted
  }

  ghost predicate ClosedIncludes(r: Rules, s: Facts) {
    && (forall v {:trigger IncludeRule(r, s, v)} :: v in s.included ==> IncludeRule(r, s, v))
    && (forall f {:trigger FunctionRule(r, s, f)} :: f in s.functions ==> FunctionRule(r, s, f))
  }

  /** Closed under the rules for visits of the values in vs and under the test of the calls in `tested`. */
  ghost predicate ClosedBy(r: Rules, vs: set<Value>, tested: set<Value>, s: Facts) {
    && (forall v {:trigger VisitRule(r, s, v)} :: v in s.tainted && v in vs ==> VisitRule(r, s, v) && OwnRule(r, s, v))
    && (forall v {:trigger CallRule(r, s, v)} :: v in s.tainted && v in tested ==> CallRule(r, s, v))
    && ClosedIncludes(r, s)
  }

  lemma ClosedByFewer(r: Rules, vs: set<Value>, tested: set<Value>, s: Facts, fewer: set<Value>, fewerTested: set<Value>)
    requires ClosedBy(r, vs, tested, s) && fewer <= vs && fewerTested <= tested
    ensures ClosedBy(r, fewer, fewerTested, s)
  {
  }

  /** Closed under all rules but the test of calls. */
  ghost predicate ClosedFacts(r: Rules, s: Facts) {
    && (forall v {:trigger VisitRule(r, s, v)} :: v in s.tainted ==> VisitRule(r, s, v))
    && ClosedIncludes(r, s)
  }

  /** No call that is left out would pass the test now. */
  ghost predicate CallsTested(r: Rules, s: Facts) {
    forall v {:trigger CallRule(r, s, v)} :: v in s.tainted ==> CallRule(r, s, v)
  }

  lemma TestsGrow(r: Rules, seen: set<Value>, more: set<Value>, v: Value)
    requires RulesOk(r) && seen <= more
    ensures (CallTest(r, seen, v) ==> CallTest(r, more, v)) && (OwnTest(r, seen, v) ==> OwnTest(r, more, v))
  {
    RecordsGrow(r, seen, more);
    if CallTest(r, seen, v) {
      var e :| e in r.writes(v) && e in Entries(r, seen) && r.important(v, LoadsOf(r, seen, e.ptr));
      LoadsGrow(r, seen, more, e.ptr);
      assert r.important(v, LoadsOf(r, more, e.ptr));
    }
    if OwnTest(r, seen, v) {
      var p :| p in r.through(v) && r.important(v, LoadsOf(r, seen, p));
      LoadsGrow(r, seen, more, p);
      assert r.important(v, LoadsOf(r, more, p));
    }
  }

  /** The test of a store in its own visit adds nothing to the test at its pointer. */
  lemma OwnIsStoreRule(r: Rules, s: Facts, v: Value)
    requires RulesOk(r) && forall p :: p in r.through(v) ==> StoreRule(r, s, p)
    ensures OwnRule(r, s, v)
  {
    assert RuleOk(r, v);
  }

  /** All facts above s that are closed under inclusion and meet the rules for v are above t. */
  ghost predicate VisitFollows(r: Rules, s: Facts, t: Facts, v: Value) {
    forall limit {:trigger VisitRule(r, limit, v)} ::
      (ClosedIncludes(r, limit) && Le(s, limit) && VisitRule(r, limit, v) && OwnRule(r, limit, v) && CallRule(r, limit, v))
      ==> Le(t, limit)
  }

  // ---------------------------------------------------------------- visits

  datatype Snapshot = Snapshot(facts: Facts, visited: set<Value>)

  /** What holds of v after its visit; `s` are the facts before. */
  ghost predicate Found(r: Rules, s: Facts, t: Facts, v: Value) {
    && t.seen == s.seen + {v}
    && NeedsAll(t, v, r.operands(v)) && (IsNeeded(s, v) ==> NeedsAll(t, v, r.rets(v)))
    && TraceRule(r, t, v) && StoreRule(r, t, v) && OwnRule(r, t, v) && CallRule(r, t, v)
    && (r.always(v) ==> v in t.included)
  }

  /** The info of pointer v has recorded more, or has been merged. */
  predicate ClassChanged(r: Rules, seen: set<Value>, more: set<Value>, v: Value) {
    || AccessesOf(r, seen, v) != AccessesOf(r, more, v)
    || exists p :: p in r.all && Alias(r, more, p, v) && !Alias(r, seen, p, v)
  }

  /** All reasons for a new visit: v became included, or needed by one more value, or was reached from a
      pointer, or is a call of a function that became included or has recorded a pointer, or its info
      changed. */
  ghost predicate Again(r: Rules, s: Facts, t: Facts, v: Value) {
    || (v in t.included && v !in s.included)
    || (exists u :: (u, v) in t.needs && (u, v) !in s.needs)
    || (exists q :: q in t.seen && q !in s.seen && v in r.stores(q) + r.traces(q))
    || (exists f :: f in t.functions && f !in s.functions && v in r.callSites(f))
    || (exists e :: e in Entries(r, t.seen) && e !in Entries(r, s.seen) && v in r.callSites(e.f))
    || ClassChanged(r, s.seen, t.seen, v)
  }

  /** The pointers of a class that a merge adds nothing to are not visited again, which concerns pointers
      that come from the other side: then every store through them is one of a pointer that saw all loads. */
  ghost predicate Covered(r: Rules, s: Facts, t: Facts, v: Value) {
    forall u :: u in r.stores(v) ==> exists p :: CoveredBy(r, s, t, v, u, p)
  }

  ghost predicate CoveredBy(r: Rules, s: Facts, t: Facts, v: Value, u: Value, p: Value) {
    p in s.tainted && u in r.stores(p) && Alias(r, t.seen, p, v) && LoadsOf(r, s.seen, p) == LoadsOf(r, t.seen, v)
  }

  /** The first pointer of its class that f is known to write, or to read. */
  predicate IsFirstEntry(r: Rules, s: Facts, t: Facts, e: Entry) {
    && e in Entries(r, t.seen)
    && forall e' :: e' in Entries(r, s.seen) && e'.f == e.f && e'.write == e.write ==> !Alias(r, t.seen, e'.ptr, e.ptr)
  }

  /** The reasons on which the result depends. */
  ghost predicate Must(r: Rules, s: Facts, t: Facts, v: Value) {
    || (r.rets(v) != {} && IsNeeded(t, v) && !IsNeeded(s, v))
    || (LoadsOf(r, s.seen, v) != LoadsOf(r, t.seen, v) && !Covered(r, s, t, v))
    || (exists f :: f in t.functions && f !in s.functions && v in r.callSites(f))
    || (exists e :: IsFirstEntry(r, s, t, e) && v in r.callSites(e.f))
  }

  /** A visit of any tainted value finds what the rules for it demand and nothing else; at least those
      that have to are visited again. */
  ghost predicate VisitStep(r: Rules, a: Snapshot, v: Value, b: Snapshot) {
    && v in a.facts.tainted
    && Le(a.facts, b.facts) && ClosedIncludes(r, b.facts)
    && Found(r, a.facts, b.facts, v) && VisitFollows(r, a.facts, b.facts, v)
    && b.visited <= a.visited + {v} && forall w :: w in b.visited ==> !Must(r, a.facts, b.facts, w)
  }

  /** A visit of a value that is due, after which only those are due for which there is a reason; a store
      that passes its own test is due again. */
  ghost predicate StrictStep(r: Rules, a: Snapshot, v: Value, b: Snapshot) {
    && VisitStep(r, a, v, b) && v !in a.visited
    && forall w :: w in a.visited + {v} && w !in b.visited ==>
         Again(r, a.facts, b.facts, w) || (w == v && OwnTest(r, b.facts.seen, v))
  }

  /** Exactly those are visited again for which there is a reason. */
  ghost predicate Revisits(r: Rules, s: Facts, visited: set<Value>, t: Facts, visited': set<Value>) {
    forall v :: v in visited' <==> v in visited && !Again(r, s, t, v)
  }

  ghost predicate ExactStep(r: Rules, a: Snapshot, v: Value, b: Snapshot) {
    && StrictStep(r, a, v, b) && Revisits(r, a.facts, a.visited + {v}, b.facts, b.visited)
  }

  lemma ClassGrows(r: Rules, few: set<Value>, seen: set<Value>, more: set<Value>, v: Value)
    requires RulesOk(r) && few <= seen <= more
    ensures ClassChanged(r, few, more, v) <==> ClassChanged(r, few, seen, v) || ClassChanged(r, seen, more, v)
  {
    LoadsGrow(r, few, seen, v);
    LoadsGrow(r, seen, more, v);
    RecordsGrow(r, few, seen);
    RecordsGrow(r, seen, more);
    assert forall p :: (Alias(r, few, p, v) ==> Alias(r, seen, p, v)) && (Alias(r, seen, p, v) ==> Alias(r, more, p, v));
  }

  lemma AgainChain(r: Rules, s: Facts, t: Facts, u: Facts, v: Value)
    requires RulesOk(r) && Le(s, t) && Le(t, u)
    ensures Again(r, s, u, v) <==> Again(r, s, t, v) || Again(r, t, u, v)
  {
    ClassGrows(r, s.seen, t.seen, u.seen, v);
    RecordsGrow(r, s.seen, t.seen);
    RecordsGrow(r, t.seen, u.seen);
  }

  lemma MustIsAgain(r: Rules, s: Facts, t: Facts, v: Value)
    requires Le(s, t) && Must(r, s, t, v) && SameOk(r)
    ensures Again(r, s, t, v)
  {
    if LoadsOf(r, s.seen, v) != LoadsOf(r, t.seen, v) {
      assert AccessesOf(r, s.seen, v) != AccessesOf(r, t.seen, v);
    } else if e :| IsFirstEntry(r, s, t, e) && v in r.callSites(e.f) {
      assert Alias(r, t.seen, e.ptr, e.ptr);
      assert e !in Entries(r, s.seen);
    }
  }

  lemma NothingAgain(r: Rules, s: Facts, v: Value)
    ensures !Again(r, s, s, v)
  {
  }

  // ---------------------------------------------------------------- orders of visits

  /** How much is known of the steps of a run. */
  datatype Mode = Any | Strict | Exact

  ghost predicate StepOf(m: Mode, r: Rules, a: Snapshot, v: Value, b: Snapshot) {
    match m
    case Any => VisitStep(r, a, v, b)
    case Strict => StrictStep(r, a, v, b)
    case Exact => ExactStep(r, a, v, b)
  }

  ghost predicate StepAt(m: Mode, r: Rules, states: seq<Snapshot>, order: seq<Value>, i: nat)
    requires i < |order| && |states| == |order| + 1
  {
    StepOf(m, r, states[i], order[i], states[i + 1])
  }

  ghost predicate Through(m: Mode, r: Rules, a: Snapshot, order: seq<Value>, b: Snapshot, states: seq<Snapshot>) {
    && |states| == |order| + 1 && states[0] == a && states[|order|] == b
    && forall i {:trigger StepAt(m, r, states, order, i)} :: 0 <= i < |order| ==> StepAt(m, r, states, order, i)
  }

  /** Visiting the values in this order may lead from a to b. */
  ghost predicate Visits(m: Mode, r: Rules, a: Snapshot, order: seq<Value>, b: Snapshot) {
    exists states :: Through(m, r, a, order, b, states)
  }

  predicate IsComplete(a: Snapshot) {
    a.facts.tainted <= a.visited
  }

  lemma NoVisits(m: Mode, r: Rules, a: Snapshot)
    ensures Visits(m, r, a, [], a)
  {
    assert Through(m, r, a, [], a, [a]);
  }

  lemma OneStep(m: Mode, r: Rules, a: Snapshot, v: Value, b: Snapshot)
    requires StepOf(m, r, a, v, b)
    ensures Visits(m, r, a, [v], b)
  {
    assert StepAt(m, r, [a, b], [v], 0);
    assert Through(m, r, a, [v], b, [a, b]);
  }

  lemma VisitsConcat(m: Mode, r: Rules, a: Snapshot, order: seq<Value>, b: Snapshot, more: seq<Value>, c: Snapshot)
    requires Visits(m, r, a, order, b) && Visits(m, r, b, more, c)
    ensures Visits(m, r, a, order + more, c)
  {
    var front :| Through(m, r, a, order, b, front);
    var back :| Through(m, r, b, more, c, back);
    var states, all := front + back[1..], order + more;
    forall i | 0 <= i < |all|
      ensures StepAt(m, r, states, all, i)
    {
      if i < |order| {
        assert StepAt(m, r, front, order, i);
      } else {
        assert StepAt(m, r, back, more, i - |order|);
      }
    }
    assert Through(m, r, a, all, c, states);
  }

  /** An exact run is a strict one, and a strict one is a run. */
  lemma Weaker(m: Mode, r: Rules, a: Snapshot, order: seq<Value>, b: Snapshot)
    requires Visits(m, r, a, order, b)
    ensures Visits(Any, r, a, order, b) && (m != Any ==> Visits(Strict, r, a, order, b))
  {
    var states :| Through(m, r, a, order, b, states);
    forall i | 0 <= i < |order|
      ensures StepAt(Any, r, states, order, i) && (m != Any ==> StepAt(Strict, r, states, order, i))
    {
      assert StepAt(m, r, states, order, i);
    }
    assert Through(Any, r, a, order, b, states) && (m != Any ==> Through(Strict, r, a, order, b, states));
  }

  // ---------------------------------------------------------------- single facts

  datatype Fact =
    | IsTainted(v: Value)
    | IsIncluded(v: Value)
    | Edge(u: Value, w: Value)
    | IsSeen(v: Value)
    | IsFunction(f: Fn)

  predicate Holds(s: Facts, x: Fact) {
    match x
    case IsTainted(v) => v in s.tainted
    case IsIncluded(v) => v in s.included
    case Edge(u, w) => (u, w) in s.needs
    case IsSeen(v) => v in s.seen
    case IsFunction(f) => f in s.functions
  }

  ghost function Possible(r: Rules): set<Fact> {
    (set v | v in r.all :: IsTainted(v)) + (set v | v in r.all :: IsIncluded(v)) + (set v | v in r.all :: IsSeen(v)) +
    (set u, w | u in r.all && w in r.all :: Edge(u, w)) + (set f | f in r.fns :: IsFunction(f))
  }

  /** All facts there can be. */
  function Universe(r: Rules): Facts {
    Facts(r.all, r.all, set u, w | u in r.all && w in r.all :: (u, w), r.all, r.fns)
  }

  /** The facts that are still to be found. */
  ghost function Unknown(r: Rules, s: Facts): set<Fact> {
    set x | x in Possible(r) && !Holds(s, x)
  }

  lemma UnknownShrinks(r: Rules, s: Facts, t: Facts)
    requires Le(s, t) && Le(t, Universe(r))
    ensures Unknown(r, t) <= Unknown(r, s) && (s != t ==> Unknown(r, t) != Unknown(r, s))
  {
    forall x | Holds(s, x)
      ensures Holds(t, x)
    {
    }
    if s != t {
      var x := NewFact(r, s, t);
      assert x in Unknown(r, s) && x !in Unknown(r, t);
    }
  }

  lemma NewFact(r: Rules, s: Facts, t: Facts) returns (x: Fact)
    requires Le(s, t) && Le(t, Universe(r)) && s != t
    ensures Holds(t, x) && !Holds(s, x) && x in Possible(r)
  {
    if s.tainted != t.tainted {
      var v :| v in t.tainted && v !in s.tainted;
      x := IsTainted(v);
    } else if s.included != t.included {
      var v :| v in t.included && v !in s.included;
      x := IsIncluded(v);
    } else if s.needs != t.needs {
      var e :| e in t.needs && e !in s.needs;
      x := Edge(e.0, e.1);
      assert (e.0, e.1) == e;
    } else if s.seen != t.seen {
      var v :| v in t.seen && v !in s.seen;
      x := IsSeen(v);
    } else {
      var f :| f in t.functions && f !in s.functions;
      x := IsFunction(f);
    }
  }

  lemma LeBoth(s: Facts, t: Facts)
    requires Le(s, t) && Le(t, s)
    ensures s == t
  {
  }

  // ---------------------------------------------------------------- rounds

  /** Every value that is due is visited, in some order; a pointer may have its stores visited at once. */
  ghost predicate Round(m: Mode, r: Rules, a: Snapshot, order: seq<Value>, b: Snapshot) {
    && Visits(m, r, a, order, b)
    && (forall v :: v in a.facts.tainted && v !in a.visited ==> v in order)
    && (forall v :: v in order ==> (v in a.facts.tainted && v !in a.visited) || exists q :: q in order && v in r.stores(q))
  }

  ghost predicate RoundAt(m: Mode, r: Rules, states: seq<Snapshot>, orders: seq<seq<Value>>, i: nat)
    requires i < |orders| && |states| == |orders| + 1
  {
    Round(m, r, states[i], orders[i], states[i + 1])
  }

  ghost predicate ThroughRounds(m: Mode, r: Rules, a: Snapshot, orders: seq<seq<Value>>, b: Snapshot, states: seq<Snapshot>) {
    && |states| == |orders| + 1 && states[0] == a && states[|orders|] == b
    && forall i {:trigger RoundAt(m, r, states, orders, i)} :: 0 <= i < |orders| ==> RoundAt(m, r, states, orders, i)
  }

  ghost predicate RoundsSoFar(m: Mode, r: Rules, a: Snapshot, orders: seq<seq<Value>>, b: Snapshot) {
    exists states :: ThroughRounds(m, r, a, orders, b, states)
  }

  /** A complete run of the worklist. */
  ghost predicate Rounds(m: Mode, r: Rules, a: Snapshot, orders: seq<seq<Value>>, b: Snapshot) {
    RoundsSoFar(m, r, a, orders, b) && IsComplete(b)
  }

  lemma NoRounds(m: Mode, r: Rules, a: Snapshot)
    ensures RoundsSoFar(m, r, a, [], a)
  {
    assert ThroughRounds(m, r, a, [], a, [a]);
  }

  lemma RoundsSnoc(m: Mode, r: Rules, a: Snapshot, orders: seq<seq<Value>>, b: Snapshot, order: seq<Value>, c: Snapshot)
    requires RoundsSoFar(m, r, a, orders, b) && Round(m, r, b, order, c)
    ensures RoundsSoFar(m, r, a, orders + [order], c)
  {
    var states :| ThroughRounds(m, r, a, orders, b, states);
    var longer, orders' := states + [c], orders + [order];
    forall i | 0 <= i < |orders'|
      ensures RoundAt(m, r, longer, orders', i)
    {
      assert i < |orders| ==> RoundAt(m, r, states, orders, i);
    }
    assert ThroughRounds(m, r, a, orders', c, longer);
  }

  lemma RoundsWeaker(r: Rules, a: Snapshot, orders: seq<seq<Value>>, b: Snapshot)
    requires Rounds(Exact, r, a, orders, b)
    ensures Rounds(Strict, r, a, orders, b)
  {
    var states :| ThroughRounds(Exact, r, a, orders, b, states);
    forall i | 0 <= i < |orders|
      ensures RoundAt(Strict, r, states, orders, i)
    {
      assert RoundAt(Exact, r, states, orders, i);
      Weaker(Exact, r, states[i], orders[i], states[i + 1]);
    }
    assert ThroughRounds(Strict, r, a, orders, b, states);
  }

  lemma RoundsCons(m: Mode, r: Rules, a: Snapshot, order: seq<Value>, b: Snapshot, orders: seq<seq<Value>>, c: Snapshot)
    requires Round(m, r, a, order, b) && RoundsSoFar(m, r, b, orders, c)
    ensures RoundsSoFar(m, r, a, [order] + orders, c)
  {
    var states :| ThroughRounds(m, r, b, orders, c, states);
    var longer, orders' := [a] + states, [order] + orders;
    forall i | 0 <= i < |orders'|
      ensures RoundAt(m, r, longer, orders', i)
    {
      assert i > 0 ==> RoundAt(m, r, states, orders, i - 1);
    }
    assert ThroughRounds(m, r, a, orders', c, longer);
  }

  /** A run in rounds is an order of visits. */
  lemma {:induction false} RoundsAreVisits(m: Mode, r: Rules, a: Snapshot, orders: seq<seq<Value>>, b: Snapshot)
    returns (order: seq<Value>)
    requires RoundsSoFar(m, r, a, orders, b)
    ensures Visits(m, r, a, order, b)
  {
    var states :| ThroughRounds(m, r, a, orders, b, states);
    order := RoundsUpTo(m, r, a, orders, b, states, |orders|);
  }

  lemma {:induction false} RoundsUpTo(m: Mode, r: Rules, a: Snapshot, orders: seq<seq<Value>>, b: Snapshot,
                                      states: seq<Snapshot>, n: nat) returns (order: seq<Value>)
    requires ThroughRounds(m, r, a, orders, b, states) && n <= |orders|
    ensures Visits(m, r, a, order, states[n])
  {
    if n == 0 {
      NoVisits(m, r, a);
      order := [];
    } else {
      var before := RoundsUpTo(m, r, a, orders, b, states, n - 1);
      assert RoundAt(m, r, states, orders, n - 1);
      VisitsConcat(m, r, a, before, states[n - 1], orders[n - 1], states[n]);
      order := before + orders[n - 1];
    }
  }

  /** A step that finds nothing has one value less to visit. */
  lemma IdleStep(r: Rules, a: Snapshot, v: Value, b: Snapshot)
    requires ExactStep(r, a, v, b) && a.facts == b.facts
    ensures b.visited == a.visited + {v}
  {
    forall w
      ensures !Again(r, a.facts, b.facts, w)
    {
      NothingAgain(r, a.facts, w);
    }
  }

  lemma {:induction false} IdleUpTo(r: Rules, a: Snapshot, order: seq<Value>, b: Snapshot, states: seq<Snapshot>, n: nat)
    requires Through(Exact, r, a, order, b, states) && n <= |order|
    ensures Le(a.facts, states[n].facts)
    ensures a.facts == states[n].facts ==> forall v :: v in states[n].visited <==> v in a.visited || v in order[..n]
  {
    if n > 0 {
      IdleUpTo(r, a, order, b, states, n - 1);
      assert StepAt(Exact, r, states, order, n - 1);
      assert order[..n] == order[..n - 1] + [order[n - 1]];
      if a.facts == states[n].facts {
        LeBoth(a.facts, states[n - 1].facts);
        IdleStep(r, states[n - 1], order[n - 1], states[n]);
      }
    }
  }

  /** A round that finds nothing leaves nothing to visit. */
  lemma RoundProgress(r: Rules, a: Snapshot, order: seq<Value>, b: Snapshot)
    requires Round(Exact, r, a, order, b)
    ensures Le(a.facts, b.facts)
    ensures a.facts == b.facts ==> IsComplete(b)
  {
    var states :| Through(Exact, r, a, order, b, states);
    IdleUpTo(r, a, order, b, states, |order|);
    assert order[..|order|] == order;
  }
}
