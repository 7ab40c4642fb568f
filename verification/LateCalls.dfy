/**
When the order of visits does matter.  From any state a run can be completed; so a call that can be
visited for the last time before its test passes is left out by some order, and included by another.
For programs with one call to test the condition for this is exact.
*/
module LateCalls {
  import opened Program
  import opened TaintRules
  import opened VisitOrder

  // ---------------------------------------------------------------- runs can be completed

  /** The rules hold for everything that need not be visited again. */
  ghost predicate ExactlyKept(r: Rules, a: Snapshot) {
    && (forall v {:trigger VisitRule(r, a.facts, v)} :: v in a.visited ==> VisitRule(r, a.facts, v))
    && ClosedIncludes(r, a.facts) && Le(a.facts, Universe(r))
  }

  lemma ExactStepKeeps(r: Rules, a: Snapshot, v: Value, b: Snapshot)
    requires RulesOk(r) && ExactStep(r, a, v, b) && ExactlyKept(r, a)
    ensures ExactlyKept(r, b)
  {
    forall q | q in b.visited
      ensures VisitRule(r, b.facts, q)
    {
      assert q == v || VisitRule(r, a.facts, q);
      assert !Again(r, a.facts, b.facts, q);
      assert AccessesOf(r, a.facts.seen, q) == AccessesOf(r, b.facts.seen, q);
      assert LoadsOf(r, a.facts.seen, q) == LoadsOf(r, b.facts.seen, q);
      if u :| (u, q) in b.facts.needs {
        assert (u, q) in a.facts.needs;
      }
    }
    UniverseIsClosed(r, r.all, r.all);
    StepIsBelow(r, r.all, r.all, a, v, b, Universe(r));
  }

  /** The same facts, with other values seen. */
  lemma OtherSeen(r: Rules, s: Facts, t: Facts)
    requires ClosedIncludes(r, s) && t == s.(seen := t.seen)
    ensures ClosedIncludes(r, t)
  {
    forall v | v in t.included
      ensures IncludeRule(r, t, v)
    {
      assert IncludeRule(r, s, v);
    }
    forall f | f in t.functions
      ensures FunctionRule(r, t, f)
    {
      assert FunctionRule(r, s, f);
    }
  }

  lemma SeenOfVisit(r: Rules, s: Facts, v: Value)
    requires RulesOk(r) && Le(s, Universe(r)) && v in s.tainted
    ensures Least(r, s, {v}, {v}).seen == s.seen + {v}
  {
    LeastIsClosed(r, s, {v}, {v});
    assert VisitRule(r, Least(r, s, {v}, {v}), v);
    UniverseIsClosed(r, {v}, {v});
    var limit := Universe(r).(seen := s.seen + {v});
    assert VisitRule(r, Universe(r), v) && v in limit.included;
    assert VisitRule(r, limit, v) && OwnRule(r, limit, v) && CallRule(r, limit, v);
    OtherSeen(r, Universe(r), limit);
    LeastIsBelow(r, s, {v}, {v}, limit);
  }

  /** Any value that is due can be visited. */
  lemma StepExists(r: Rules, a: Snapshot, v: Value) returns (b: Snapshot)
    requires RulesOk(r) && ExactlyKept(r, a) && v in a.facts.tainted && v !in a.visited
    ensures ExactStep(r, a, v, b)
  {
    var t := Least(r, a.facts, {v}, {v});
    LeastIsClosed(r, a.facts, {v}, {v});
    SeenOfVisit(r, a.facts, v);
    assert VisitRule(r, t, v) && CallRule(r, t, v);
    assert IsNeeded(a.facts, v) ==> IsNeeded(t, v);
    forall limit | ClosedIncludes(r, limit) && Le(a.facts, limit) && VisitRule(r, limit, v) && OwnRule(r, limit, v) &&
                   CallRule(r, limit, v)
      ensures Le(t, limit)
    {
      assert ClosedBy(r, {v}, {v}, limit);
      LeastIsBelow(r, a.facts, {v}, {v}, limit);
    }
    b := Snapshot(t, set w | w in a.visited + {v} && !Again(r, a.facts, t, w));
    forall w | w in b.visited
      ensures !Must(r, a.facts, t, w)
    {
      if Must(r, a.facts, t, w) {
        MustIsAgain(r, a.facts, t, w);
      }
    }
  }

  /** Whatever is to be visited first can be visited until nothing of it is due. */
  lemma {:induction false} CompleteOn(r: Rules, a: Snapshot, vs: set<Value>) returns (order: seq<Value>, b: Snapshot)
    requires RulesOk(r) && ExactlyKept(r, a)
    ensures Visits(Exact, r, a, order, b) && Elements(order) <= vs && ExactlyKept(r, b)
    ensures forall v :: v in b.facts.tainted && v in vs ==> v in b.visited
    decreases Unknown(r, a.facts), vs * a.facts.tainted - a.visited
  {
    var due := vs * a.facts.tainted - a.visited;
    if due == {} {
      NoVisits(Exact, r, a);
      order, b := [], a;
      assert forall v :: v in a.facts.tainted && v in vs && v !in a.visited ==> v in due;
    } else {
      var v :| v in due;
      var c := StepExists(r, a, v);
      ExactStepKeeps(r, a, v, c);
      UnknownShrinks(r, a.facts, c.facts);
      if a.facts == c.facts {
        IdleStep(r, a, v, c);
      }
      var rest;
      rest, b := CompleteOn(r, c, vs);
      OneStep(Exact, r, a, v, c);
      VisitsConcat(Exact, r, a, [v], c, rest, b);
      order := [v] + rest;
    }
  }

  lemma StartIsExact(r: Rules, g: Facts, a: Snapshot)
    requires RulesOk(r) && IsStart(r, g, a)
    ensures ExactlyKept(r, a)
  {
    StartIsKept(r, g, a);
  }

  /** A run that has visited all that is due of vs has found what vs is sure to find. */
  lemma PartIsClosed(r: Rules, g: Facts, a: Snapshot, vs: set<Value>)
    requires RulesOk(r) && ExactlyKept(r, a) && Le(g, a.facts)
    requires forall v :: v in a.facts.tainted && v in vs ==> v in a.visited
    requires forall v :: v in vs ==> r.through(v) <= vs
    ensures ClosedBy(r, vs, {}, a.facts) && Le(Least(r, g, vs, {}), a.facts)
  {
    forall v | v in a.facts.tainted && v in vs
      ensures VisitRule(r, a.facts, v) && OwnRule(r, a.facts, v)
    {
      assert VisitRule(r, a.facts, v) && RuleOk(r, v);
      forall p | p in r.through(v)
        ensures StoreRule(r, a.facts, p)
      {
        assert VisitRule(r, a.facts, p);
      }
      OwnIsStoreRule(r, a.facts, v);
    }
    LeastIsBelow(r, g, vs, {}, a.facts);
  }

  // ---------------------------------------------------------------- a call that is visited too early

  /** What every run finds that includes call c only for other reasons than its test. */
  ghost function Without(r: Rules, g: Facts, c: Value): Facts {
    Least(r, g, r.all, r.all - {c})
  }

  /** Visits of vs find call c and all reasons to visit it again, but do not record what makes its test
      pass, which in the end passes; and nothing but the test includes the call. */
  ghost predicate IsLate(r: Rules, g: Facts, c: Value, vs: set<Value>) {
    var early, rest := Least(r, g, vs, {}), Least(r, g, r.all - {c}, {});
    && vs <= r.all && c !in vs && (forall v :: v in vs ==> r.through(v) <= vs) && (forall v :: c !in r.through(v))
    && c in early.tainted && c !in Without(r, g, c).included
    && !Again(r, early, Without(r, g, c), c)
    && !CallTest(r, vs + {c}, c) && CallTest(r, rest.tainted + {c}, c)
  }

  /** The call has been visited, and what can still be found is no reason to visit it again. */
  ghost predicate IsOverlooked(r: Rules, g: Facts, a: Snapshot, c: Value, floor: Facts) {
    c in a.visited && Le(floor, a.facts) && Le(a.facts, Without(r, g, c))
  }

  lemma WithoutIsClosed(r: Rules, g: Facts, c: Value)
    requires RulesOk(r) && Le(g, Universe(r))
    ensures ClosedBy(r, r.all, r.all - {c}, Without(r, g, c)) && ClosedBy(r, r.all - {c}, r.all - {c}, Without(r, g, c))
    ensures Le(g, Without(r, g, c)) && Le(Without(r, g, c), Universe(r))
    ensures forall vs :: vs <= r.all ==> Le(Least(r, g, vs, {}), Without(r, g, c))
  {
    LeastIsClosed(r, g, r.all, r.all - {c});
    forall vs | vs <= r.all
      ensures Le(Least(r, g, vs, {}), Without(r, g, c))
    {
      ClosedByFewer(r, r.all, r.all - {c}, Without(r, g, c), vs, {});
      LeastIsBelow(r, g, vs, {}, Without(r, g, c));
    }
  }

  lemma NeverAgain(r: Rules, g: Facts, s: Facts, t: Facts, c: Value, floor: Facts)
    requires RulesOk(r) && !Again(r, floor, Without(r, g, c), c)
    requires Le(floor, s) && Le(s, t) && Le(t, Without(r, g, c))
    ensures !Again(r, s, t, c)
  {
    AgainChain(r, floor, s, Without(r, g, c), c);
    AgainChain(r, s, t, Without(r, g, c), c);
  }

  lemma OverlookedStep(r: Rules, g: Facts, a: Snapshot, v: Value, b: Snapshot, c: Value, floor: Facts)
    requires RulesOk(r) && Le(g, Universe(r)) && ExactStep(r, a, v, b) && IsOverlooked(r, g, a, c, floor)
    requires !Again(r, floor, Without(r, g, c), c)
    ensures IsOverlooked(r, g, b, c, floor)
  {
    WithoutIsClosed(r, g, c);
    assert v in r.all - {c};
    StepIsBelow(r, r.all - {c}, r.all - {c}, a, v, b, Without(r, g, c));
    NeverAgain(r, g, a.facts, b.facts, c, floor);
  }

  lemma {:induction false} StaysOverlooked(r: Rules, g: Facts, a: Snapshot, order: seq<Value>, b: Snapshot,
                                           states: seq<Snapshot>, n: nat, c: Value, floor: Facts)
    requires RulesOk(r) && Le(g, Universe(r)) && Through(Exact, r, a, order, b, states) && n <= |order|
    requires IsOverlooked(r, g, a, c, floor) && !Again(r, floor, Without(r, g, c), c)
    ensures IsOverlooked(r, g, states[n], c, floor)
  {
    if n > 0 {
      StaysOverlooked(r, g, a, order, b, states, n - 1, c, floor);
      assert StepAt(Exact, r, states, order, n - 1);
      OverlookedStep(r, g, states[n - 1], order[n - 1], states[n], c, floor);
    }
  }

  /** A visit of the call at which the test fails. */
  lemma FailedVisit(r: Rules, g: Facts, a: Snapshot, b: Snapshot, c: Value, floor: Facts)
    requires RulesOk(r) && Le(g, Universe(r)) && ExactStep(r, a, c, b) && c in Without(r, g, c).tainted
    requires c !in Without(r, g, c).included && !CallTest(r, a.facts.seen + {c}, c)
    requires Le(floor, a.facts) && Le(a.facts, Without(r, g, c)) && !Again(r, floor, Without(r, g, c), c)
    ensures IsOverlooked(r, g, b, c, floor)
  {
    WithoutIsClosed(r, g, c);
    assert VisitRule(r, Without(r, g, c), c) && OwnRule(r, Without(r, g, c), c);
    FailedFinds(r, a, b, c, Without(r, g, c));
    NeverAgain(r, g, a.facts, b.facts, c, floor);
  }

  lemma FailedFinds(r: Rules, a: Snapshot, b: Snapshot, c: Value, limit: Facts)
    requires RulesOk(r) && VisitStep(r, a, c, b) && Le(a.facts, limit) && ClosedIncludes(r, limit)
    requires VisitRule(r, limit, c) && OwnRule(r, limit, c) && !CallTest(r, a.facts.seen + {c}, c)
    ensures Le(b.facts, limit)
  {
    SmallerSeen(r, limit, a.facts.seen + {c}, c);
    assert Le(b.facts, limit.(seen := a.facts.seen + {c}));
  }

  /** Rules stay satisfied when less has been recorded. */
  lemma SmallerSeen(r: Rules, s: Facts, seen: set<Value>, v: Value)
    requires RulesOk(r) && VisitRule(r, s, v) && OwnRule(r, s, v) && v in seen && seen <= s.seen
    ensures var t := s.(seen := seen); VisitRule(r, t, v) && OwnRule(r, t, v) && (ClosedIncludes(r, s) ==> ClosedIncludes(r, t))
  {
    LoadsGrow(r, seen, s.seen, v);
    TestsGrow(r, seen, s.seen, v);
    var t := s.(seen := seen);
    assert IsNeeded(t, v) ==> IsNeeded(s, v);
    if ClosedIncludes(r, s) {
      forall x | x in t.included
        ensures IncludeRule(r, t, x)
      {
        assert IncludeRule(r, s, x);
      }
      forall f | f in t.functions
        ensures FunctionRule(r, t, f)
      {
        assert FunctionRule(r, s, f);
      }
    }
  }

  /** The order that visits the call too early: it stays left out, although its test passes in the end. */
  lemma EarlyRun(r: Rules, g: Facts, a: Snapshot, c: Value, vs: set<Value>) returns (order: seq<Value>, b: Snapshot)
    requires RulesOk(r) && IsStart(r, g, a) && IsLate(r, g, c, vs)
    ensures Visits(Exact, r, a, order, b) && IsComplete(b)
    ensures c !in b.facts.included && CallTest(r, b.facts.seen, c)
  {
    StartIsExact(r, g, a);
    StartIsKept(r, g, a);
    WithoutIsClosed(r, g, c);
    var first, s := CompleteOn(r, a, vs);
    var states :| Through(Exact, r, a, first, s, states);
    RunKeeps(Exact, r, a, first, s, states, |first|);
    assert first[..|first|] == first;
    PartIsClosed(r, g, s, vs);
    PartIsBelow(Exact, r, g, a, first, s, states, c);
    var t := StepExists(r, s, c);
    ExactStepKeeps(r, s, c, t);
    TestsGrow(r, s.facts.seen + {c}, vs + {c}, c);
    FailedVisit(r, g, s, t, c, Least(r, g, vs, {}));
    var last;
    last, b := CompleteOn(r, t, r.all);
    OneStep(Exact, r, s, c, t);
    VisitsConcat(Exact, r, a, first, s, [c], t);
    VisitsConcat(Exact, r, a, first + [c], t, last, b);
    order := first + [c] + last;
    var states' :| Through(Exact, r, t, last, b, states');
    StaysOverlooked(r, g, t, last, b, states', |last|, c, Least(r, g, vs, {}));
    EarlyRunPasses(r, g, a, order, b, c);
  }

  lemma PartIsBelow(m: Mode, r: Rules, g: Facts, a: Snapshot, order: seq<Value>, b: Snapshot, states: seq<Snapshot>, c: Value)
    requires RulesOk(r) && IsStart(r, g, a) && Through(m, r, a, order, b, states) && c !in order
    ensures Le(b.facts, Without(r, g, c))
  {
    var limit := Without(r, g, c);
    WithoutIsClosed(r, g, c);
    LeastIsBelow(r, g, {}, {}, limit);
    OrderInUniverse(m, r, g, a, order, b, states, |order|);
    forall v | v in order[..|order|]
      ensures v in r.all - {c}
    {
      assert v in Elements(order[..|order|]);
    }
    RunIsBelow(m, r, a, order, b, states, |order|, r.all - {c}, r.all - {c}, limit);
  }

  lemma FoundWithout(m: Mode, r: Rules, g: Facts, a: Snapshot, order: seq<Value>, b: Snapshot, c: Value)
    requires RulesOk(r) && IsStart(r, g, a) && Visits(m, r, a, order, b) && c !in order
    ensures Le(b.facts, Without(r, g, c))
  {
    var states :| Through(m, r, a, order, b, states);
    PartIsBelow(m, r, g, a, order, b, states, c);
  }

  lemma EarlyRunPasses(r: Rules, g: Facts, a: Snapshot, order: seq<Value>, b: Snapshot, c: Value)
    requires RulesOk(r) && IsStart(r, g, a) && Visits(Exact, r, a, order, b) && ExactlyKept(r, b) && c in b.facts.tainted
    requires (forall v :: v in b.facts.tainted && v in r.all ==> v in b.visited)
    requires CallTest(r, Least(r, g, r.all - {c}, {}).tainted + {c}, c)
    ensures IsComplete(b) && CallTest(r, b.facts.seen, c)
  {
    OutcomeIsClosed(Exact, r, g, a, order, b);
    FullyClosed(r, b.facts);
    ClosedByFewer(r, r.all, {}, b.facts, r.all - {c}, {});
    LeastIsBelow(r, g, r.all - {c}, {}, b.facts);
    TestsGrow(r, Least(r, g, r.all - {c}, {}).tainted + {c}, b.facts.seen, c);
  }

  /** The order that visits the call last. */
  lemma LastRun(r: Rules, g: Facts, a: Snapshot, c: Value, vs: set<Value>) returns (order: seq<Value>, b: Snapshot)
    requires RulesOk(r) && IsStart(r, g, a) && IsLate(r, g, c, vs)
    ensures Visits(Exact, r, a, order, b) && IsComplete(b) && c in b.facts.included
  {
    StartIsExact(r, g, a);
    StartIsKept(r, g, a);
    var others := r.all - {c};
    var first, s := CompleteOn(r, a, others);
    var states :| Through(Exact, r, a, first, s, states);
    RunKeeps(Exact, r, a, first, s, states, |first|);
    assert first[..|first|] == first;
    forall v | v in others
      ensures r.through(v) <= others
    {
      assert RuleOk(r, v);
    }
    PartIsClosed(r, g, s, others);
    LeastIsClosed(r, g, others, {});
    ClosedByFewer(r, others, {}, Least(r, g, others, {}), vs, {});
    LeastIsBelow(r, g, vs, {}, Least(r, g, others, {}));
    var t := StepExists(r, s, c);
    ExactStepKeeps(r, s, c, t);
    TestsGrow(r, Least(r, g, others, {}).tainted + {c}, t.facts.seen, c);
    var last;
    last, b := CompleteOn(r, t, r.all);
    var states' :| Through(Exact, r, t, last, b, states');
    RunGrows(r, t, last, b, states', |last|);
    OneStep(Exact, r, s, c, t);
    VisitsConcat(Exact, r, a, first, s, [c], t);
    VisitsConcat(Exact, r, a, first + [c], t, last, b);
    order := first + [c] + last;
  }

  lemma {:induction false} RunGrows(r: Rules, a: Snapshot, order: seq<Value>, b: Snapshot, states: seq<Snapshot>, n: nat)
    requires Through(Exact, r, a, order, b, states) && n <= |order|
    ensures Le(a.facts, states[n].facts)
  {
    if n > 0 {
      RunGrows(r, a, order, b, states, n - 1);
      assert StepAt(Exact, r, states, order, n - 1);
    }
  }

  /** If call c can be visited for the last time too early, then two orders have different results. */
  lemma LateCallIsOverlooked(r: Rules, g: Facts, a: Snapshot, c: Value, vs: set<Value>)
    returns (early: seq<Value>, b: Snapshot, late: seq<Value>, b': Snapshot)
    requires RulesOk(r) && IsStart(r, g, a) && IsLate(r, g, c, vs)
    ensures Visits(Exact, r, a, early, b) && IsComplete(b) && Visits(Exact, r, a, late, b') && IsComplete(b')
    ensures c !in b.facts.included && CallTest(r, b.facts.seen, c) && c in b'.facts.included
  {
    early, b := EarlyRun(r, g, a, c, vs);
    late, b' := LastRun(r, g, a, c, vs);
  }

  // ---------------------------------------------------------------- the same in rounds

  /** Values that are due stay due until they are visited. */
  lemma {:induction false} VisitEach(r: Rules, a: Snapshot, due: set<Value>) returns (order: seq<Value>, b: Snapshot)
    requires RulesOk(r) && ExactlyKept(r, a) && due <= a.facts.tainted && due !! a.visited
    ensures Visits(Exact, r, a, order, b) && Elements(order) == due && ExactlyKept(r, b)
    ensures b.visited <= a.visited + due && b.facts.seen == a.facts.seen + due && Le(a.facts, b.facts)
    decreases due
  {
    if due == {} {
      NoVisits(Exact, r, a);
      order, b := [], a;
    } else {
      var v :| v in due;
      var c := StepExists(r, a, v);
      ExactStepKeeps(r, a, v, c);
      var rest;
      rest, b := VisitEach(r, c, due - {v});
      OneStep(Exact, r, a, v, c);
      VisitsConcat(Exact, r, a, [v], c, rest, b);
      order := [v] + rest;
      assert Elements(order) == {v} + Elements(rest);
    }
  }

  lemma RoundExists(r: Rules, a: Snapshot) returns (order: seq<Value>, b: Snapshot)
    requires RulesOk(r) && ExactlyKept(r, a)
    ensures Round(Exact, r, a, order, b) && ExactlyKept(r, b)
    ensures !IsComplete(a) ==> order != []
  {
    order, b := VisitEach(r, a, a.facts.tainted - a.visited);
    IsRound(Exact, r, a, order, b);
  }

  lemma IsRound(m: Mode, r: Rules, a: Snapshot, order: seq<Value>, b: Snapshot)
    requires Visits(m, r, a, order, b) && Elements(order) == a.facts.tainted - a.visited
    ensures Round(m, r, a, order, b) && (!IsComplete(a) ==> order != [])
  {
    forall v
      ensures v in order <==> v in a.facts.tainted && v !in a.visited
    {
      assert v in order <==> v in Elements(order);
    }
  }

  /** Rounds can be made until nothing is due. */
  lemma {:induction false} RoundsExist(r: Rules, a: Snapshot) returns (orders: seq<seq<Value>>, b: Snapshot)
    requires RulesOk(r) && ExactlyKept(r, a)
    ensures Rounds(Exact, r, a, orders, b)
    decreases Unknown(r, a.facts), a.facts.tainted - a.visited
  {
    if IsComplete(a) {
      NoRounds(Exact, r, a);
      orders, b := [], a;
    } else {
      var order, c := RoundExists(r, a);
      RoundProgress(r, a, order, c);
      UnknownShrinks(r, a.facts, c.facts);
      NotComplete(a);
      if a.facts == c.facts {
        assert c.facts.tainted - c.visited == {};
      }
      var rest;
      rest, b := RoundsExist(r, c);
      RoundsCons(Exact, r, a, order, c, rest, b);
      orders := [order] + rest;
    }
  }

  lemma NotComplete(a: Snapshot)
    requires !IsComplete(a)
    ensures a.facts.tainted - a.visited != {}
  {
    var v :| v in a.facts.tainted && v !in a.visited;
    assert v in a.facts.tainted - a.visited;
  }

  /** In a state at which a round begins call c is due; its test fails now and passes with what the values
      record that are due as well; only the test includes it, and no reason for a new visit is left. */
  ghost predicate IsDueTooEarly(r: Rules, g: Facts, a: Snapshot, c: Value) {
    && c in a.facts.tainted && c !in a.visited && Le(a.facts, Without(r, g, c))
    && c !in Without(r, g, c).included && !Again(r, a.facts, Without(r, g, c), c)
    && !CallTest(r, a.facts.seen + {c}, c) && CallTest(r, a.facts.seen + (a.facts.tainted - a.visited), c)
  }

  lemma OverlookedInRound(r: Rules, g: Facts, a: Snapshot, c: Value) returns (order: seq<Value>, b: Snapshot)
    requires RulesOk(r) && Le(g, Universe(r)) && ExactlyKept(r, a) && IsDueTooEarly(r, g, a, c)
    ensures Round(Exact, r, a, order, b) && ExactlyKept(r, b) && IsOverlooked(r, g, b, c, a.facts)
    ensures b.facts.seen == a.facts.seen + (a.facts.tainted - a.visited)
  {
    var others := a.facts.tainted - a.visited - {c};
    var s := StepExists(r, a, c);
    ExactStepKeeps(r, a, c, s);
    FailedVisit(r, g, a, s, c, a.facts);
    OneStep(Exact, r, a, c, s);
    var rest;
    rest, b := VisitEach(r, s, others);
    VisitsConcat(Exact, r, a, [c], s, rest, b);
    order := [c] + rest;
    assert Elements(order) == {c} + Elements(rest);
    IsRound(Exact, r, a, order, b);
    var states :| Through(Exact, r, s, rest, b, states);
    StaysOverlooked(r, g, s, rest, b, states, |rest|, c, a.facts);
  }

  lemma IncludedInRound(r: Rules, a: Snapshot, c: Value) returns (order: seq<Value>, b: Snapshot)
    requires RulesOk(r) && ExactlyKept(r, a) && c in a.facts.tainted && c !in a.visited
    requires CallTest(r, a.facts.seen + (a.facts.tainted - a.visited), c)
    ensures Round(Exact, r, a, order, b) && ExactlyKept(r, b) && c in b.facts.included
  {
    var others := a.facts.tainted - a.visited - {c};
    var rest, s := VisitEach(r, a, others);
    b := StepExists(r, s, c);
    ExactStepKeeps(r, s, c, b);
    OneStep(Exact, r, s, c, b);
    VisitsConcat(Exact, r, a, rest, s, [c], b);
    order := rest + [c];
    assert Elements(order) == Elements(rest) + {c};
    IsRound(Exact, r, a, order, b);
    assert b.facts.seen == a.facts.seen + (a.facts.tainted - a.visited);
  }

  /** Then two orders of the values in this round have different results. */
  lemma RoundDecides(r: Rules, g: Facts, a: Snapshot, c: Value)
    returns (early: seq<seq<Value>>, b: Snapshot, late: seq<seq<Value>>, b': Snapshot)
    requires RulesOk(r) && Le(g, Universe(r)) && ExactlyKept(r, a) && IsDueTooEarly(r, g, a, c)
    ensures Rounds(Exact, r, a, early, b) && Rounds(Exact, r, a, late, b')
    ensures c !in b.facts.included && CallTest(r, b.facts.seen, c) && c in b'.facts.included
  {
    var order, s := OverlookedInRound(r, g, a, c);
    var rest;
    rest, b := RoundsExist(r, s);
    RoundsCons(Exact, r, a, order, s, rest, b);
    early := [order] + rest;
    var visits := RoundsAreVisits(Exact, r, s, rest, b);
    var states :| Through(Exact, r, s, visits, b, states);
    StaysOverlooked(r, g, s, visits, b, states, |visits|, c, a.facts);
    RunGrows(r, s, visits, b, states, |visits|);
    TestsGrow(r, s.facts.seen, b.facts.seen, c);
    var order', s' := IncludedInRound(r, a, c);
    var rest';
    rest', b' := RoundsExist(r, s');
    RoundsCons(Exact, r, a, order', s', rest', b');
    late := [order'] + rest';
    var visits' := RoundsAreVisits(Exact, r, s', rest', b');
    var states' :| Through(Exact, r, s', visits', b', states');
    RunGrows(r, s', visits', b', states', |visits'|);
  }
}
