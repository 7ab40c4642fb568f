/**
Programs with one call to test.  The call passes no pointers and its result is not used; for each of its
functions at most one pointer is recorded, and stores are tested at their pointers.  For these the order
of visits makes no difference if and only if the call is timely.
*/
module SingleCall {
  import opened Program
  import opened TaintRules
  import opened VisitOrder
  import opened LateCalls

  /** A visit of the call records nothing and finds nothing but what its test finds. */
  ghost predicate IsPlain(r: Rules, c: Value) {
    && r.operands(c) == {} && r.rets(c) == {} && r.stores(c) == {} && r.traces(c) == {} && r.unites(c) == {}
    && r.accesses(c) == {} && r.enters(c) == {} && !r.always(c)
  }

  /** No other value leads to the call, but through a function that it calls. */
  ghost predicate IsApart(r: Rules, c: Value, v: Value) {
    && c !in r.operands(v) && c !in r.rets(v) && c !in r.stores(v) && c !in r.traces(v)
    && r.through(v) == {} && (v != c ==> r.writes(v) == {})
    && (forall a :: a in r.accesses(v) ==> a.ptr != c)
  }

  ghost predicate OneCall(r: Rules, c: Value) {
    && IsPlain(r, c)
    && (forall v {:trigger IsApart(r, c, v)} :: IsApart(r, c, v))
    && (forall u, p {:trigger r.same(u, p, c)} :: r.same(u, p, c) ==> p == c)
    && (forall v, w, e, e' {:trigger e in r.enters(v), e' in r.enters(w)} ::
          e in r.enters(v) && e' in r.enters(w) && c in r.callSites(e.f) && e.f == e'.f && e.write == e'.write ==> e == e')
  }

  /** A visit of the call changes nothing that has been recorded. */
  lemma CallRecordsNothing(r: Rules, c: Value, seen: set<Value>)
    requires OneCall(r, c)
    ensures Unions(r, seen + {c}) == Unions(r, seen) == Unions(r, seen - {c})
    ensures Accesses(r, seen + {c}) == Accesses(r, seen) == Accesses(r, seen - {c})
    ensures Entries(r, seen + {c}) == Entries(r, seen) == Entries(r, seen - {c})
    ensures forall q :: LoadsOf(r, seen + {c}, q) == LoadsOf(r, seen, q) == LoadsOf(r, seen - {c}, q)
    ensures forall v :: CallTest(r, seen + {c}, v) <==> CallTest(r, seen, v)
    ensures forall v :: CallTest(r, seen, v) <==> CallTest(r, seen - {c}, v)
  {
    assert Unions(r, seen + {c}) == Unions(r, seen) == Unions(r, seen - {c});
    assert Accesses(r, seen + {c}) == Accesses(r, seen) == Accesses(r, seen - {c});
    assert Entries(r, seen + {c}) == Entries(r, seen) == Entries(r, seen - {c});
    forall q
      ensures AccessesOf(r, seen + {c}, q) == AccessesOf(r, seen, q) == AccessesOf(r, seen - {c}, q)
      ensures LoadsOf(r, seen + {c}, q) == LoadsOf(r, seen, q) == LoadsOf(r, seen - {c}, q)
    {
    }
  }

  /** No tests but that of the call. */
  lemma OnlyOneTest(r: Rules, c: Value, seen: set<Value>, v: Value)
    requires OneCall(r, c)
    ensures !OwnTest(r, seen, v) && (v != c ==> !CallTest(r, seen, v))
  {
    assert IsApart(r, c, v);
  }

  lemma WithoutIsBase(r: Rules, g: Facts, c: Value)
    requires RulesOk(r) && OneCall(r, c) && Le(g, Universe(r))
    ensures Without(r, g, c) == Base(r, g)
  {
    var w, base := Without(r, g, c), Base(r, g);
    LeastIsClosed(r, g, r.all, {});
    LeastIsClosed(r, g, r.all, r.all - {c});
    forall v | v in base.tainted && v in r.all - {c}
      ensures CallRule(r, base, v)
    {
      OnlyOneTest(r, c, base.seen, v);
    }
    LeastIsBelow(r, g, r.all, r.all - {c}, base);
    LeastIsBelow(r, g, r.all, {}, w);
    LeBoth(w, base);
  }

  /** Nothing needs the call. */
  lemma CallIsNotNeeded(r: Rules, g: Facts, c: Value)
    requires RulesOk(r) && OneCall(r, c) && Le(g, Universe(r)) && g.needs == {}
    ensures forall u :: (u, c) !in Base(r, g).needs
  {
    var base := Base(r, g);
    LeastIsClosed(r, g, r.all, {});
    var limit := base.(needs := set e | e in base.needs && e.1 != c);
    forall v | v in limit.tainted
      ensures VisitRule(r, limit, v) && OwnRule(r, limit, v)
    {
      assert VisitRule(r, base, v) && IsApart(r, c, v);
      if u :| (u, v) in limit.needs {
        assert (u, v) in base.needs;
      }
      OnlyOneTest(r, c, limit.seen, v);
    }
    FewerNeeds(r, base, limit);
    LeastIsBelow(r, g, r.all, {}, limit);
  }

  lemma FewerNeeds(r: Rules, s: Facts, t: Facts)
    requires ClosedIncludes(r, s) && t == s.(needs := t.needs) && t.needs <= s.needs
    ensures ClosedIncludes(r, t)
  {
    forall v | v in t.included
      ensures IncludeRule(r, t, v)
    {
      assert IncludeRule(r, s, v);
    }
    forall f | f in t.functions
      ensures FunctionRule(r, t, f)
    {
      assert FunctionRule(r, s, f);
    }
  }

  /** Rules for visits do not depend on whether the call has been seen. */
  lemma VisitWithCall(r: Rules, s: Facts, t: Facts, c: Value, v: Value)
    requires RulesOk(r) && OneCall(r, c) && t == s.(seen := t.seen) && t.seen - {c} <= s.seen && v in t.seen
    requires if v == c then v in s.tainted else VisitRule(r, s, v)
    ensures VisitRule(r, t, v) && OwnRule(r, t, v)
  {
    CallRecordsNothing(r, c, t.seen);
    OnlyOneTest(r, c, t.seen, v);
    LoadsGrow(r, t.seen - {c}, s.seen, v);
    if v != c && IsNeeded(t, v) {
      assert IsNeeded(s, v);
    }
  }

  /** While its test fails, visits of the call find nothing. */
  lemma WithoutTheCall(r: Rules, g: Facts, c: Value, vs: set<Value>)
    requires RulesOk(r) && OneCall(r, c) && Le(g, Universe(r)) && g.seen == {} && vs <= r.all && !CallTest(r, vs, c)
    ensures var s, t := Least(r, g, vs, vs), Least(r, g, vs - {c}, {});
            Le(s.(seen := {}), t) && s.seen - {c} <= t.seen && s.seen <= vs
  {
    var t := Least(r, g, vs - {c}, {});
    LeastIsClosed(r, g, vs - {c}, {});
    var limit := t.(seen := vs * t.tainted);
    forall v | v in t.tainted && v in vs && v != c
      ensures v in t.seen
    {
      assert VisitRule(r, t, v);
    }
    forall v | v in limit.tainted && v in vs
      ensures VisitRule(r, limit, v) && OwnRule(r, limit, v) && CallRule(r, limit, v)
    {
      assert v != c ==> VisitRule(r, t, v);
      VisitWithCall(r, t, limit, c, v);
      OnlyOneTest(r, c, limit.seen, v);
      TestsGrow(r, limit.seen, vs, c);
    }
    OtherSeen(r, t, limit);
    LeastIsBelow(r, g, vs, vs, limit);
  }

  lemma BaseWithoutCall(r: Rules, g: Facts, c: Value)
    requires RulesOk(r) && OneCall(r, c) && Le(g, Universe(r)) && g.seen == {}
    ensures Base(r, g).tainted <= Least(r, g, r.all - {c}, {}).tainted
  {
    var t := Least(r, g, r.all - {c}, {});
    LeastIsClosed(r, g, r.all - {c}, {});
    var limit := t.(seen := t.tainted);
    forall v | v in t.tainted && v != c
      ensures v in t.seen
    {
      assert VisitRule(r, t, v);
    }
    forall v | v in limit.tainted && v in r.all
      ensures VisitRule(r, limit, v) && OwnRule(r, limit, v)
    {
      assert v != c ==> VisitRule(r, t, v);
      VisitWithCall(r, t, limit, c, v);
    }
    OtherSeen(r, t, limit);
    LeastIsBelow(r, g, r.all, {}, limit);
  }

  /** Every value that is found in the end has been visited, and no other. */
  lemma BaseIsSeen(r: Rules, g: Facts)
    requires RulesOk(r) && Le(g, Universe(r)) && g.seen == {}
    ensures Base(r, g).seen == Base(r, g).tainted
  {
    var base := Base(r, g);
    LeastIsClosed(r, g, r.all, {});
    forall v | v in base.tainted
      ensures v in base.seen
    {
      assert VisitRule(r, base, v);
    }
    var limit := base.(seen := base.tainted);
    forall v | v in limit.tainted
      ensures VisitRule(r, limit, v) && OwnRule(r, limit, v)
    {
      assert VisitRule(r, base, v);
      SmallerSeen(r, base, limit.seen, v);
    }
    OtherSeen(r, base, limit);
    LeastIsBelow(r, g, r.all, {}, limit);
  }

  /** No reason for a new visit is left, once all functions are included and have recorded their pointers. */
  lemma NoReasonLeft(r: Rules, g: Facts, c: Value, s: Facts)
    requires RulesOk(r) && OneCall(r, c) && Le(g, Universe(r)) && g.seen == {} && g.needs == {}
    requires Le(s, Base(r, g)) && AllCalled(r, s, Base(r, g), c) && c !in Base(r, g).included
    ensures !Again(r, s, Base(r, g), c)
  {
    var base := Base(r, g);
    CallIsNotNeeded(r, g, c);
    BaseIsSeen(r, g);
    forall q
      ensures c !in r.stores(q) + r.traces(q)
    {
      assert IsApart(r, c, q);
    }
    forall e | e in Entries(r, base.seen) && c in r.callSites(e.f)
      ensures e in Entries(r, s.seen)
    {
      assert HasEntry(r, s.seen, e.f, e.write);
      var e' :| e' in Entries(r, s.seen) && e'.f == e.f && e'.write == e.write;
      var v :| v in base.seen && e in r.enters(v);
      var w :| w in s.seen && e' in r.enters(w);
    }
    ClassOfCall(r, c, s.seen, base.seen);
  }

  lemma ClassOfCall(r: Rules, c: Value, seen: set<Value>, more: set<Value>)
    requires RulesOk(r) && OneCall(r, c)
    ensures !ClassChanged(r, seen, more, c)
  {
    forall a, vs | a in Accesses(r, vs)
      ensures a.ptr != c
    {
      var v :| v in vs && a in r.accesses(v);
      assert IsApart(r, c, v);
    }
    assert AccessesOf(r, seen, c) == {} && AccessesOf(r, more, c) == {};
    assert Alias(r, seen, c, c);
  }

  /** What is found by the other visits alone is enough to have included all functions of the call. */
  lemma CallIsKnownEarly(r: Rules, g: Facts, c: Value, us: set<Value>)
    requires RulesOk(r) && OneCall(r, c) && Le(g, Universe(r)) && g.seen == {} && g.needs == {} && us <= r.all
    requires c !in Base(r, g).included && AllCalled(r, Least(r, g, us, us), Base(r, g), c) && !CallTest(r, us, c)
    ensures c in Least(r, g, us - {c}, {}).tainted && !Again(r, Least(r, g, us - {c}, {}), Without(r, g, c), c)
  {
    WithoutTheCall(r, g, c, us);
    AllCalledEarly(r, Base(r, g), Least(r, g, us, us), Least(r, g, us - {c}, {}), c);
    EarlyIsBelow(r, g, us - {c});
    NoReasonLeft(r, g, c, Least(r, g, us - {c}, {}));
    WithoutIsBase(r, g, c);
  }

  lemma TestFailsEarly(r: Rules, c: Value, us: set<Value>)
    requires OneCall(r, c) && !CallTest(r, us, c)
    ensures !CallTest(r, us - {c} + {c}, c)
  {
    CallRecordsNothing(r, c, us);
    assert us - {c} + {c} == us + {c};
  }

  lemma NoOwnTests(r: Rules, c: Value)
    requires OneCall(r, c)
    ensures forall v :: r.through(v) == {}
  {
    forall v
      ensures r.through(v) == {}
    {
      assert IsApart(r, c, v);
    }
  }

  /** A call that is not timely is late. */
  lemma NotTimelyIsLate(r: Rules, g: Facts, c: Value) returns (vs: set<Value>)
    requires RulesOk(r) && OneCall(r, c) && Le(g, Universe(r)) && g.seen == {} && g.needs == {}
    requires c !in Base(r, g).included && CallTest(r, Base(r, g).tainted, c) && !IsTimely(r, g, c)
    ensures IsLate(r, g, c, vs)
  {
    var us :| us <= r.all && AllCalled(r, Least(r, g, us, us), Base(r, g), c) && !CallTest(r, us, c);
    vs := us - {c};
    CallIsKnownEarly(r, g, c, us);
    TestFailsEarly(r, c, us);
    WithoutIsBase(r, g, c);
    TestPassesLater(r, g, c);
    NoOwnTests(r, c);
  }

  lemma EarlyIsBelow(r: Rules, g: Facts, vs: set<Value>)
    requires RulesOk(r) && Le(g, Universe(r)) && vs <= r.all
    ensures Le(Least(r, g, vs, {}), Base(r, g))
  {
    LeastIsClosed(r, g, r.all, {});
    ClosedByFewer(r, r.all, {}, Base(r, g), vs, {});
    LeastIsBelow(r, g, vs, {}, Base(r, g));
  }

  lemma TestPassesLater(r: Rules, g: Facts, c: Value)
    requires RulesOk(r) && OneCall(r, c) && Le(g, Universe(r)) && g.seen == {} && CallTest(r, Base(r, g).tainted, c)
    ensures CallTest(r, Least(r, g, r.all - {c}, {}).tainted + {c}, c)
  {
    BaseWithoutCall(r, g, c);
    TestsGrow(r, Base(r, g).tainted, Least(r, g, r.all - {c}, {}).tainted + {c}, c);
  }

  lemma AllCalledEarly(r: Rules, base: Facts, s: Facts, t: Facts, c: Value)
    requires OneCall(r, c) && AllCalled(r, s, base, c) && Le(s.(seen := {}), t) && s.seen - {c} <= t.seen
    ensures AllCalled(r, t, base, c)
  {
    CallRecordsNothing(r, c, s.seen);
    RecordsGrow(r, s.seen - {c}, t.seen);
    forall e | e in Entries(r, base.tainted) && c in r.callSites(e.f)
      ensures HasEntry(r, t.seen, e.f, e.write)
    {
      assert HasEntry(r, s.seen, e.f, e.write);
    }
  }

  /** All complete runs from the start find the same. */
  ghost predicate OrderMakesNoDifference(r: Rules, a: Snapshot) {
    forall order, b, order', b' {:trigger Visits(Exact, r, a, order, b), Visits(Exact, r, a, order', b')} ::
      Visits(Exact, r, a, order, b) && IsComplete(b) && Visits(Exact, r, a, order', b') && IsComplete(b') ==>
        b.facts == b'.facts
  }

  /** For a program with one call to test, the order of visits makes no difference exactly when the call is
      included anyway, or can never pass the test, or is timely. */
  lemma OrderMakesNoDifferenceIff(r: Rules, g: Facts, a: Snapshot, c: Value)
    requires RulesOk(r) && OneCall(r, c) && IsStart(r, g, a) && g.needs == {}
    ensures OrderMakesNoDifference(r, a) <==>
            c in Base(r, g).included || !CallTest(r, Base(r, g).tainted, c) || IsTimely(r, g, c)
  {
    if c in Base(r, g).included || !CallTest(r, Base(r, g).tainted, c) || IsTimely(r, g, c) {
      OneCallIsTimely(r, g, c);
      forall order, b, order', b' | Visits(Exact, r, a, order, b) && IsComplete(b) && Visits(Exact, r, a, order', b') &&
                                    IsComplete(b')
        ensures b.facts == b'.facts
      {
        TimelyRunsAgree(Exact, r, g, a, order, b);
        TimelyRunsAgree(Exact, r, g, a, order', b');
      }
    } else {
      var vs := NotTimelyIsLate(r, g, c);
      var early, b, late, b' := LateCallIsOverlooked(r, g, a, c, vs);
    }
  }

  lemma OneCallIsTimely(r: Rules, g: Facts, c: Value)
    requires RulesOk(r) && OneCall(r, c) && Le(g, Universe(r)) && g.seen == {}
    requires c in Base(r, g).included || !CallTest(r, Base(r, g).tainted, c) || IsTimely(r, g, c)
    ensures AllTimely(r, g)
  {
    var top := Top(r, g);
    forall d | d in top.tainted && CallTest(r, top.seen, d)
      ensures d == c
    {
      OnlyOneTest(r, c, top.seen, d);
    }
    if !CallTest(r, Base(r, g).tainted, c) {
      BaseIsSeen(r, g);
      forall d | d in Base(r, g).tainted
        ensures CallRule(r, Base(r, g), d)
      {
        OnlyOneTest(r, c, Base(r, g).seen, d);
      }
      NothingToAdd(r, g);
    }
  }
}
