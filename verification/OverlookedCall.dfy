/**
A program on which the order of visits matters:

    main:  C1: f();  L1: load g;  C2: f();  L2: load g        f:  X: store g

The second load is found through two other values, in the round in which the calls are visited.  A call is
visited again when its function records a pointer for the first time, but not when a load is found.  If the
second call is visited before the second load, it comes after all loads that are known, and stays left out.
*/
module OverlookedCall {
  import opened Program
  import opened TaintRules
  import opened VisitOrder
  import opened LateCalls

  const G := Res(0)
  const L1 := Res(1)
  const L2 := Res(2)
  const K1 := Res(3)
  const K2 := Res(4)
  const X := Res(5)
  const C1 := Res(6)
  const C2 := Res(7)
  const F: Fn := 1
  const WRITES := Entry(F, G, true)

  function Operands(v: Value): set<Value> {
    if v == L1 || v == L2 || v == X then {G} else if v == K1 then {K2} else if v == K2 then {L2} else {}
  }

  function Recorded(v: Value): set<Access> {
    if v == L1 || v == L2 then {Access(v, G, Read)} else if v == G || v == X then {Access(X, G, Write)} else {}
  }

  /** The store and the first call come before both loads, the second call before the second load. */
  predicate Important(v: Value, loads: set<Value>) {
    ((v == X || v == C1) && (L1 in loads || L2 in loads)) || (v == C2 && L2 in loads)
  }

  const RULES := Rules({L1, K1, G, K2, X, C1, C2, L2}, {F},
                       v => Operands(v), _ => {}, _ => {},
                       v => if v == X then {F} else {}, (f: Fn) => if f == F then {C1, C2} else {},
                       v => Recorded(v), v => if v == G || v == X then {WRITES} else {},
                       v => if v == G then {X} else {}, _ => {}, v => if v == X then {G} else {},
                       _ => {}, (_, p, q) => p == q,
                       v => if v == C1 || v == C2 then {WRITES} else {}, (v, loads) => Important(v, loads), _ => false)

  const GIVEN := Given({L1, K1}, {})

  lemma RulesAreOk()
    ensures RulesOk(RULES)
  {
    forall v
      ensures RuleOk(RULES, v)
    {
    }
  }

  lemma Records(seen: set<Value>)
    ensures forall q :: LoadsOf(RULES, seen, q) == if q == G then seen * {L1, L2} else {}
    ensures forall q :: q != G ==> AccessesOf(RULES, seen, q) == {}
    ensures Entries(RULES, seen) == if G in seen || X in seen then {WRITES} else {}
    ensures forall p, q :: Alias(RULES, seen, p, q) <==> p == q
  {
    forall q
      ensures LoadsOf(RULES, seen, q) == if q == G then seen * {L1, L2} else {}
    {
      forall v | v in seen && (v == L1 || v == L2)
        ensures Access(v, G, Read) in AccessesOf(RULES, seen, G)
      {
        assert Access(v, G, Read) in RULES.accesses(v);
      }
    }
    assert G in seen ==> WRITES in RULES.enters(G);
    assert X in seen ==> WRITES in RULES.enters(X);
  }

  lemma Tests(seen: set<Value>)
    ensures forall v :: OwnTest(RULES, seen, v) <==> v == X && (L1 in seen || L2 in seen)
    ensures forall v :: CallTest(RULES, seen, v) <==>
              (G in seen || X in seen) && ((v == C1 && (L1 in seen || L2 in seen)) || (v == C2 && L2 in seen))
  {
    Records(seen);
    forall v
      ensures (v == C1 || v == C2) && (G in seen || X in seen) && Important(v, seen * {L1, L2}) ==> CallTest(RULES, seen, v)
    {
      assert v == C1 || v == C2 ==> WRITES in RULES.writes(v);
    }
    assert G in RULES.through(X);
  }

  // ---------------------------------------------------------------- the first two rounds

  const F0 := Facts({L1, K1}, {L1, K1}, {}, {}, {})
  const F1 := Facts({L1, K1, G}, {L1, K1, G}, {(L1, G)}, {L1}, {})
  const F2 := Facts({L1, K1, G, K2}, {L1, K1, G, K2}, {(L1, G), (K1, K2)}, {L1, K1}, {})
  const F3 := Facts({L1, K1, G, K2, X, C1, C2}, {L1, K1, G, K2, X}, {(L1, G), (K1, K2)}, {L1, K1, G}, {F})
  const F4 := F3.(needs := {(L1, G), (K1, K2), (X, G)}, seen := {L1, K1, G, X})
  const F5 := Facts({L1, K1, G, K2, X, C1, C2, L2}, {L1, K1, G, K2, X, L2}, {(L1, G), (K1, K2), (X, G), (K2, L2)},
                    {L1, K1, G, X, K2}, {F})

  const S0 := Snapshot(F0, {})
  const S1 := Snapshot(F1, {L1})
  const S2 := Snapshot(F2, {L1, K1})
  const S3 := Snapshot(F3, {L1, K1})
  const S4 := Snapshot(F4, {L1, K1})
  const S5 := Snapshot(F5, {L1, K1, K2})

  lemma ClosedFacts0()
    ensures ClosedIncludes(RULES, F0) && ClosedIncludes(RULES, F1) && ClosedIncludes(RULES, F2)
  {
  }

  lemma ClosedFacts3()
    ensures ClosedIncludes(RULES, F3) && ClosedIncludes(RULES, F4)
  {
  }

  lemma ClosedFacts5()
    ensures ClosedIncludes(RULES, F5)
  {
    forall v | v in F5.included
      ensures IncludeRule(RULES, F5, v)
    {
      IncludedIn5(v);
    }
  }

  lemma IncludedIn5(v: Value)
    requires v in F5.included
    ensures IncludeRule(RULES, F5, v)
  {
  }

  lemma FindL1()
    ensures Found(RULES, F0, F1, L1)
  {
    Records(F1.seen);
    Tests(F1.seen);
  }

  lemma FollowL1()
    ensures VisitFollows(RULES, F0, F1, L1)
  {
    forall limit | ClosedIncludes(RULES, limit) && Le(F0, limit) && VisitRule(RULES, limit, L1) && OwnRule(RULES, limit, L1) &&
                   CallRule(RULES, limit, L1)
      ensures Le(F1, limit)
    {
      assert IncludeRule(RULES, limit, L1);
    }
  }

  lemma RevisitL1()
    ensures forall w :: w in S1.visited ==> !Must(RULES, F0, F1, w)
    ensures forall w :: w in S0.visited + {L1} && w !in S1.visited ==>
              Again(RULES, F0, F1, w) || (w == L1 && OwnTest(RULES, F1.seen, w))
  {
    Records(F0.seen);
    Records(F1.seen);
    Tests(F1.seen);
  }

  lemma VisitL1()
    ensures Visits(Strict, RULES, S0, [L1], S1)
  {
    FindL1();
    FollowL1();
    RevisitL1();
    ClosedFacts0();
    OneStep(Strict, RULES, S0, L1, S1);
  }

  lemma FindK1()
    ensures Found(RULES, F1, F2, K1)
  {
    Records(F2.seen);
    Tests(F2.seen);
  }

  lemma FollowK1()
    ensures VisitFollows(RULES, F1, F2, K1)
  {
    forall limit | ClosedIncludes(RULES, limit) && Le(F1, limit) && VisitRule(RULES, limit, K1) && OwnRule(RULES, limit, K1) &&
                   CallRule(RULES, limit, K1)
      ensures Le(F2, limit)
    {
      assert IncludeRule(RULES, limit, K1);
    }
  }

  lemma RevisitK1()
    ensures forall w :: w in S2.visited ==> !Must(RULES, F1, F2, w)
    ensures forall w :: w in S1.visited + {K1} && w !in S2.visited ==>
              Again(RULES, F1, F2, w) || (w == K1 && OwnTest(RULES, F2.seen, w))
  {
    Records(F1.seen);
    Records(F2.seen);
    Tests(F2.seen);
  }

  lemma VisitK1()
    ensures Visits(Strict, RULES, S1, [K1], S2)
  {
    FindK1();
    FollowK1();
    RevisitK1();
    ClosedFacts0();
    OneStep(Strict, RULES, S1, K1, S2);
  }

  lemma FindG()
    ensures Found(RULES, F2, F3, G)
  {
    Records(F3.seen);
    Tests(F3.seen);
  }

  lemma FollowG()
    ensures VisitFollows(RULES, F2, F3, G)
  {
    forall limit | ClosedIncludes(RULES, limit) && Le(F2, limit) && VisitRule(RULES, limit, G) && OwnRule(RULES, limit, G) &&
                   CallRule(RULES, limit, G)
      ensures Le(F3, limit)
    {
      Records(limit.seen);
      assert X in RULES.stores(G) && RULES.important(X, LoadsOf(RULES, limit.seen, G));
      assert IncludeRule(RULES, limit, X) && FunctionRule(RULES, limit, F);
    }
  }

  lemma RevisitG()
    ensures forall w :: w in S3.visited ==> !Must(RULES, F2, F3, w)
    ensures Again(RULES, F2, F3, G)
  {
    StoreIsNew();
    NoneMust(L1);
    NoneMust(K1);
  }

  lemma NoneMust(w: Value)
    requires w == L1 || w == K1
    ensures !Must(RULES, F2, F3, w)
  {
    Records(F2.seen);
    Records(F3.seen);
  }

  lemma StoreIsNew()
    ensures AccessesOf(RULES, F2.seen, G) != AccessesOf(RULES, F3.seen, G)
  {
    var store := Access(X, G, Write);
    assert store in RULES.accesses(G) && store in AccessesOf(RULES, F3.seen, G);
    assert store !in Accesses(RULES, F2.seen);
  }

  lemma VisitG()
    ensures Visits(Strict, RULES, S2, [G], S3)
  {
    FindG();
    FollowG();
    RevisitG();
    ClosedFacts3();
    OneStep(Strict, RULES, S2, G, S3);
  }

  lemma FindX()
    ensures Found(RULES, F3, F4, X)
  {
    Records(F4.seen);
    Tests(F4.seen);
  }

  lemma FollowX()
    ensures VisitFollows(RULES, F3, F4, X)
  {
    forall limit | ClosedIncludes(RULES, limit) && Le(F3, limit) && VisitRule(RULES, limit, X) && OwnRule(RULES, limit, X) &&
                   CallRule(RULES, limit, X)
      ensures Le(F4, limit)
    {
    }
  }

  lemma RevisitX()
    ensures forall w :: w in S4.visited ==> !Must(RULES, F3, F4, w)
    ensures forall w :: w in S3.visited + {X} && w !in S4.visited ==>
              Again(RULES, F3, F4, w) || (w == X && OwnTest(RULES, F4.seen, w))
  {
    Records(F3.seen);
    Records(F4.seen);
    Tests(F4.seen);
  }

  lemma VisitX()
    ensures Visits(Strict, RULES, S3, [X], S4)
  {
    FindX();
    FollowX();
    RevisitX();
    ClosedFacts3();
    OneStep(Strict, RULES, S3, X, S4);
  }

  lemma FindK2()
    ensures Found(RULES, F4, F5, K2)
  {
    Records(F5.seen);
    Tests(F5.seen);
  }

  lemma FollowK2()
    ensures VisitFollows(RULES, F4, F5, K2)
  {
    forall limit | ClosedIncludes(RULES, limit) && Le(F4, limit) && VisitRule(RULES, limit, K2) && OwnRule(RULES, limit, K2) &&
                   CallRule(RULES, limit, K2)
      ensures Le(F5, limit)
    {
      assert IncludeRule(RULES, limit, K2);
    }
  }

  lemma RevisitK2()
    ensures forall w :: w in S5.visited ==> !Must(RULES, F4, F5, w)
    ensures forall w :: w in S4.visited + {K2} && w !in S5.visited ==>
              Again(RULES, F4, F5, w) || (w == K2 && OwnTest(RULES, F5.seen, w))
  {
    Records(F4.seen);
    Records(F5.seen);
    Tests(F5.seen);
  }

  lemma VisitK2()
    ensures Visits(Strict, RULES, S4, [K2], S5)
  {
    FindK2();
    FollowK2();
    RevisitK2();
    ClosedFacts5();
    OneStep(Strict, RULES, S4, K2, S5);
  }

  lemma TheStart()
    ensures IsStart(RULES, GIVEN, S0)
  {
    RulesAreOk();
    ClosedFacts0();
    assert ClosedBy(RULES, {}, {}, F0);
    LeastIsBelow(RULES, GIVEN, {}, {}, F0);
    LeastIsClosed(RULES, GIVEN, {}, {});
    var least := Least(RULES, GIVEN, {}, {});
    assert IncludeRule(RULES, least, L1) && IncludeRule(RULES, least, K1);
    LeBoth(F0, least);
  }

  lemma FirstRounds()
    ensures Round(Strict, RULES, S0, [L1, K1], S2) && Round(Strict, RULES, S2, [G, X, K2], S5)
  {
    VisitL1();
    VisitK1();
    VisitsConcat(Strict, RULES, S0, [L1], S1, [K1], S2);
    assert [L1] + [K1] == [L1, K1];
    VisitG();
    VisitX();
    VisitK2();
    VisitsConcat(Strict, RULES, S2, [G], S3, [X], S4);
    VisitsConcat(Strict, RULES, S2, [G] + [X], S4, [K2], S5);
    assert [G] + [X] + [K2] == [G, X, K2];
    assert G in [G, X, K2] && X in RULES.stores(G);
  }

  // ---------------------------------------------------------------- the third round

  /** All that can be found when the second call is not included by its test. */
  const REST := Facts(RULES.all, RULES.all - {C2}, {(L1, G), (K1, K2), (X, G), (K2, L2), (L2, G)}, RULES.all, {F})

  lemma RestIsClosed()
    ensures ClosedBy(RULES, RULES.all, RULES.all - {C2}, REST) && Le(GIVEN, REST)
  {
    RestIncludes();
    RestTests();
    AllClosed(RULES, REST, C2);
  }

  lemma AllClosed(r: Rules, s: Facts, c: Value)
    requires r == RULES && s == REST && ClosedIncludes(r, s)
    requires forall v :: OwnRule(r, s, v) && (v != c ==> CallRule(r, s, v))
    ensures ClosedBy(r, r.all, r.all - {c}, s)
  {
    RestVisits();
  }

  lemma RestTests()
    ensures forall v :: OwnRule(RULES, REST, v) && (v != C2 ==> CallRule(RULES, REST, v))
  {
    Tests(REST.seen);
  }

  lemma RestIncludes()
    ensures ClosedIncludes(RULES, REST)
  {
    forall v | v in REST.included
      ensures IncludeRule(RULES, REST, v)
    {
    }
  }

  lemma RestVisits()
    ensures forall v :: v in REST.tainted ==> VisitRule(RULES, REST, v)
  {
    forall v | v in REST.tainted
      ensures VisitRule(RULES, REST, v)
    {
      RestVisit(v);
    }
  }

  lemma RestVisit(v: Value)
    requires v in REST.tainted
    ensures VisitRule(RULES, REST, v)
  {
    Demands(v);
    RestNeeds(v);
  }

  lemma RestNeeds(v: Value)
    ensures NeedsAll(REST, v, Operands(v))
  {
  }

  /** What there is to show of a visited value. */
  lemma Demands(v: Value)
    ensures RULES.operands(v) == Operands(v) && RULES.rets(v) == {} && !RULES.always(v) && RULES.traces(v) == {}
    ensures RULES.unites(v) == {} && RULES.stores(v) == if v == G then {X} else {}
  {
  }

  lemma KeptL1()
    ensures VisitRule(RULES, F5, L1)
  {
    Demands(L1);
  }

  lemma KeptK1()
    ensures VisitRule(RULES, F5, K1)
  {
    Demands(K1);
  }

  lemma KeptK2()
    ensures VisitRule(RULES, F5, K2)
  {
    Demands(K2);
  }

  lemma WhatIsVisited()
    ensures ExactlyKept(RULES, S5)
  {
    KeptL1();
    KeptK1();
    KeptK2();
    ClosedFacts5();
  }

  /** Before the third round the second call has been found, and all reasons to visit it again. */
  lemma NoReason()
    ensures Le(F5, Without(RULES, GIVEN, C2)) && C2 !in Without(RULES, GIVEN, C2).included
    ensures !Again(RULES, F5, Without(RULES, GIVEN, C2), C2)
  {
    RulesAreOk();
    FoundSoFar();
    WithoutIsRest();
    NothingNew();
    AgainChain(RULES, F5, Without(RULES, GIVEN, C2), REST, C2);
  }

  lemma FoundSoFar()
    ensures Le(F5, Without(RULES, GIVEN, C2))
  {
    RulesAreOk();
    TheStart();
    FirstRounds();
    FoundInRounds(RULES, GIVEN, S0, [L1, K1], S2, [G, X, K2], S5, C2);
  }

  lemma FoundInRounds(r: Rules, g: Facts, a: Snapshot, first: seq<Value>, s: Snapshot, second: seq<Value>, b: Snapshot,
                      c: Value)
    requires RulesOk(r) && IsStart(r, g, a) && Round(Strict, r, a, first, s) && Round(Strict, r, s, second, b)
    requires c !in first && c !in second
    ensures Le(b.facts, Without(r, g, c))
  {
    VisitsConcat(Strict, r, a, first, s, second, b);
    FoundWithout(Strict, r, g, a, first + second, b, c);
  }

  lemma WithoutIsRest()
    ensures Le(Without(RULES, GIVEN, C2), REST)
  {
    RestIsClosed();
    LeastIsBelow(RULES, GIVEN, RULES.all, RULES.all - {C2}, REST);
  }

  lemma NothingNew()
    ensures !Again(RULES, F5, REST, C2)
  {
    Records(F5.seen);
    Records(REST.seen);
  }

  lemma IsTooEarly()
    ensures IsDueTooEarly(RULES, GIVEN, S5, C2)
  {
    NoReason();
    TestDecides();
  }

  lemma TestDecides()
    ensures !CallTest(RULES, F5.seen + {C2}, C2) && CallTest(RULES, F5.seen + (F5.tainted - S5.visited), C2)
  {
    Tests(F5.seen + {C2});
    Tests(F5.seen + (F5.tainted - S5.visited));
    assert L2 in F5.tainted - S5.visited;
  }

  /** Two runs of the worklist that differ from the third round on: in one the second call is left out,
      although it passes the test with the loads that are known at the end; in the other it is included. */
  lemma OrderMatters() returns (late: seq<seq<Value>>, b: Snapshot, early: seq<seq<Value>>, b': Snapshot)
    ensures RulesOk(RULES) && IsStart(RULES, GIVEN, S0)
    ensures Rounds(Strict, RULES, S0, late, b) && Rounds(Strict, RULES, S0, early, b')
    ensures C2 !in b.facts.included && CallTest(RULES, b.facts.seen, C2) && C2 in b'.facts.included
  {
    RulesAreOk();
    TheStart();
    FirstRounds();
    WhatIsVisited();
    IsTooEarly();
    var first, second;
    first, b, second, b' := RoundDecides(RULES, GIVEN, S5, C2);
    late := FromTheStart(first, b);
    early := FromTheStart(second, b');
  }

  lemma FromTheStart(orders: seq<seq<Value>>, b: Snapshot) returns (all: seq<seq<Value>>)
    requires Rounds(Exact, RULES, S5, orders, b)
    ensures Rounds(Strict, RULES, S0, all, b)
  {
    FirstRounds();
    RoundsWeaker(RULES, S5, orders, b);
    RoundsCons(Strict, RULES, S2, [G, X, K2], S5, orders, b);
    RoundsCons(Strict, RULES, S0, [L1, K1], S2, [[G, X, K2]] + orders, b);
    all := [[L1, K1]] + ([[G, X, K2]] + orders);
  }
}
