/**
The taint analysis: a worklist over values.  Visiting a value taints what it needs; including one
includes what it needs and the branches that lead to it.  Pointers that may alias come to share an info,
whose loads decide which stores are included.  Flags and edges are updated in place, and a value is
visited again whenever there is a reason.
*/
module TaintAnalysis {
  import opened Program
  import opened TaintRules
  import opened VisitOrder

  // ---------------------------------------------------------------- the state during the analysis

  ghost predicate Sane(r: Rules, s: Facts, visited: set<Value>) {
    && s.tainted <= r.all && s.included <= s.tainted && s.seen <= s.tainted && s.functions <= r.fns && visited <= s.tainted
    && forall u, w :: (u, w) in s.needs ==> u in s.tainted && w in s.tainted
  }

  /** The rules hold for everything that has been included, except for `open`, for the functions, and
      for everything that has been visited, except for `current`. */
  ghost predicate Kept(r: Rules, s: Facts, visited: set<Value>, open: set<Value>, current: set<Value>) {
    && Sane(r, s, visited)
    && (forall v {:trigger IncludeRule(r, s, v)} :: v in s.included && v !in open ==> IncludeRule(r, s, v))
    && (forall f {:trigger FunctionRule(r, s, f)} :: f in s.functions ==> FunctionRule(r, s, f))
    && (forall v {:trigger VisitRule(r, s, v)} :: v in visited && v !in current ==> VisitRule(r, s, v))
  }

  /** All facts above s that include v and are closed under inclusion are above t. */
  ghost predicate IncludeFollows(r: Rules, s: Facts, t: Facts, v: Value) {
    forall limit {:trigger ClosedIncludes(r, limit)} :: ClosedIncludes(r, limit) && Le(s, limit) && v in limit.included ==>
      Le(t, limit)
  }

  ghost predicate RuleFollows(r: Rules, s: Facts, t: Facts, v: Value) {
    forall limit {:trigger VisitRule(r, limit, v)} ::
      ClosedIncludes(r, limit) && Le(s, limit) && VisitRule(r, limit, v) ==> Le(t, limit)
  }

  lemma RevisitsChain(r: Rules, s: Facts, visited: set<Value>, t: Facts, visited': set<Value>, u: Facts, visited'': set<Value>)
    requires RulesOk(r) && Le(s, t) && Le(t, u)
    requires Revisits(r, s, visited, t, visited') && Revisits(r, t, visited', u, visited'')
    ensures Revisits(r, s, visited, u, visited'')
  {
    forall v
      ensures v in visited'' <==> v in visited && !Again(r, s, u, v)
    {
      AgainChain(r, s, t, u, v);
    }
  }

  /** More facts, but the same edges and the same loads of the class: the rules for a visit stay satisfied. */
  lemma VisitStays(r: Rules, s: Facts, t: Facts, v: Value)
    requires Le(s, t) && s.needs == t.needs && LoadsOf(r, s.seen, v) == LoadsOf(r, t.seen, v) && VisitRule(r, s, v)
    ensures VisitRule(r, t, v)
  {
  }

  lemma IncludeStays(r: Rules, s: Facts, t: Facts, v: Value)
    requires Le(s, t) && s.needs == t.needs && IncludeRule(r, s, v)
    ensures IncludeRule(r, t, v)
  {
  }

  lemma KeptStays(r: Rules, s: Facts, visited: set<Value>, t: Facts, visited': set<Value>,
                  open: set<Value>, open': set<Value>, current: set<Value>)
    requires Kept(r, s, visited, open, current) && Sane(r, t, visited') && Le(s, t) && s.needs == t.needs
    requires s.seen == t.seen
    requires visited' <= visited && open <= open' && t.included <= s.included + open'
    requires forall f :: f in t.functions && f !in s.functions ==> FunctionRule(r, t, f)
    ensures Kept(r, t, visited', open', current)
  {
    forall v | v in t.included && v !in open'
      ensures IncludeRule(r, t, v)
    {
      IncludeStays(r, s, t, v);
    }
    forall v | v in visited' && v !in current
      ensures VisitRule(r, t, v)
    {
      VisitStays(r, s, t, v);
    }
    forall f | f in t.functions && f in s.functions
      ensures FunctionRule(r, t, f)
    {
      assert FunctionRule(r, s, f);
    }
  }

  class PrecalculationAnalysis {
    const r: Rules
    var tainted: set<Value>
    var visited: set<Value>
    var included: set<Value>
    var needs: set<(Value, Value)>
    var seen: set<Value>
    var functions: set<Fn>

    constructor (r: Rules)
      ensures this.r == r && Now() == NO_FACTS && visited == {}
    {
      this.r, tainted, visited, included, needs, seen, functions := r, {}, {}, {}, {}, {}, {};
    }

    function Now(): Facts
      reads this
    {
      Facts(tainted, included, needs, seen, functions)
    }

    ghost function Snap(): Snapshot
      reads this
    {
      Snapshot(Now(), visited)
    }

    /** The calls of an included function are tainted and visited again. */
    method InsertFunctionToInclude(f: Fn, ghost open: set<Value>, ghost current: set<Value>)
      requires RulesOk(r) && f in r.fns && Kept(r, Now(), visited, open, current)
      modifies this
      ensures Kept(r, Now(), visited, open, current) && Le(old(Now()), Now()) && f in functions
      ensures needs == old(needs) && seen == old(seen) && included == old(included)
      ensures Revisits(r, old(Now()), old(visited), Now(), visited)
      ensures forall limit :: ClosedIncludes(r, limit) && Le(old(Now()), limit) && f in limit.functions ==> Le(Now(), limit)
    {
      if f !in functions {
        functions := functions + {f};
        tainted := tainted + r.callSites(f);
        visited := visited - r.callSites(f);
        KeptStays(r, old(Now()), old(visited), Now(), visited, open, open, current);
        forall limit | ClosedIncludes(r, limit) && Le(old(Now()), limit) && f in limit.functions
          ensures Le(Now(), limit)
        {
          assert FunctionRule(r, limit, f);
        }
      }
    }

    method IncludeValueInPrecompute(v: Value, ghost open: set<Value>, ghost current: set<Value>)
      requires RulesOk(r) && v in tainted && Kept(r, Now(), visited, open, current)
      modifies this
      ensures Kept(r, Now(), visited, open, current) && Le(old(Now()), Now()) && v in included
      ensures needs == old(needs) && seen == old(seen)
      ensures Revisits(r, old(Now()), old(visited), Now(), visited)
      ensures IncludeFollows(r, old(Now()), Now(), v)
      decreases r.all - included, 2
    {
      if v in included {
        return;
      }
      included := included + {v};
      visited := visited - {v};
      ghost var s, was := Now(), visited;
      KeptStays(r, old(Now()), old(visited), s, visited, open, open + {v}, current);
      InsertNecessaryControlFlow(v, open + {v}, current);
      ghost var t, mid := Now(), visited;
      IncludeNeeds(v, open + {v}, current);
      assert IncludeRule(r, Now(), v);
      RevisitsChain(r, s, was, t, mid, Now(), visited);
      RevisitsChain(r, old(Now()), old(visited), s, was, Now(), visited);
      forall limit | ClosedIncludes(r, limit) && Le(old(Now()), limit) && v in limit.included
        ensures Le(Now(), limit)
      {
        assert Le(s, limit) && Le(t, limit);
      }
    }

    /** The terminators of the predecessors, or the function if the value is in its entry block. */
    method InsertNecessaryControlFlow(v: Value, ghost open: set<Value>, ghost current: set<Value>)
      requires RulesOk(r) && v in included && v in open && Kept(r, Now(), visited, open, current)
      modifies this
      ensures Kept(r, Now(), visited, open, current) && Le(old(Now()), Now())
      ensures needs == old(needs) && seen == old(seen)
      ensures Revisits(r, old(Now()), old(visited), Now(), visited)
      ensures r.control(v) <= included && r.entryOf(v) <= functions
      ensures IncludeFollows(r, old(Now()), Now(), v)
      decreases r.all - included, 4
    {
      assert RuleOk(r, v);
      ghost var s, first := Now(), visited;
      var todo := r.control(v);
      while todo != {}
        invariant todo <= r.control(v) && Kept(r, Now(), visited, open, current) && Le(s, Now())
        invariant needs == old(needs) && seen == old(seen)
        invariant Revisits(r, s, first, Now(), visited)
        invariant r.control(v) - todo <= included && IncludeFollows(r, s, Now(), v)
        decreases todo
      {
        var term :| term in todo;
        ghost var t, was := Now(), visited;
        tainted := tainted + {term};
        KeptStays(r, t, was, Now(), visited, open, open, current);
        ghost var t1 := Now();
        IncludeValueInPrecompute(term, open, current);
        FollowsControl(r, s, t, t1, Now(), v, term);
        RevisitsChain(r, s, first, t, was, t1, was);
        RevisitsChain(r, s, first, t1, was, Now(), visited);
        todo := todo - {term};
      }
      var entries := r.entryOf(v);
      while entries != {}
        invariant entries <= r.entryOf(v) && Kept(r, Now(), visited, open, current) && Le(s, Now())
        invariant needs == old(needs) && seen == old(seen)
        invariant Revisits(r, s, first, Now(), visited)
        invariant r.control(v) <= included && r.entryOf(v) - entries <= functions && IncludeFollows(r, s, Now(), v)
        decreases entries
      {
        var f :| f in entries;
        ghost var t, was := Now(), visited;
        InsertFunctionToInclude(f, open, current);
        RevisitsChain(r, s, first, t, was, Now(), visited);
        forall limit | ClosedIncludes(r, limit) && Le(s, limit) && v in limit.included
          ensures Le(Now(), limit)
        {
          assert Le(t, limit) && IncludeRule(r, limit, v);
        }
        entries := entries - {f};
      }
    }

    method IncludeNeeds(v: Value, ghost open: set<Value>, ghost current: set<Value>)
      requires RulesOk(r) && v in included && v in open && Kept(r, Now(), visited, open, current)
      modifies this
      ensures Kept(r, Now(), visited, open, current) && Le(old(Now()), Now())
      ensures needs == old(needs) && seen == old(seen)
      ensures Revisits(r, old(Now()), old(visited), Now(), visited)
      ensures forall w :: (v, w) in needs ==> w in included
      ensures IncludeFollows(r, old(Now()), Now(), v)
      decreases r.all - included, 3
    {
      ghost var s, first := Now(), visited;
      var todo := set e | e in needs && e.0 == v :: e.1;
      while todo != {}
        invariant Kept(r, Now(), visited, open, current) && Le(s, Now())
        invariant needs == old(needs) && seen == old(seen)
        invariant Revisits(r, s, first, Now(), visited)
        invariant forall w :: w in todo ==> (v, w) in needs
        invariant forall w :: (v, w) in needs ==> w in included || w in todo
        invariant IncludeFollows(r, s, Now(), v)
        decreases todo
      {
        var w :| w in todo;
        ghost var t, was := Now(), visited;
        IncludeValueInPrecompute(w, open, current);
        RevisitsChain(r, s, first, t, was, Now(), visited);
        forall limit | ClosedIncludes(r, limit) && Le(s, limit) && v in limit.included
          ensures Le(Now(), limit)
        {
          assert Le(t, limit) && IncludeRule(r, limit, v);
          assert (v, w) in limit.needs;
        }
        todo := todo - {w};
      }
    }

    /** Value v is needed by `from`: it is visited again when this is new, and included if `from` is. */
    method InsertTaintedValue(v: Value, from: Value, ghost current: set<Value>)
      requires RulesOk(r) && v in r.all && from in tainted && Kept(r, Now(), visited, {}, current)
      modifies this
      ensures Kept(r, Now(), visited, {}, current) && Le(old(Now()), Now()) && v in tainted
      ensures needs == old(needs) + {(from, v)} && seen == old(seen)
      ensures Revisits(r, old(Now()), old(visited), Now(), visited)
      ensures forall limit :: (ClosedIncludes(r, limit) && Le(old(Now()), limit) && (from, v) in limit.needs && v in limit.tainted)
                              ==> Le(Now(), limit)
    {
      ghost var s, first := Now(), visited;
      if (from, v) !in needs {
        visited := visited - {v};
      }
      tainted := tainted + {v};
      needs := needs + {(from, v)};
      ghost var t, was := Now(), visited;
      EdgeKept(r, s, first, t, was, from, v, current);
      if from in included {
        IncludeValueInPrecompute(v, {from}, current);
        RevisitsChain(r, s, first, t, was, Now(), visited);
        assert IncludeRule(r, s, from);
        assert IncludeRule(r, Now(), from);
      }
      forall limit | ClosedIncludes(r, limit) && Le(s, limit) && (from, v) in limit.needs && v in limit.tainted
        ensures Le(Now(), limit)
      {
        assert Le(t, limit);
        assert from in included ==> IncludeRule(r, limit, from);
      }
    }

    /** What a visit records: accesses with the infos, which are merged, and pointers with the functions
        that write or read them.  Pointers whose info changes are visited again, and so are the calls of
        functions that have recorded something new, and what a pointer is followed to. */
    method VisitPointers(v: Value)
      requires RulesOk(r) && v in tainted && Kept(r, Now(), visited, {}, {v})
      modifies this
      ensures Kept(r, Now(), visited, {}, {v}) && Le(old(Now()), Now()) && TraceRule(r, Now(), v)
      ensures seen == old(seen) + {v}
      ensures needs == old(needs) && included == old(included) && functions == old(functions)
      ensures Revisits(r, old(Now()), old(visited), Now(), visited)
      ensures RuleFollows(r, old(Now()), Now(), v)
    {
      var s := Now();
      seen := seen + {v};
      tainted := tainted + Ends(r.unites(v)) + r.stores(v) + r.traces(v);
      visited := set q | q in visited && !ChangedBy(r, s.seen, seen, v, q);
      PointersKept(r, s, old(visited), Now(), visited, v);
      PointersFollow(r, s, old(visited), Now(), visited, v);
    }

    method InsertAll(v: Value, ws: set<Value>)
      requires RulesOk(r) && v in tainted && ws <= r.all && Kept(r, Now(), visited, {}, {v})
      modifies this
      ensures Kept(r, Now(), visited, {}, {v}) && Le(old(Now()), Now())
      ensures seen == old(seen) && NeedsAll(Now(), v, ws)
      ensures Revisits(r, old(Now()), old(visited), Now(), visited)
      ensures forall limit :: ClosedIncludes(r, limit) && Le(old(Now()), limit) && NeedsAll(limit, v, ws) ==> Le(Now(), limit)
    {
      ghost var s, first := Now(), visited;
      var todo := ws;
      while todo != {}
        invariant todo <= ws && Kept(r, Now(), visited, {}, {v}) && Le(s, Now())
        invariant seen == old(seen) && NeedsAll(Now(), v, ws - todo)
        invariant Revisits(r, s, first, Now(), visited)
        invariant forall limit {:trigger ClosedIncludes(r, limit)} ::
                    ClosedIncludes(r, limit) && Le(s, limit) && NeedsAll(limit, v, ws) ==> Le(Now(), limit)
        decreases todo
      {
        var w :| w in todo;
        ghost var t, was := Now(), visited;
        InsertTaintedValue(w, v, {v});
        RevisitsChain(r, s, first, t, was, Now(), visited);
        forall limit | ClosedIncludes(r, limit) && Le(s, limit) && NeedsAll(limit, v, ws)
          ensures Le(Now(), limit)
        {
          assert Le(t, limit);
        }
        todo := todo - {w};
      }
    }

    /** Taints what the value needs; the returns of a call only if its result is needed. */
    method VisitOperands(v: Value)
      requires RulesOk(r) && v in tainted && Kept(r, Now(), visited, {}, {v})
      modifies this
      ensures Kept(r, Now(), visited, {}, {v}) && Le(old(Now()), Now())
      ensures seen == old(seen) && NeedsAll(Now(), v, r.operands(v))
      ensures IsNeeded(old(Now()), v) ==> NeedsAll(Now(), v, r.rets(v))
      ensures Revisits(r, old(Now()), old(visited), Now(), visited)
      ensures RuleFollows(r, old(Now()), Now(), v)
    {
      ghost var s, first := Now(), visited;
      assert RuleOk(r, v);
      InsertAll(v, r.operands(v));
      ghost var t, was := Now(), visited;
      var isNeeded := exists e :: e in needs && e.1 == v;
      NeededEdge(t, v);
      if isNeeded {
        InsertAll(v, r.rets(v));
        RevisitsChain(r, s, first, t, was, Now(), visited);
        forall limit | ClosedIncludes(r, limit) && Le(s, limit) && VisitRule(r, limit, v)
          ensures Le(Now(), limit)
        {
          assert Le(t, limit);
          NeededAbove(t, limit, v);
        }
      }
    }

    /** The stores through a visited pointer are tested against the loads of its class. */
    method VisitStores(v: Value)
      requires RulesOk(r) && v in tainted && v in seen && TraceRule(r, Now(), v) && Kept(r, Now(), visited, {}, {v})
      modifies this
      ensures Kept(r, Now(), visited, {}, {v}) && Le(old(Now()), Now()) && StoreRule(r, Now(), v)
      ensures needs == old(needs) && seen == old(seen)
      ensures Revisits(r, old(Now()), old(visited), Now(), visited)
      ensures RuleFollows(r, old(Now()), Now(), v)
    {
      ghost var s, first := Now(), visited;
      var loads := LoadsOf(r, seen, v);
      var todo := set u | u in r.stores(v) && r.important(u, loads);
      ghost var stores := todo;
      while todo != {}
        invariant todo <= stores && Kept(r, Now(), visited, {}, {v}) && Le(s, Now()) && stores - todo <= included
        invariant needs == old(needs) && seen == old(seen)
        invariant Revisits(r, s, first, Now(), visited)
        invariant forall limit {:trigger ClosedIncludes(r, limit)} ::
                    ClosedIncludes(r, limit) && Le(s, limit) && stores <= limit.included ==> Le(Now(), limit)
        decreases todo
      {
        var u :| u in todo;
        ghost var t, was := Now(), visited;
        IncludeValueInPrecompute(u, {}, {v});
        RevisitsChain(r, s, first, t, was, Now(), visited);
        forall limit | ClosedIncludes(r, limit) && Le(s, limit) && stores <= limit.included
          ensures Le(Now(), limit)
        {
          assert Le(t, limit);
        }
        todo := todo - {u};
      }
      forall limit | ClosedIncludes(r, limit) && Le(s, limit) && VisitRule(r, limit, v)
        ensures stores <= limit.included
      {
        LoadsGrow(r, s.seen, limit.seen, v);
      }
    }

    /** A visit of a value.  Afterwards its rules hold, unless it has to be visited again; a store or a call
        is tested with what is known now. */
    method VisitVal(v: Value)
      requires RulesOk(r) && v in tainted && v !in visited && Kept(r, Now(), visited, {}, {})
      modifies this
      ensures Kept(r, Now(), visited, {}, {}) && ExactStep(r, old(Snap()), v, Snap())
      ensures visited <= old(visited) + {v}
    {
      ghost var s, first := Now(), visited + {v};
      visited := visited + {v};
      assert Kept(r, s, visited, {}, {v});
      VisitPointers(v);
      ghost var t, was := Now(), visited;
      VisitOperands(v);
      ghost var u, mid := Now(), visited;
      RevisitsChain(r, s, first, t, was, u, mid);
      VisitStores(v);
      ghost var w, late := Now(), visited;
      RevisitsChain(r, s, first, u, mid, w, late);
      if r.always(v) || OwnTest(r, seen, v) || CallTest(r, seen, v) {
        IncludeValueInPrecompute(v, {}, {v});
        RevisitsChain(r, s, first, w, late, Now(), visited);
      }
      FoundAfterVisit(r, s, t, u, w, Now(), v);
      VisitIsKept(r, s, first, Now(), visited, v);
      FollowsAfterVisit(r, s, t, u, w, Now(), v);
      ExactAfterVisit(r, old(Snap()), v, Snap());
    }

    method VisitNext(v: Value, ghost a: Snapshot, ghost order: seq<Value>)
      requires RulesOk(r) && v in tainted && v !in visited && Kept(r, Now(), visited, {}, {})
      requires Visits(Exact, r, a, order, Snap())
      modifies this
      ensures Kept(r, Now(), visited, {}, {}) && Visits(Exact, r, a, order + [v], Snap())
      ensures old(tainted) <= tainted && visited <= old(visited) + {v} && r.stores(v) <= tainted
    {
      VisitVal(v);
      OneStep(Exact, r, old(Snap()), v, Snap());
      VisitsConcat(Exact, r, a, order, old(Snap()), [v], Snap());
    }

    /** A value and, if it is a pointer, the stores through it. */
    method VisitWithStores(v: Value, ghost a: Snapshot, ghost before: seq<Value>) returns (ghost order: seq<Value>)
      requires RulesOk(r) && v in tainted && v !in visited && Kept(r, Now(), visited, {}, {})
      requires Visits(Exact, r, a, before, Snap())
      modifies this
      ensures Kept(r, Now(), visited, {}, {}) && Visits(Exact, r, a, before + order, Snap())
      ensures old(tainted) <= tainted && visited <= old(visited) + Elements(order)
      ensures v in order && forall u :: u in order ==> u == v || u in r.stores(v)
    {
      VisitNext(v, a, before);
      order := [v];
      var todo := r.stores(v);
      while todo != {}
        invariant todo <= r.stores(v) <= tainted && old(tainted) <= tainted
        invariant Kept(r, Now(), visited, {}, {}) && Visits(Exact, r, a, before + order, Snap())
        invariant visited <= old(visited) + Elements(order)
        invariant v in order && forall u :: u in order ==> u == v || u in r.stores(v)
        decreases todo
      {
        var u :| u in todo;
        if u !in visited {
          VisitNext(u, a, before + order);
          assert before + (order + [u]) == before + order + [u];
          order := order + [u];
        }
        todo := todo - {u};
      }
    }

    method VisitRound(toVisit: set<Value>) returns (ghost order: seq<Value>)
      requires RulesOk(r) && Kept(r, Now(), visited, {}, {}) && toVisit == tainted - visited
      modifies this
      ensures Kept(r, Now(), visited, {}, {}) && Round(Exact, r, old(Snap()), order, Snap())
    {
      var todo := toVisit;
      order := [];
      NoVisits(Exact, r, Snap());
      while todo != {}
        invariant todo <= toVisit <= tainted && visited <= old(visited) + Elements(order)
        invariant forall v :: v in toVisit ==> v in todo || v in order
        invariant forall v :: v in order ==> v in toVisit || exists q :: q in order && v in r.stores(q)
        invariant Kept(r, Now(), visited, {}, {}) && Visits(Exact, r, old(Snap()), order, Snap())
        decreases todo
      {
        var v :| v in todo;
        if v !in visited {
          ghost var more := VisitWithStores(v, old(Snap()), order);
          OrderGrows(r, toVisit, order, v, more);
          order := order + more;
        }
        todo := todo - {v};
      }
    }

    /** The worklist.  In whatever order the values of a round are visited, it ends. */
    method FindAllTaintedVals() returns (ghost orders: seq<seq<Value>>)
      requires RulesOk(r) && Kept(r, Now(), visited, {}, {})
      modifies this
      ensures Kept(r, Now(), visited, {}, {}) && Rounds(Exact, r, old(Snap()), orders, Snap())
    {
      var toVisit := tainted - visited;
      orders := [];
      NoRounds(Exact, r, Snap());
      while toVisit != {}
        invariant Kept(r, Now(), visited, {}, {}) && toVisit == tainted - visited
        invariant RoundsSoFar(Exact, r, old(Snap()), orders, Snap())
        decreases Unknown(r, Now()), toVisit
      {
        ghost var a := Snap();
        ghost var order := VisitRound(toVisit);
        RoundProgress(r, a, order, Snap());
        SaneInUniverse(r, Now(), visited);
        UnknownShrinks(r, a.facts, Now());
        RoundsSnoc(Exact, r, old(Snap()), orders, a, order, Snap());
        orders := orders + [order];
        toVisit := tainted - visited;
      }
      assert forall v :: v in tainted && v !in visited ==> v in toVisit;
    }

    /** The whole analysis: the given values are included, the given functions have all their calls
        included, and then the worklist runs. */
    method Analyze(toPrecompute: set<Value>, everywhere: set<Fn>)
      returns (ghost start: Snapshot, ghost orders: seq<seq<Value>>)
      requires RulesOk(r) && toPrecompute <= r.all && everywhere <= r.fns && Now() == NO_FACTS && visited == {}
      modifies this
      ensures IsStart(r, Given(toPrecompute, everywhere), start) && Rounds(Exact, r, start, orders, Snap())
    {
      var todo := toPrecompute;
      while todo != {}
        invariant todo <= toPrecompute && Kept(r, Now(), visited, {}, {}) && toPrecompute - todo <= included
        invariant visited == {} && needs == {} && seen == {}
        invariant forall limit {:trigger ClosedIncludes(r, limit)} :: ClosedIncludes(r, limit) && toPrecompute <= limit.included ==>
                    Le(Now(), limit)
        decreases todo
      {
        var v :| v in todo;
        ghost var s, was := Now(), visited;
        tainted := tainted + {v};
        KeptStays(r, s, was, Now(), visited, {}, {}, {});
        ghost var t := Now();
        IncludeValueInPrecompute(v, {}, {});
        forall limit | ClosedIncludes(r, limit) && toPrecompute <= limit.included
          ensures Le(Now(), limit)
        {
          assert Le(s, limit) && IncludeRule(r, limit, v);
          assert Le(t, limit);
        }
        todo := todo - {v};
      }
      var fns := everywhere;
      while fns != {}
        invariant fns <= everywhere && Kept(r, Now(), visited, {}, {}) && toPrecompute <= included
        invariant everywhere - fns <= functions
        invariant visited == {} && needs == {} && seen == {}
        invariant forall limit {:trigger ClosedIncludes(r, limit)} ::
                    ClosedIncludes(r, limit) && toPrecompute <= limit.included && everywhere <= limit.functions ==> Le(Now(), limit)
        decreases fns
      {
        var f :| f in fns;
        ghost var s := Now();
        InsertFunctionToInclude(f, {}, {});
        forall limit | ClosedIncludes(r, limit) && toPrecompute <= limit.included && everywhere <= limit.functions
          ensures Le(Now(), limit)
        {
          assert Le(s, limit);
        }
        fns := fns - {f};
      }
      start := Snap();
      StartIsLeast(r, Given(toPrecompute, everywhere), start);
      orders := FindAllTaintedVals();
    }
  }

  /** After the visit of v, which has recorded what it does, q has to be visited again. */
  predicate ChangedBy(r: Rules, seen: set<Value>, seen': set<Value>, v: Value, q: Value) {
    || (v !in seen && q in r.stores(v) + r.traces(v))
    || (exists e :: e in Entries(r, seen') && e !in Entries(r, seen) && q in r.callSites(e.f))
    || ClassChanged(r, seen, seen', q)
  }

  lemma NeededAbove(s: Facts, t: Facts, v: Value)
    requires Le(s, t) && IsNeeded(s, v)
    ensures IsNeeded(t, v)
  {
    var u :| (u, v) in s.needs;
    assert (u, v) in t.needs;
  }

  lemma NeededEdge(s: Facts, v: Value)
    ensures (exists e :: e in s.needs && e.1 == v) <==> IsNeeded(s, v)
  {
    if e :| e in s.needs && e.1 == v {
      var (u, w) := e;
      assert (u, v) in s.needs;
    }
    if u :| (u, v) in s.needs {
      assert (u, v).1 == v;
    }
  }

  lemma SaneInUniverse(r: Rules, s: Facts, visited: set<Value>)
    requires Sane(r, s, visited)
    ensures Le(s, Universe(r))
  {
    forall e | e in s.needs
      ensures e in Universe(r).needs
    {
      assert e == (e.0, e.1);
    }
  }

  lemma OrderGrows(r: Rules, toVisit: set<Value>, order: seq<Value>, v: Value, more: seq<Value>)
    requires forall u :: u in order ==> u in toVisit || exists q :: q in order && u in r.stores(q)
    requires v in toVisit && v in more && forall u :: u in more ==> u == v || u in r.stores(v)
    ensures forall u :: u in order + more ==> u in toVisit || exists q :: q in order + more && u in r.stores(q)
    ensures Elements(order + more) == Elements(order) + Elements(more)
  {
    forall u | u in order + more && u !in toVisit
      ensures exists q :: q in order + more && u in r.stores(q)
    {
      if u in order {
        var q :| q in order && u in r.stores(q);
        assert q in order + more;
      } else {
        assert v in order + more;
      }
    }
  }

  /** What the registration finds is demanded, and leads to the new visits there are reasons for. */
  lemma PointersFollow(r: Rules, s: Facts, visited: set<Value>, t: Facts, visited': set<Value>, v: Value)
    requires t == s.(seen := s.seen + {v}, tainted := s.tainted + Ends(r.unites(v)) + r.stores(v) + r.traces(v))
    requires visited' == set q | q in visited && !ChangedBy(r, s.seen, t.seen, v, q)
    ensures Le(s, t) && TraceRule(r, t, v) && Revisits(r, s, visited, t, visited')
    ensures RuleFollows(r, s, t, v)
  {
    forall q
      ensures Again(r, s, t, q) <==> ChangedBy(r, s.seen, t.seen, v, q)
    {
    }
  }

  lemma PointersKept(r: Rules, s: Facts, visited: set<Value>, t: Facts, visited': set<Value>, v: Value)
    requires RulesOk(r) && Kept(r, s, visited, {}, {v}) && v in s.tainted
    requires t == s.(seen := s.seen + {v}, tainted := s.tainted + Ends(r.unites(v)) + r.stores(v) + r.traces(v))
    requires visited' == set q | q in visited && !ChangedBy(r, s.seen, t.seen, v, q)
    ensures Kept(r, t, visited', {}, {v})
  {
    assert RuleOk(r, v);
    forall x | x in t.included
      ensures IncludeRule(r, t, x)
    {
      IncludeStays(r, s, t, x);
    }
    forall f | f in t.functions
      ensures FunctionRule(r, t, f)
    {
      assert FunctionRule(r, s, f);
    }
    forall x | x in visited' && x != v
      ensures VisitRule(r, t, x)
    {
      assert AccessesOf(r, s.seen, x) == AccessesOf(r, t.seen, x);
      VisitStays(r, s, t, x);
    }
  }

  // ---------------------------------------------------------------- a visit as a step

  lemma FoundAfterVisit(r: Rules, s: Facts, t: Facts, u: Facts, w: Facts, end: Facts, v: Value)
    requires RulesOk(r) && Le(s, t) && Le(t, u) && Le(u, w) && Le(w, end)
    requires TraceRule(r, t, v) && t.seen == s.seen + {v} && u.seen == t.seen && w.seen == u.seen && end.seen == w.seen
    requires s.needs == t.needs && NeedsAll(u, v, r.operands(v)) && (IsNeeded(t, v) ==> NeedsAll(u, v, r.rets(v)))
    requires StoreRule(r, w, v)
    requires r.always(v) || OwnTest(r, w.seen, v) || CallTest(r, w.seen, v) ==> v in end.included
    ensures Found(r, s, end, v)
  {
    assert IsNeeded(s, v) ==> IsNeeded(t, v);
  }

  lemma FollowsAfterVisit(r: Rules, s: Facts, t: Facts, u: Facts, w: Facts, end: Facts, v: Value)
    requires RulesOk(r) && RuleFollows(r, s, t, v) && RuleFollows(r, t, u, v) && RuleFollows(r, u, w, v)
    requires w == end || ((r.always(v) || OwnTest(r, w.seen, v) || CallTest(r, w.seen, v)) && IncludeFollows(r, w, end, v))
    ensures VisitFollows(r, s, end, v)
  {
    forall limit | ClosedIncludes(r, limit) && Le(s, limit) && VisitRule(r, limit, v) && OwnRule(r, limit, v) && CallRule(r, limit, v)
      ensures Le(end, limit)
    {
      assert Le(t, limit);
      assert Le(u, limit);
      assert Le(w, limit);
      TestsGrow(r, w.seen, limit.seen, v);
    }
  }

  /** A value that has been visited, and need not be visited again, meets all rules. */
  lemma VisitedMeetsRule(r: Rules, s: Facts, visited: set<Value>, t: Facts, visited': set<Value>, v: Value)
    requires Found(r, s, t, v) && Revisits(r, s, visited, t, visited') && v in visited'
    ensures VisitRule(r, t, v)
  {
    if IsNeeded(t, v) {
      var u :| (u, v) in t.needs;
      assert !Again(r, s, t, v);
      assert (u, v) in s.needs;
    }
  }

  lemma VisitIsKept(r: Rules, s: Facts, visited: set<Value>, t: Facts, visited': set<Value>, v: Value)
    requires Kept(r, t, visited', {}, {v}) && Found(r, s, t, v) && Revisits(r, s, visited, t, visited')
    ensures Kept(r, t, visited', {}, {})
  {
    forall x | x in visited'
      ensures VisitRule(r, t, x)
    {
      if x == v {
        VisitedMeetsRule(r, s, visited, t, visited', v);
      }
    }
  }

  lemma ExactAfterVisit(r: Rules, a: Snapshot, v: Value, b: Snapshot)
    requires RulesOk(r) && v in a.facts.tainted && v !in a.visited && Le(a.facts, b.facts) && Kept(r, b.facts, b.visited, {}, {})
    requires Found(r, a.facts, b.facts, v) && VisitFollows(r, a.facts, b.facts, v)
    requires Revisits(r, a.facts, a.visited + {v}, b.facts, b.visited)
    ensures ExactStep(r, a, v, b)
  {
    forall w | w in b.visited
      ensures !Must(r, a.facts, b.facts, w)
    {
      if Must(r, a.facts, b.facts, w) {
        MustIsAgain(r, a.facts, b.facts, w);
      }
    }
  }

  /** The state after everything given has been included. */
  lemma StartIsLeast(r: Rules, g: Facts, a: Snapshot)
    requires RulesOk(r) && Kept(r, a.facts, {}, {}, {}) && a.visited == {} && Le(g, a.facts) && g.seen == {}
    requires forall limit :: ClosedIncludes(r, limit) && Le(g, limit) ==> Le(a.facts, limit)
    ensures IsStart(r, g, a)
  {
    SaneInUniverse(r, a.facts, {});
    assert ClosedBy(r, {}, {}, a.facts);
    LeastIsBelow(r, g, {}, {}, a.facts);
    LeastIsClosed(r, g, {}, {});
    LeBoth(a.facts, Least(r, g, {}, {}));
  }

  /** An edge has been added: the value that it leads to is to be visited again. */
  lemma EdgeKept(r: Rules, s: Facts, visited: set<Value>, t: Facts, visited': set<Value>, from: Value, v: Value,
                 current: set<Value>)
    requires Kept(r, s, visited, {}, current) && from in s.tainted && v in r.all
    requires t == s.(tainted := s.tainted + {v}, needs := s.needs + {(from, v)})
    requires visited' == if (from, v) in s.needs then visited else visited - {v}
    ensures Kept(r, t, visited', {from}, current)
  {
    forall x | x in t.included && x != from
      ensures IncludeRule(r, t, x)
    {
      assert IncludeRule(r, s, x);
    }
    forall f | f in t.functions
      ensures FunctionRule(r, t, f)
    {
      assert FunctionRule(r, s, f);
    }
    forall x | x in visited' && x !in current
      ensures VisitRule(r, t, x)
    {
      assert VisitRule(r, s, x);
      assert IsNeeded(t, x) ==> IsNeeded(s, x);
    }
  }

  lemma FollowsControl(r: Rules, s: Facts, t: Facts, t1: Facts, u: Facts, v: Value, term: Value)
    requires IncludeFollows(r, s, t, v) && term in r.control(v) && t1 == t.(tainted := t.tainted + {term})
    requires IncludeFollows(r, t1, u, term)
    ensures IncludeFollows(r, s, u, v)
  {
    forall limit | ClosedIncludes(r, limit) && Le(s, limit) && v in limit.included
      ensures Le(u, limit)
    {
      assert Le(t, limit) && IncludeRule(r, limit, v) && IncludeRule(r, limit, term);
      assert Le(t1, limit);
    }
  }
}
