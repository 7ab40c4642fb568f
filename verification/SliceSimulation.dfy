/**
Step by step, the program and the slice stay in corresponding states.
*/
module SliceSimulation {
  import opened Program
  import opened Pruning
  import opened Correspondence

  // ---------------------------------------------------------------- what the program does alone

  lemma BlockIsOk(p: Program, k: Marks, fr: Frame)
    requires Closed(p, k) && FrameOk(p, fr)
    ensures BlockOk(p, k, fr.f, Code(p, fr.f, fr.b))
  {
    assert BlockOk(p, k, fr.f, p[fr.f][fr.b]);
  }

  lemma NextIsOk(p: Program, k: Marks, fr: Frame)
    requires Closed(p, k) && FrameOk(p, fr) && fr.rest != []
    ensures InstOk(p, k, fr.f, fr.rest[0])
    ensures !HasKept(k, Code(p, fr.f, fr.b)) ==> !Keeps(k, fr.rest[0].site)
  {
    BlockIsOk(p, k, fr);
    assert fr.rest[0] in fr.rest;
    assert fr.rest[0] in Code(p, fr.f, fr.b).insts;
  }

  /** An instruction that is not included, or runs where nothing is included or observed, emits
      nothing and calls only functions that are not included everywhere. */
  lemma Unobserved(p: Program, k: Marks, fr: Frame)
    requires Closed(p, k) && FrameOk(p, fr) && fr.rest != []
    requires !Keeps(k, fr.rest[0].site) || Quiet(p, k, fr)
    ensures Emitted(Popped(fr), k.observed, fr.rest[0]) == []
    ensures fr.rest[0].Call? ==> fr.rest[0].callee !in k.everywhere
  {
    NextIsOk(p, k, fr);
  }

  /** Code that is not included leads only to code that is not included. */
  lemma StaysUnkept(p: Program, k: Marks, fr: Frame, b: Block)
    requires Closed(p, k) && FrameOk(p, fr) && b in Succs(Code(p, fr.f, fr.b).term)
    requires !Keeps(k, Code(p, fr.f, fr.b).term.site)
    ensures !HasKept(k, Code(p, fr.f, b))
  {
    BlockIsOk(p, k, fr);
  }

  ghost predicate BlockPath(p: Program, f: Fn, w: seq<Block>) {
    if |w| <= 1 then w != [] && Has(p, f, w[0])
    else BlockPath(p, f, w[..|w| - 1]) && Has(p, f, w[|w| - 1]) && w[|w| - 1] in Succs(Code(p, f, w[|w| - 2]).term)
  }

  /** A terminator that is turned into a return is one from which nothing included can be reached. */
  lemma {:induction false} DroppedLeadsNowhere(p: Program, k: Marks, f: Fn, w: seq<Block>)
    requires Closed(p, k) && BlockPath(p, f, w) && |w| > 1 && !Keeps(k, Code(p, f, w[0]).term.site)
    ensures !HasKept(k, Code(p, f, w[|w| - 1]))
  {
    var n := |w| - 1;
    if n > 1 {
      DroppedLeadsNowhere(p, k, f, w[..n]);
    }
    assert w[..n][0] == w[0];
    var b := w[n - 1];
    assert Has(p, f, b) by {
      assert BlockPath(p, f, w[..n]);
    }
    assert BlockOk(p, k, f, p[f][b]);
    assert HasKept(k, Code(p, f, w[n])) ==> Keeps(k, Code(p, f, b).term.site);
  }

  lemma QuietTerm(p: Program, k: Marks, s: State, b: seq<Frame>)
    requires Closed(p, k) && StackOk(p, s.stack) && s.stack != [] && !Replicated(k, s.stack)
    requires Corresponds(p, k, s.stack, b)
    ensures Corresponds(p, k, RunTerm(p, s).stack, b)
  {
    var fr, t := s.Top(), Code(p, s.Top().f, s.Top().b).term;
    if t.Ret? {
      ReturnQuiet(p, k, s.stack, b, Look(fr, t.val));
    } else {
      var next := Target(t, Look(fr, Cond(t)));
      TargetIsSucc(t, Look(fr, Cond(t)));
      if fr.f in k.everywhere {
        StaysUnkept(p, k, fr, next);
      }
      QuietTop(p, k, s.stack, b, Enter(p, fr, next));
    }
  }

  lemma QuietInst(p: Program, k: Marks, s: State, b: seq<Frame>, input: int)
    requires Closed(p, k) && StackOk(p, s.stack) && s.stack != [] && s.Top().rest != []
    requires !Replicated(k, s.stack) && Corresponds(p, k, s.stack, b)
    ensures Corresponds(p, k, RunInst(p, k.observed, s, input).stack, b)
    ensures RunInst(p, k.observed, s, input).trace == s.trace
  {
    var i, fr := s.Top().rest[0], Popped(s.Top());
    Unobserved(p, k, s.Top());
    if i.Call? {
      QuietCall(p, k, s.stack, b, fr, Activation(p, i.callee, LookAll(fr, i.args), i.site));
    } else {
      QuietTop(p, k, s.stack, b, After(fr, s.mem, i, input));
    }
  }

  /** The program executes an instruction that is not included, in a frame that the slice has too. */
  lemma SkippedInst(p: Program, k: Marks, s: State, b: seq<Frame>, input: int)
    requires Closed(p, k) && StackOk(p, s.stack) && s.stack != [] && s.Top().rest != []
    requires Replicated(k, s.stack) && Corresponds(p, k, s.stack, b) && !Keeps(k, s.Top().rest[0].site)
    ensures Corresponds(p, k, RunInst(p, k.observed, s, input).stack, b)
    ensures RunInst(p, k.observed, s, input).trace == s.trace
  {
    var i, fr, y := s.Top().rest[0], Popped(s.Top()), b[|b| - 1];
    Unobserved(p, k, s.Top());
    var after := After(fr, s.mem, i, input);
    UnneededTop(p, k, s.Top(), y, s.mem, input);
    if i.Call? {
      SkippedCall(p, k, s.stack, b, fr, Activation(p, i.callee, LookAll(fr, i.args), i.site));
    } else {
      SkippedTop(p, k, s.stack, b, after);
    }
  }

  lemma UnneededTop(p: Program, k: Marks, x: Frame, y: Frame, mem: map<Addr, int>, input: int)
    requires x.rest != [] && (Matches(k, x, y) || Tail(p, k, x, y)) && !Keeps(k, x.rest[0].site) && k.needed <= k.values
    ensures var after := After(Popped(x), mem, x.rest[0], input); Matches(k, after, y) || Tail(p, k, after, y)
  {
    if Matches(k, x, y) {
      assert SameValues(k, Popped(x), y) by {
        assert forall v :: Look(Popped(x), v) == Look(x, v);
      }
      UnneededAfter(k, Popped(x), y, mem, x.rest[0], input);
    }
  }

  lemma UnneededAfter(k: Marks, fr: Frame, y: Frame, mem: map<Addr, int>, i: Inst, input: int)
    requires SameValues(k, fr, y) && Res(i.site) !in k.needed
    ensures SameValues(k, After(fr, mem, i, input), y)
  {
    match i
    case Compute(site, op, args) => SetUnneeded(k, fr, y, site, op(LookAll(fr, args)));
    case Load(site, ptr) => SetUnneeded(k, fr, y, site, Get(mem, Look(fr, ptr)));
    case Extern(site, _) => SetUnneeded(k, fr, y, site, input);
    case _ =>
  }

  // ---------------------------------------------------------------- what both do

  lemma SameArgs(k: Marks, x: Frame, y: Frame, vs: seq<Value>)
    requires SameValues(k, x, y) && AllAvail(k, vs)
    ensures LookAll(x, vs) == LookAll(y, vs)
  {
    forall j | 0 <= j < |vs|
      ensures LookAll(x, vs)[j] == LookAll(y, vs)[j]
    {
      assert Avail(k, vs[j]);
    }
  }

  /** Both execute an included instruction with the same effect. */
  lemma SameEffect(k: Marks, x: Frame, y: Frame, mx: map<Addr, int>, my: map<Addr, int>, i: Inst, input: int)
    requires SameValues(k, x, y) && OperandsOk(k, i) && !i.Call?
    requires i.Load? ==> Get(mx, Look(x, i.ptr)) == Get(my, Look(x, i.ptr))
    ensures SameValues(k, After(x, mx, i, input), After(y, my, i, input))
    ensures Emitted(x, k.observed, i) == Emitted(y, k.observed, i)
    ensures i.Store? ==> Look(x, i.ptr) == Look(y, i.ptr) && Look(x, i.val) == Look(y, i.val)
  {
    match i
    case Compute(site, op, args) =>
      SameArgs(k, x, y, args);
      SetBoth(k, x, y, site, op(LookAll(x, args)), op(LookAll(y, args)));
    case Load(site, ptr) =>
      SetBoth(k, x, y, site, Get(mx, Look(x, ptr)), Get(my, Look(y, ptr)));
    case Extern(site, args) =>
      SameArgs(k, x, y, args);
      SetBoth(k, x, y, site, input, input);
    case Store(_, _, _) =>
  }

  /** The arguments that the callee needs arrive, the nulled ones are not needed. */
  lemma SameActivation(p: Program, k: Marks, x: Frame, y: Frame, i: Inst)
    requires SameValues(k, x, y) && OperandsOk(k, i) && i.Call? && k.needed <= k.values && Has(p, i.callee, ENTRY)
    ensures Matches(k, Activation(p, i.callee, LookAll(x, i.args), i.site),
                    Activation(Slice(k, p), i.callee, LookAll(y, SlicedArgs(k, i.args)), i.site))
  {
    CodeOfSlice(p, k, i.callee, ENTRY);
    var a := Activation(p, i.callee, LookAll(x, i.args), i.site);
    var b := Activation(Slice(k, p), i.callee, LookAll(y, SlicedArgs(k, i.args)), i.site);
    forall v | v in k.needed
      ensures Look(a, v) == Look(b, v)
    {
      if v.Param? && v.f == i.callee && v.i < |i.args| {
        assert i.args[v.i] in k.needed;
        assert a.args[v.i] == Look(x, i.args[v.i]) && b.args[v.i] == Look(y, i.args[v.i]);
      }
    }
  }

  lemma KeptCall(p: Program, k: Marks, s: State, r: State)
    requires WellFormed(p) && Closed(p, k) && StackOk(p, s.stack) && s.stack != [] && r.stack != []
    requires Replicated(k, s.stack) && Corresponds(p, k, s.stack, r.stack) && Matches(k, s.Top(), r.Top())
    requires s.Top().rest != [] && s.Top().rest[0].Call? && Keeps(k, s.Top().rest[0].site)
    ensures r.Top().rest != []
    ensures Corresponds(p, k, RunInst(p, k.observed, s, 0).stack, RunInst(Slice(k, p), k.observed, r, 0).stack)
  {
    var i, x, y := s.Top().rest[0], Popped(s.Top()), Popped(r.Top());
    NextIsOk(p, k, s.Top());
    assert Has(p, i.callee, ENTRY) by {
      AfterOk(p, s.Top(), s.mem, 0);
      CalleeOk(p, s.Top(), i, []);
    }
    assert r.Top().rest[0] == SlicedInst(k, i) && y.rest == SlicedInsts(k, x.rest);
    PoppedSame(k, s.Top(), r.Top());
    SameActivation(p, k, x, y, i);
    MatchedCall(p, k, s.stack, r.stack, x, Activation(p, i.callee, LookAll(x, i.args), i.site),
                y, Activation(Slice(k, p), i.callee, LookAll(y, SlicedArgs(k, i.args)), i.site));
  }

  lemma KeptInst(p: Program, k: Marks, s: State, r: State, input: int)
    requires Closed(p, k) && StackOk(p, s.stack) && s.stack != [] && r.stack != []
    requires Replicated(k, s.stack) && Corresponds(p, k, s.stack, r.stack) && Matches(k, s.Top(), r.Top())
    requires s.Top().rest != [] && !s.Top().rest[0].Call? && Keeps(k, s.Top().rest[0].site)
    requires s.Top().rest[0].Load? ==>
               Get(s.mem, Look(s.Top(), s.Top().rest[0].ptr)) == Get(r.mem, Look(s.Top(), s.Top().rest[0].ptr))
    ensures r.Top().rest != [] && r.Top().rest[0] == s.Top().rest[0]
    ensures Corresponds(p, k, RunInst(p, k.observed, s, input).stack, RunInst(Slice(k, p), k.observed, r, input).stack)
    ensures s.trace == r.trace ==>
              RunInst(p, k.observed, s, input).trace == RunInst(Slice(k, p), k.observed, r, input).trace
    ensures s.Top().rest[0].Store? ==> Look(s.Top(), s.Top().rest[0].ptr) == Look(r.Top(), s.Top().rest[0].ptr)
                                       && Look(s.Top(), s.Top().rest[0].val) == Look(r.Top(), s.Top().rest[0].val)
  {
    var i, x, y := s.Top().rest[0], Popped(s.Top()), Popped(r.Top());
    NextIsOk(p, k, s.Top());
    assert r.Top().rest[0] == i && y.rest == SlicedInsts(k, x.rest);
    PoppedSame(k, s.Top(), r.Top());
    LooksSame(s.Top(), i);
    LooksSame(r.Top(), i);
    SameEffect(k, x, y, s.mem, r.mem, i, input);
    MatchedTop(p, k, s.stack, r.stack, After(x, s.mem, i, input), After(y, r.mem, i, input));
  }

  lemma PoppedSame(k: Marks, x: Frame, y: Frame)
    requires SameValues(k, x, y) && x.rest != [] && y.rest != []
    ensures SameValues(k, Popped(x), Popped(y))
  {
    assert forall v :: Look(Popped(x), v) == Look(x, v) && Look(Popped(y), v) == Look(y, v);
  }

  lemma LooksSame(fr: Frame, i: Inst)
    requires fr.rest != []
    ensures i.Load? || i.Store? ==> Look(Popped(fr), i.ptr) == Look(fr, i.ptr)
    ensures i.Store? ==> Look(Popped(fr), i.val) == Look(fr, i.val)
  {
  }

  // ---------------------------------------------------------------- terminators

  lemma SamePhis(p: Program, k: Marks, x: Frame, y: Frame, phis: map<Site, Phi>, v: Value)
    requires SameValues(k, x, y) && x.b == y.b && PhisOk(k, phis) && k.needed <= k.values && v in k.needed
    ensures var kept := map site | site in phis && Keeps(k, site) :: phis[site];
            Look(x.(regs := x.regs + PhiValues(x, phis)), v) == Look(y.(regs := y.regs + PhiValues(y, kept)), v)
  {
    assert Look(x, v) == Look(y, v);
    if v.Res? && v.site in phis {
      assert Keeps(k, v.site);
      var from := Incoming(phis[v.site], x.b);
      assert Avail(k, from);
      assert Look(x, from) == Look(y, from);
    }
  }

  /** Both enter the same block: the included phis get the same values. */
  lemma BothEnter(p: Program, k: Marks, x: Frame, y: Frame, b: Block)
    requires Closed(p, k) && Has(p, x.f, b) && Matches(k, x, y)
    ensures Matches(k, Enter(p, x, b), Enter(Slice(k, p), y, b))
  {
    CodeOfSlice(p, k, x.f, b);
    assert BlockOk(p, k, x.f, p[x.f][b]);
    var x', y' := Enter(p, x, b), Enter(Slice(k, p), y, b);
    forall v | v in k.needed
      ensures Look(x', v) == Look(y', v)
    {
      SamePhis(p, k, x, y, Code(p, x.f, b).phis, v);
    }
  }

  lemma SuccExists(p: Program, fr: Frame, b: Block)
    requires WellFormed(p) && FrameOk(p, fr) && b in Succs(Code(p, fr.f, fr.b).term)
    ensures Has(p, fr.f, b)
  {
    assert BlockFormed(p, fr.f, p[fr.f][fr.b]);
  }

  lemma KeptTerm(p: Program, k: Marks, s: State, r: State)
    requires WellFormed(p) && Closed(p, k) && StackOk(p, s.stack) && s.stack != [] && r.stack != []
    requires Replicated(k, s.stack) && Corresponds(p, k, s.stack, r.stack) && Matches(k, s.Top(), r.Top())
    requires s.Top().rest == [] && !Code(p, s.Top().f, s.Top().b).term.Ret?
    requires Code(p, s.Top().f, s.Top().b).term.Jump? || Keeps(k, Code(p, s.Top().f, s.Top().b).term.site)
    ensures Corresponds(p, k, RunTerm(p, s).stack, RunTerm(Slice(k, p), r).stack)
  {
    var x, y := s.Top(), r.Top();
    var t := Code(p, x.f, x.b).term;
    CodeOfSlice(p, k, x.f, x.b);
    BlockIsOk(p, k, x);
    assert Look(x, Cond(t)) == Look(y, Cond(t));
    var b := Target(t, Look(x, Cond(t)));
    TargetIsSucc(t, Look(x, Cond(t)));
    SuccExists(p, x, b);
    BothEnter(p, k, x, y, b);
    MatchedTop(p, k, s.stack, r.stack, Enter(p, x, b), Enter(Slice(k, p), y, b));
  }

  /** At a terminator that is not included the program goes on alone. */
  lemma DroppedTerm(p: Program, k: Marks, s: State, b: seq<Frame>)
    requires WellFormed(p) && Closed(p, k) && StackOk(p, s.stack) && s.stack != [] && b != [] && s.Top().rest == []
    requires Replicated(k, s.stack) && Corresponds(p, k, s.stack, b)
    requires !Code(p, s.Top().f, s.Top().b).term.Ret? && !Keeps(k, Code(p, s.Top().f, s.Top().b).term.site)
    requires Code(p, s.Top().f, s.Top().b).term.Switch? || Tail(p, k, s.Top(), b[|b| - 1])
    ensures Corresponds(p, k, RunTerm(p, s).stack, b)
  {
    var x, y := s.Top(), b[|b| - 1];
    var t := Code(p, x.f, x.b).term;
    var next := Target(t, Look(x, Cond(t)));
    TargetIsSucc(t, Look(x, Cond(t)));
    StaysUnkept(p, k, x, next);
    SkippedTop(p, k, s.stack, b, Enter(p, x, next));
  }

  /** The result of a call is not needed when a return of the callee is not included. */
  lemma ResultUnneeded(p: Program, k: Marks, fr: Frame)
    requires Closed(p, k) && FrameOk(p, fr) && IsCalled(p, fr.from, fr.f)
    requires Code(p, fr.f, fr.b).term.Ret? && !Keeps(k, Code(p, fr.f, fr.b).term.site)
    ensures Res(fr.from) !in k.needed
  {
    var f, b, i :| Has(p, f, b) && i in p[f][b].insts && i.Call? && i.site == fr.from && i.callee == fr.f;
    assert BlockOk(p, k, f, p[f][b]);
    assert InstOk(p, k, f, i);
    assert Has(p, fr.f, fr.b);
  }

  /** The slice returns as well, and an included return gives the same value. */
  lemma SlicedReturn(p: Program, k: Marks, x: Frame, y: Frame)
    requires Closed(p, k) && FrameOk(p, x) && (Matches(k, x, y) || Tail(p, k, x, y)) && x.rest == []
    requires Code(p, x.f, x.b).term.Ret?
    ensures y.rest == [] && Code(Slice(k, p), y.f, y.b).term.Ret?
    ensures Keeps(k, Code(p, x.f, x.b).term.site) ==>
              Look(x, Code(p, x.f, x.b).term.val) == Look(y, Code(Slice(k, p), y.f, y.b).term.val)
  {
    BlockIsOk(p, k, x);
    CodeOfSlice(p, k, y.f, y.b);
  }

  lemma BothReturn(p: Program, k: Marks, s: State, r: State)
    requires Closed(p, k) && StackOk(p, s.stack) && s.stack != [] && r.stack != []
    requires Replicated(k, s.stack) && Corresponds(p, k, s.stack, r.stack)
    requires s.Top().rest == [] && Code(p, s.Top().f, s.Top().b).term.Ret?
    ensures r.Top().rest == []
    ensures Corresponds(p, k, RunTerm(p, s).stack, RunTerm(Slice(k, p), r).stack)
  {
    var x, y := s.Top(), r.Top();
    SlicedReturn(p, k, x, y);
    var t, t' := Code(p, x.f, x.b).term, Code(Slice(k, p), y.f, y.b).term;
    if !Keeps(k, t.site) && |s.stack| > 1 {
      ResultUnneeded(p, k, x);
    }
    ReturnMatched(p, k, s.stack, r.stack, Look(x, t.val), Look(y, t'.val));
  }

  // ---------------------------------------------------------------- one step

  /** Whether the slice makes the step too. */
  ghost predicate SliceSteps(p: Program, k: Marks, s: State, r: State) {
    && s.stack != [] && r.stack != [] && Replicated(k, s.stack)
    && if s.Top().rest != [] then Keeps(k, s.Top().rest[0].site)
       else
         var t := Code(p, s.Top().f, s.Top().b).term;
         t.Ret? || (!Tail(p, k, s.Top(), r.Top()) && (t.Jump? || Keeps(k, t.site)))
  }

  lemma TailUnkept(p: Program, k: Marks, x: Frame, y: Frame)
    requires Closed(p, k) && FrameOk(p, x) && Tail(p, k, x, y)
    ensures !Keeps(k, Code(p, x.f, x.b).term.site)
    ensures x.rest != [] ==> !Keeps(k, x.rest[0].site)
  {
    if x.rest != [] {
      NextIsOk(p, k, x);
    }
  }

  /** What only the program writes becomes stale. */
  lemma MemoryAlone(p: Program, k: Marks, stale: set<Addr>, s: State, r: State, input: int)
    requires SameMemory(s, r, stale) && s.stack != [] && s.Top().rest != []
    requires !Replicated(k, s.stack) || !Keeps(k, s.Top().rest[0].site)
    ensures SameMemory(RunInst(p, k.observed, s, input), r, StaleStep(k, s, stale))
  {
  }

  lemma MemoryBoth(p: Program, k: Marks, stale: set<Addr>, s: State, r: State, input: int)
    requires SameMemory(s, r, stale) && s.stack != [] && s.Top().rest != [] && r.stack != [] && r.Top().rest != []
    requires Replicated(k, s.stack) && Keeps(k, s.Top().rest[0].site)
    requires r.Top().rest[0] == SlicedInst(k, s.Top().rest[0])
    requires s.Top().rest[0].Store? ==> Look(s.Top(), s.Top().rest[0].ptr) == Look(r.Top(), s.Top().rest[0].ptr)
                                        && Look(s.Top(), s.Top().rest[0].val) == Look(r.Top(), s.Top().rest[0].val)
    ensures SameMemory(RunInst(p, k.observed, s, input), RunInst(Slice(k, p), k.observed, r, input), StaleStep(k, s, stale))
  {
    LooksSame(s.Top(), s.Top().rest[0]);
    LooksSame(r.Top(), s.Top().rest[0]);
  }

  lemma InstAlone(p: Program, k: Marks, stale: set<Addr>, s: State, r: State, input: int)
    requires Closed(p, k) && Related(p, k, stale, s, r) && s.stack != [] && s.Top().rest != []
    requires !Replicated(k, s.stack) || !Keeps(k, s.Top().rest[0].site)
    ensures Corresponds(p, k, RunInst(p, k.observed, s, input).stack, r.stack)
    ensures RunInst(p, k.observed, s, input).trace == r.trace
  {
    if Replicated(k, s.stack) {
      SkippedInst(p, k, s, r.stack, input);
    } else {
      QuietInst(p, k, s, r.stack, input);
    }
  }

  lemma InstBoth(p: Program, k: Marks, stale: set<Addr>, s: State, r: State, input: int)
    requires WellFormed(p) && Closed(p, k) && Related(p, k, stale, s, r) && Fresh(k, s, stale)
    requires s.stack != [] && s.Top().rest != [] && Replicated(k, s.stack) && Keeps(k, s.Top().rest[0].site)
    ensures r.stack != [] && r.Top().rest != []
    ensures var r' := RunInst(Slice(k, p), k.observed, r, input); var s' := RunInst(p, k.observed, s, input);
            Corresponds(p, k, s'.stack, r'.stack) && s'.trace == r'.trace && SameMemory(s', r', StaleStep(k, s, stale))
  {
    if Tail(p, k, s.Top(), r.Top()) {
      TailUnkept(p, k, s.Top(), r.Top());
    }
    if s.Top().rest[0].Call? {
      KeptCall(p, k, s, r);
    } else {
      KeptInst(p, k, s, r, input);
    }
    MemoryBoth(p, k, stale, s, r, input);
  }

  lemma InstStep(p: Program, k: Marks, stale: set<Addr>, s: State, r: State, input: int)
    requires WellFormed(p) && Closed(p, k) && Related(p, k, stale, s, r) && Fresh(k, s, stale)
    requires s.stack != [] && s.Top().rest != []
    ensures Related(p, k, StaleStep(k, s, stale), Step(p, k.observed, s, input),
                    if SliceSteps(p, k, s, r) then Step(Slice(k, p), k.observed, r, input) else r)
  {
    StackAfterInst(p, k.observed, s, input);
    if Replicated(k, s.stack) && Keeps(k, s.Top().rest[0].site) {
      InstBoth(p, k, stale, s, r, input);
    } else {
      InstAlone(p, k, stale, s, r, input);
      MemoryAlone(p, k, stale, s, r, input);
    }
  }

  lemma TermAlone(p: Program, k: Marks, s: State, b: seq<Frame>)
    requires WellFormed(p) && Closed(p, k) && StackOk(p, s.stack) && s.stack != [] && s.Top().rest == []
    requires Corresponds(p, k, s.stack, b)
    requires Replicated(k, s.stack) ==> b != [] && !Code(p, s.Top().f, s.Top().b).term.Ret?
    requires Replicated(k, s.stack) && !Tail(p, k, s.Top(), b[|b| - 1]) ==>
               Code(p, s.Top().f, s.Top().b).term.Switch? && !Keeps(k, Code(p, s.Top().f, s.Top().b).term.site)
    ensures Corresponds(p, k, RunTerm(p, s).stack, b)
  {
    if !Replicated(k, s.stack) {
      QuietTerm(p, k, s, b);
    } else {
      if Tail(p, k, s.Top(), b[|b| - 1]) {
        TailUnkept(p, k, s.Top(), b[|b| - 1]);
      }
      DroppedTerm(p, k, s, b);
    }
  }

  lemma TermBoth(p: Program, k: Marks, s: State, r: State)
    requires WellFormed(p) && Closed(p, k) && StackOk(p, s.stack) && s.stack != [] && s.Top().rest == []
    requires Corresponds(p, k, s.stack, r.stack) && SliceSteps(p, k, s, r)
    ensures r.stack != [] && r.Top().rest == []
    ensures Corresponds(p, k, RunTerm(p, s).stack, RunTerm(Slice(k, p), r).stack)
  {
    if Code(p, s.Top().f, s.Top().b).term.Ret? {
      BothReturn(p, k, s, r);
    } else {
      KeptTerm(p, k, s, r);
    }
  }

  lemma TermKeepsRest(p: Program, k: Marks, s: State, stale: set<Addr>)
    requires s.stack != [] && s.Top().rest == []
    ensures RunTerm(p, s).mem == s.mem && RunTerm(p, s).trace == s.trace && StaleStep(k, s, stale) == stale
  {
  }

  lemma TermStep(p: Program, k: Marks, stale: set<Addr>, s: State, r: State, input: int)
    requires WellFormed(p) && Closed(p, k) && Related(p, k, stale, s, r)
    requires s.stack != [] && s.Top().rest == []
    ensures Related(p, k, StaleStep(k, s, stale), Step(p, k.observed, s, input),
                    if SliceSteps(p, k, s, r) then Step(Slice(k, p), k.observed, r, input) else r)
  {
    StackAfterTerm(p, s);
    TermKeepsRest(p, k, s, stale);
    if SliceSteps(p, k, s, r) {
      TermBoth(p, k, s, r);
      TermKeepsRest(Slice(k, p), k, r, stale);
    } else {
      TermAlone(p, k, s, r.stack);
    }
  }

  // ---------------------------------------------------------------- whole runs

  lemma StartsRelated(p: Program, k: Marks, main: Fn, args: seq<int>)
    requires WellFormed(p) && Has(p, main, ENTRY) && main in k.copied
    ensures Related(p, k, {}, Start(p, main, args), Start(Slice(k, p), main, args))
  {
    CodeOfSlice(p, k, main, ENTRY);
    var a, b := Start(p, main, args).stack, Start(Slice(k, p), main, args).stack;
    assert FrameOk(p, a[0]) && Matches(k, a[0], b[0]);
    assert a[..0] == [] && b[..0] == [];
  }

  lemma {:induction false} RunsStayRelated(p: Program, k: Marks, main: Fn, args: seq<int>, inputs: seq<int>)
    returns (inputs': seq<int>)
    requires WellFormed(p) && Closed(p, k) && Has(p, main, ENTRY) && main in k.copied
    requires FreshLoads(p, k, main, args, inputs)
    ensures Related(p, k, Stale(p, k, main, args, inputs), Run(p, k.observed, main, args, inputs),
                    Run(Slice(k, p), k.observed, main, args, inputs'))
    ensures |inputs'| <= |inputs|
  {
    if inputs == [] {
      StartsRelated(p, k, main, args);
      inputs' := [];
    } else {
      var n := |inputs| - 1;
      FreshPrefix(p, k, main, args, inputs);
      inputs' := RunsStayRelated(p, k, main, args, inputs[..n]);
      var s, r := Run(p, k.observed, main, args, inputs[..n]), Run(Slice(k, p), k.observed, main, args, inputs');
      var stale := Stale(p, k, main, args, inputs[..n]);
      if s.stack != [] {
        if s.Top().rest != [] {
          InstStep(p, k, stale, s, r, inputs[n]);
        } else {
          TermStep(p, k, stale, s, r, inputs[n]);
        }
      }
      if SliceSteps(p, k, s, r) {
        assert (inputs' + [inputs[n]])[..|inputs'|] == inputs';
        inputs' := inputs' + [inputs[n]];
      }
    }
  }

  lemma FreshPrefix(p: Program, k: Marks, main: Fn, args: seq<int>, inputs: seq<int>)
    requires FreshLoads(p, k, main, args, inputs) && inputs != []
    ensures FreshLoads(p, k, main, args, inputs[..|inputs| - 1])
    ensures Fresh(k, Run(p, k.observed, main, args, inputs[..|inputs| - 1]), Stale(p, k, main, args, inputs[..|inputs| - 1]))
  {
    var before := inputs[..|inputs| - 1];
    forall n | 0 <= n < |before|
      ensures Fresh(k, Run(p, k.observed, main, args, before[..n]), Stale(p, k, main, args, before[..n]))
    {
      assert before[..n] == inputs[..n];
    }
  }

  /** For every run of the program there is a run of the slice, of at most as many steps, that makes
      the same observed calls, in the same order and with the same arguments; when the program has
      ended, so has the slice. */
  lemma SliceObservesTheSame(p: Program, k: Marks, main: Fn, args: seq<int>, inputs: seq<int>) returns (inputs': seq<int>)
    requires WellFormed(p) && Closed(p, k) && Has(p, main, ENTRY) && main in k.copied
    requires FreshLoads(p, k, main, args, inputs)
    ensures var s, r := Run(p, k.observed, main, args, inputs), Run(Slice(k, p), k.observed, main, args, inputs');
            r.trace == s.trace && (s.stack == [] ==> r.stack == []) && |inputs'| <= |inputs|
  {
    inputs' := RunsStayRelated(p, k, main, args, inputs);
  }
}
