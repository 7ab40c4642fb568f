/**
Why alias classes found by unification are right.  Every value that is used as a pointer has a class,
every class says what the pointers stored in it point to, and wherever a value flows, its class stays
the same.  Then in every run that dereferences no null pointer each load and store stays in its class.
*/
module PointerKinds {
  import opened Program
  import opened Pruning
  import opened Correspondence
  import M = SliceMemory
  import O = CallOrder
  import T = TaintRules
  import V = VisitOrder
  import A = AnalysedSlice

  datatype Kind = NoPointer | PointsTo(target: nat)

  /** `of` are the classes of the values, `inside` those of the pointers stored in a class, `base` is the
      operand that pointer arithmetic starts from, and `region` says to which class the object at an
      address belongs. */
  datatype Kinds = Kinds(of: Value -> Kind, inside: nat -> Kind, base: Site -> nat, region: Addr -> nat)

  predicate Fits(t: Kinds, k: Kind, n: int) {
    k.PointsTo? && n != 0 ==> t.region(n) == k.target
  }

  /** The value may be used where one of kind k is expected. */
  predicate HasKind(t: Kinds, v: Value, k: Kind) {
    k.PointsTo? ==> if v.Lit? then Fits(t, k, v.n) else t.of(v) == k
  }

  // ---------------------------------------------------------------- programs that respect the classes

  /** Pointer arithmetic keeps the class; loads and stores go through pointers of their class. */
  ghost predicate KindedInst(t: Kinds, i: Inst, cls: Site -> nat) {
    match i
    case Compute(site, op, args) =>
      t.of(Res(site)).PointsTo? ==> t.base(site) < |args| && HasKind(t, args[t.base(site)], t.of(Res(site)))
    case Load(site, ptr) =>
      HasKind(t, ptr, PointsTo(cls(site))) && (t.of(Res(site)).PointsTo? ==> t.of(Res(site)) == t.inside(cls(site)))
    case Store(site, ptr, val) => HasKind(t, ptr, PointsTo(cls(site))) && HasKind(t, val, t.inside(cls(site)))
    case Extern(_, _) => true
    case Call(_, g, args) => forall j :: 0 <= j < |args| ==> HasKind(t, args[j], t.of(Param(g, j)))
  }

  /** What a function returns has the kind of the result of its calls. */
  ghost predicate KindedCall(t: Kinds, p: Program, i: Inst) {
    i.Call? ==> forall b :: Has(p, i.callee, b) && p[i.callee][b].term.Ret? ==>
      HasKind(t, p[i.callee][b].term.val, t.of(Res(i.site)))
  }

  ghost predicate KindedBlock(t: Kinds, p: Program, bb: BB, cls: Site -> nat) {
    && (forall i {:trigger KindedInst(t, i, cls)} :: i in bb.insts ==> KindedInst(t, i, cls) && KindedCall(t, p, i))
    && (forall x, b :: x in bb.phis && b in bb.phis[x] ==> HasKind(t, bb.phis[x][b], t.of(Res(x))))
  }

  ghost predicate IsKinded(t: Kinds, p: Program, cls: Site -> nat) {
    forall f, b {:trigger KindedBlock(t, p, p[f][b], cls)} :: Has(p, f, b) ==> KindedBlock(t, p, p[f][b], cls)
  }

  // ---------------------------------------------------------------- runs keep to the classes

  /** Pointer arithmetic stays in the object that it starts from. */
  predicate StaysInObject(t: Kinds, base: int, n: int) {
    n != 0 ==> base != 0 && t.region(n) == t.region(base)
  }

  /** What the run itself has to see to: pointers do not leave their objects, no null pointer is
      dereferenced, and a library function that returns a pointer, as an allocation does, returns null or
      an object of the class. */
  ghost predicate IsSane(t: Kinds, s: State, input: int) {
    s.stack != [] && s.Top().rest != [] ==>
      match s.Top().rest[0]
      case Compute(site, op, args) =>
        t.of(Res(site)).PointsTo? && t.base(site) < |args| ==>
          StaysInObject(t, Look(s.Top(), args[t.base(site)]), op(LookAll(s.Top(), args)))
      case Load(_, ptr) => Look(s.Top(), ptr) != 0
      case Store(_, ptr, _) => Look(s.Top(), ptr) != 0
      case Extern(site, _) => Fits(t, t.of(Res(site)), input)
      case _ => true
  }

  ghost predicate SaneRun(t: Kinds, p: Program, observed: set<Site>, main: Fn, args: seq<int>, inputs: seq<int>) {
    && (forall j :: 0 <= j < |args| ==> Fits(t, t.of(Param(main, j)), args[j]))
    && forall n {:trigger inputs[n]} :: 0 <= n < |inputs| ==> IsSane(t, Run(p, observed, main, args, inputs[..n]), inputs[n])
  }

  ghost predicate KindedFrame(t: Kinds, fr: Frame) {
    && (forall x :: x in fr.regs ==> Fits(t, t.of(Res(x)), fr.regs[x]))
    && (forall j :: 0 <= j < |fr.args| ==> Fits(t, t.of(Param(fr.f, j)), fr.args[j]))
  }

  ghost predicate KindedMemory(t: Kinds, mem: map<Addr, int>) {
    forall a :: a in mem ==> Fits(t, t.inside(t.region(a)), mem[a])
  }

  ghost predicate KindedState(t: Kinds, s: State) {
    KindedMemory(t, s.mem) && forall fr {:trigger KindedFrame(t, fr)} :: fr in s.stack ==> KindedFrame(t, fr)
  }

  lemma LookFits(t: Kinds, fr: Frame, v: Value, k: Kind)
    requires KindedFrame(t, fr) && HasKind(t, v, k)
    ensures Fits(t, k, Look(fr, v))
  {
  }

  lemma SetFits(t: Kinds, fr: Frame, site: Site, n: int)
    requires KindedFrame(t, fr) && Fits(t, t.of(Res(site)), n)
    ensures KindedFrame(t, Set(fr, site, n))
  {
  }

  /** The top frame is replaced. */
  lemma TopFits(t: Kinds, s: State, fr: Frame, mem: map<Addr, int>, trace: seq<Event>)
    requires KindedState(t, s) && s.stack != [] && KindedFrame(t, fr) && KindedMemory(t, mem)
    ensures KindedState(t, State(s.Below() + [fr], mem, trace))
  {
  }

  lemma AccessInClass(t: Kinds, fr: Frame, i: Inst, cls: Site -> nat)
    requires KindedFrame(t, fr) && (i.Load? || i.Store?) && KindedInst(t, i, cls) && Look(fr, i.ptr) != 0
    ensures t.region(Look(fr, i.ptr)) == cls(i.site)
  {
    LookFits(t, fr, i.ptr, PointsTo(cls(i.site)));
  }

  lemma InstFits(t: Kinds, s: State, i: Inst, cls: Site -> nat, input: int)
    requires KindedState(t, s) && s.stack != [] && s.Top().rest != [] && s.Top().rest[0] == i && !i.Call?
    requires KindedInst(t, i, cls) && IsSane(t, s, input)
    ensures KindedFrame(t, After(Popped(s.Top()), s.mem, i, input)) && KindedMemory(t, Written(Popped(s.Top()), s.mem, i))
  {
    var fr := Popped(s.Top());
    assert KindedFrame(t, s.Top());
    assert KindedFrame(t, fr);
    match i
    case Compute(site, op, args) =>
      if t.of(Res(site)).PointsTo? {
        LookFits(t, fr, args[t.base(site)], t.of(Res(site)));
        assert LookAll(fr, args) == LookAll(s.Top(), args);
      }
    case Load(site, ptr) => AccessInClass(t, fr, i, cls);
    case Store(site, ptr, val) =>
      AccessInClass(t, fr, i, cls);
      LookFits(t, fr, val, t.inside(cls(site)));
    case Extern(site, args) =>
  }

  lemma CallFits(t: Kinds, p: Program, s: State, i: Inst, cls: Site -> nat, fr: Frame)
    requires KindedState(t, s) && s.stack != [] && s.Top().rest != [] && fr == Popped(s.Top()) && i.Call? && KindedInst(t, i, cls)
    ensures KindedState(t, s.(stack := s.Below() + [fr, Activation(p, i.callee, LookAll(fr, i.args), i.site)]))
  {
    assert KindedFrame(t, s.Top());
    assert KindedFrame(t, fr);
    var act := Activation(p, i.callee, LookAll(fr, i.args), i.site);
    forall j | 0 <= j < |act.args|
      ensures Fits(t, t.of(Param(act.f, j)), act.args[j])
    {
      LookFits(t, fr, i.args[j], t.of(Param(i.callee, j)));
    }
    assert KindedFrame(t, act);
  }

  lemma EnterFits(t: Kinds, p: Program, fr: Frame, b: Block, cls: Site -> nat)
    requires IsKinded(t, p, cls) && KindedFrame(t, fr) && Has(p, fr.f, b)
    ensures KindedFrame(t, Enter(p, fr, b))
  {
    assert KindedBlock(t, p, p[fr.f][b], cls);
    var phis := p[fr.f][b].phis;
    forall x | x in phis
      ensures Fits(t, t.of(Res(x)), PhiValues(fr, phis)[x])
    {
      LookFits(t, fr, Incoming(phis[x], fr.b), t.of(Res(x)));
    }
  }

  /** The result of a function goes where a call of it was made. */
  lemma ReturnFits(t: Kinds, p: Program, s: State, cls: Site -> nat)
    requires IsKinded(t, p, cls) && KindedState(t, s) && |s.stack| > 1 && Has(p, s.Top().f, s.Top().b)
    requires IsCalled(p, s.Top().from, s.Top().f) && p[s.Top().f][s.Top().b].term.Ret?
    ensures KindedState(t, s.(stack := Return(s.Below(), s.Top().from, Look(s.Top(), p[s.Top().f][s.Top().b].term.val))))
  {
    var fr, below := s.Top(), s.Below();
    var val := p[fr.f][fr.b].term.val;
    var f, b, i :| Has(p, f, b) && i in p[f][b].insts && i.Call? && i.site == fr.from && i.callee == fr.f;
    assert KindedBlock(t, p, p[f][b], cls) && KindedInst(t, i, cls);
    LookFits(t, fr, val, t.of(Res(fr.from)));
    assert below[|below| - 1] in s.stack;
    SetFits(t, below[|below| - 1], fr.from, Look(fr, val));
  }

  lemma StepFits(t: Kinds, g: O.Cfg, p: Program, observed: set<Site>, s: State, input: int, cls: Site -> nat)
    requires IsKinded(t, p, cls) && KindedState(t, s) && IsSane(t, s, input)
    requires WellFormed(p) && M.Describes(g, p) && (s.stack != [] ==> M.Placed(g, p, s.stack))
    ensures KindedState(t, Step(p, observed, s, input))
  {
    if s.stack != [] {
      var fr := s.Top();
      if fr.rest != [] {
        M.NextSite(g, p, fr);
        assert KindedBlock(t, p, p[fr.f][fr.b], cls) && KindedInst(t, fr.rest[0], cls);
        if fr.rest[0].Call? {
          CallFits(t, p, s, fr.rest[0], cls, Popped(fr));
        } else {
          InstFits(t, s, fr.rest[0], cls, input);
          TopFits(t, s, After(Popped(fr), s.mem, fr.rest[0], input), Written(Popped(fr), s.mem, fr.rest[0]),
                  s.trace + Emitted(Popped(fr), observed, fr.rest[0]));
        }
      } else {
        TermFits(t, g, p, s, cls);
      }
    }
  }

  lemma TermFits(t: Kinds, g: O.Cfg, p: Program, s: State, cls: Site -> nat)
    requires IsKinded(t, p, cls) && KindedState(t, s) && s.stack != [] && s.Top().rest == []
    requires WellFormed(p) && M.Placed(g, p, s.stack)
    ensures KindedState(t, RunTerm(p, s))
  {
    var fr := s.Top();
    var term := p[fr.f][fr.b].term;
    assert BlockFormed(p, fr.f, p[fr.f][fr.b]) && KindedFrame(t, fr);
    if !term.Ret? {
      TargetIsSucc(term, Look(fr, Cond(term)));
      EnterFits(t, p, fr, Target(term, Look(fr, Cond(term))), cls);
      TopFits(t, s, Enter(p, fr, Target(term, Look(fr, Cond(term)))), s.mem, s.trace);
    } else if |s.stack| > 1 {
      ReturnFits(t, p, s, cls);
    }
  }

  /** Subject reduction: every state of a sane run is kinded. */
  lemma {:induction false} RunFits(t: Kinds, g: O.Cfg, p: Program, observed: set<Site>, main: Fn, args: seq<int>,
                                   inputs: seq<int>, cls: Site -> nat)
    requires IsKinded(t, p, cls) && WellFormed(p) && M.Describes(g, p) && Has(p, main, ENTRY)
    requires SaneRun(t, p, observed, main, args, inputs)
    ensures KindedState(t, Run(p, observed, main, args, inputs))
  {
    if inputs == [] {
      assert KindedFrame(t, Activation(p, main, args, 0));
    } else {
      var n := |inputs| - 1;
      var s := Run(p, observed, main, args, inputs[..n]);
      forall m | 0 <= m < n
        ensures IsSane(t, Run(p, observed, main, args, inputs[..n][..m]), inputs[..n][m])
      {
        assert inputs[..n][..m] == inputs[..m] && inputs[..n][m] == inputs[m];
      }
      RunFits(t, g, p, observed, main, args, inputs[..n], cls);
      if s.stack != [] {
        M.RunIsWalk(g, p, observed, main, args, inputs[..n]);
      }
      StepFits(t, g, p, observed, s, inputs[n], cls);
    }
  }

  /** Then every load and store of the run is in its class. */
  lemma KindedRespects(t: Kinds, g: O.Cfg, p: Program, k: Marks, main: Fn, args: seq<int>, inputs: seq<int>, cls: Site -> nat)
    requires IsKinded(t, p, cls) && WellFormed(p) && M.Describes(g, p) && Has(p, main, ENTRY)
    requires SaneRun(t, p, k.observed, main, args, inputs)
    ensures M.Respects(p, k, main, args, inputs, cls, t.region)
  {
    forall n | 0 <= n < |inputs|
      ensures M.InClass(Run(p, k.observed, main, args, inputs[..n]), cls, t.region)
    {
      var s := Run(p, k.observed, main, args, inputs[..n]);
      forall m | 0 <= m < n
        ensures IsSane(t, Run(p, k.observed, main, args, inputs[..n][..m]), inputs[..n][m])
      {
        assert inputs[..n][..m] == inputs[..m] && inputs[..n][m] == inputs[m];
      }
      RunFits(t, g, p, k.observed, main, args, inputs[..n], cls);
      assert IsSane(t, s, inputs[n]);
      if s.stack != [] && s.Top().rest != [] && (s.Top().rest[0].Load? || s.Top().rest[0].Store?) {
        M.RunIsWalk(g, p, k.observed, main, args, inputs[..n]);
        M.NextSite(g, p, s.Top());
        assert KindedBlock(t, p, p[s.Top().f][s.Top().b], cls) && KindedFrame(t, s.Top());
        AccessInClass(t, s.Top(), s.Top().rest[0], cls);
      }
    }
  }

  /** An instruction that can do nothing wrong: its address is written in it, and it makes no pointer. */
  predicate IsFixed(t: Kinds, i: Inst) {
    match i
    case Load(_, ptr) => ptr.Lit? && ptr.n != 0
    case Store(_, ptr, _) => ptr.Lit? && ptr.n != 0
    case Call(_, _, _) => true
    case _ => !t.of(Res(i.site)).PointsTo?
  }

  lemma FixedIsSane(t: Kinds, g: O.Cfg, p: Program, observed: set<Site>, main: Fn, args: seq<int>, inputs: seq<int>)
    requires WellFormed(p) && M.Describes(g, p) && Has(p, main, ENTRY)
    requires forall f, b, i {:trigger Has(p, f, b), IsFixed(t, i)} :: Has(p, f, b) && i in p[f][b].insts ==> IsFixed(t, i)
    requires forall j :: 0 <= j < |args| ==> Fits(t, t.of(Param(main, j)), args[j])
    ensures SaneRun(t, p, observed, main, args, inputs)
  {
    forall n | 0 <= n < |inputs|
      ensures IsSane(t, Run(p, observed, main, args, inputs[..n]), inputs[n])
    {
      var s := Run(p, observed, main, args, inputs[..n]);
      if s.stack != [] && s.Top().rest != [] {
        M.RunIsWalk(g, p, observed, main, args, inputs[..n]);
        M.NextSite(g, p, s.Top());
        assert IsFixed(t, s.Top().rest[0]);
      }
    }
  }

  /** The slice is right for programs whose alias classes are right in this sense. */
  lemma KindedSliceIsRight(t: Kinds, g: O.Cfg, p: Program, r: T.Rules, toPrecompute: set<Value>, everywhere: set<Fn>,
                           k: Marks, m: T.Mode, start: T.Snapshot, order: seq<Value>, end: T.Snapshot,
                           cls: Site -> nat, main: Fn, args: seq<int>, inputs: seq<int>) returns (inputs': seq<int>)
    requires A.IsDescribed(g, p, r, everywhere, k.observed) && Has(p, main, ENTRY)
    requires A.IsTested(g, p, r, toPrecompute, everywhere, k.copied, k.observed, cls)
    requires V.IsStart(r, V.Given(toPrecompute, everywhere), start)
    requires T.Visits(m, r, start, order, end) && T.IsComplete(end)
    requires k == A.MarksOf(end.facts, everywhere, k.copied, k.observed) && main in k.copied
    requires IsKinded(t, p, cls) && SaneRun(t, p, k.observed, main, args, inputs)
    ensures var a, b := Run(p, k.observed, main, args, inputs), Run(Slice(k, p), k.observed, main, args, inputs');
            b.trace == a.trace && (a.stack == [] ==> b.stack == []) && |inputs'| <= |inputs|
  {
    KindedRespects(t, g, p, k, main, args, inputs, cls);
    inputs' := A.AnalysedSliceIsRight(g, p, r, toPrecompute, everywhere, k, m, start, order, end, cls, t.region,
                                      main, args, inputs);
  }
}
