/**
The slice observes what the program observes.  The marks are closed under what the taint analysis
closes them under; every run of the program is then matched by a run of the pruned copies that makes
the same observed calls with the same arguments.
*/
module Correspondence {
  import opened Program
  import opened Pruning

  // ---------------------------------------------------------------- what the analysis closes over

  /** Literals need no computation. */
  ghost predicate Avail(k: Marks, v: Value) {
    v.Lit? || v in k.needed
  }

  ghost predicate AllAvail(k: Marks, vs: seq<Value>) {
    forall j :: 0 <= j < |vs| ==> Avail(k, vs[j])
  }

  /** An included instruction needs its operands.  A call needs the arguments of needed parameters. */
  ghost predicate OperandsOk(k: Marks, i: Inst) {
    match i
    case Compute(_, _, args) => AllAvail(k, args)
    case Load(_, ptr) => Avail(k, ptr)
    case Store(_, ptr, val) => Avail(k, ptr) && Avail(k, val)
    case Extern(_, args) => AllAvail(k, args)
    case Call(_, g, args) =>
      g in k.copied && forall j :: 0 <= j < |args| && Param(g, j) in k.needed ==> args[j] in k.needed
  }

  /** A needed result needs every return of the callee. */
  ghost predicate ReturnsKept(p: Program, k: Marks, g: Fn) {
    forall b :: Has(p, g, b) && p[g][b].term.Ret? ==> Keeps(k, p[g][b].term.site)
  }

  /** What is closed under its callers: observed calls, and with a function every call of it. */
  ghost predicate EverywhereOk(k: Marks, f: Fn, i: Inst) {
    (i.Extern? && i.site in k.observed) || (i.Call? && i.callee in k.everywhere) ==>
      Keeps(k, i.site) && f in k.everywhere
  }

  ghost predicate InstOk(p: Program, k: Marks, f: Fn, i: Inst) {
    && (Keeps(k, i.site) ==> OperandsOk(k, i))
    && (i.Call? && Res(i.site) in k.needed ==> ReturnsKept(p, k, i.callee))
    && EverywhereOk(k, f, i)
  }

  ghost predicate PhisOk(k: Marks, phis: map<Site, Phi>) {
    forall site, b :: site in phis && Keeps(k, site) && b in phis[site] ==> Avail(k, phis[site][b])
  }

  ghost predicate TermOk(k: Marks, t: Term) {
    Keeps(k, t.site) ==> (t.Switch? ==> Avail(k, t.cond)) && (t.Ret? ==> Avail(k, t.val))
  }

  /** Some instruction of the block is included. */
  ghost predicate HasKept(k: Marks, bb: BB) {
    Keeps(k, bb.term.site) || (exists i :: i in bb.insts && Keeps(k, i.site)) || (exists site :: site in bb.phis && Keeps(k, site))
  }

  /** The terminators of all predecessors of a block with an included instruction are included. */
  ghost predicate FlowOk(p: Program, k: Marks, f: Fn, bb: BB) {
    forall b {:trigger HasKept(k, Code(p, f, b))} :: b in Succs(bb.term) && HasKept(k, Code(p, f, b)) ==> Keeps(k, bb.term.site)
  }

  ghost predicate BlockOk(p: Program, k: Marks, f: Fn, bb: BB) {
    && (forall i {:trigger InstOk(p, k, f, i)} :: i in bb.insts ==> InstOk(p, k, f, i))
    && PhisOk(k, bb.phis) && TermOk(k, bb.term) && FlowOk(p, k, f, bb)
  }

  ghost predicate Closed(p: Program, k: Marks) {
    k.needed <= k.values && forall f, b {:trigger BlockOk(p, k, f, p[f][b])} :: Has(p, f, b) ==> BlockOk(p, k, f, p[f][b])
  }

  // ---------------------------------------------------------------- the slice is complete

  /** The values that an instruction uses. */
  function UsedBy(i: Inst): seq<Value> {
    match i
    case Compute(_, _, args) => args
    case Load(_, ptr) => [ptr]
    case Store(_, ptr, val) => [ptr, val]
    case Call(_, _, args) => args
    case Extern(_, args) => args
  }

  predicate IsIncluded(k: Marks, v: Value) {
    v.Lit? || v in k.values
  }

  /** No phi, instruction or terminator uses a value that is not included. */
  ghost predicate UsesIncluded(k: Marks, bb: BB) {
    && (forall x, b :: x in bb.phis && b in bb.phis[x] ==> IsIncluded(k, bb.phis[x][b]))
    && (forall i, v :: i in bb.insts && v in UsedBy(i) ==> IsIncluded(k, v))
    && (bb.term.Switch? ==> IsIncluded(k, bb.term.cond)) && (bb.term.Ret? ==> IsIncluded(k, bb.term.val))
  }

  lemma KeptUsesIncluded(p: Program, k: Marks, f: Fn, i: Inst, i': Inst)
    requires k.needed <= k.values && InstOk(p, k, f, i) && Keeps(k, i.site) && IsNulled(k, i, i')
    ensures forall v :: v in UsedBy(i') ==> IsIncluded(k, v)
  {
  }

  /** The slice uses no value whose instruction is not in the slice. */
  lemma SliceUsesIncluded(p: Program, k: Marks, f: Fn, b: Block)
    requires Closed(p, k) && Has(Slice(k, p), f, b)
    ensures UsesIncluded(k, Slice(k, p)[f][b])
  {
    var bb, sliced := p[f][b], Slice(k, p)[f][b];
    assert BlockOk(p, k, f, bb);
    SlicedIsIncluded(k, bb.insts);
    forall i', v | i' in sliced.insts && v in UsedBy(i')
      ensures IsIncluded(k, v)
    {
      assert ComesFrom(k, bb.insts, i');
      var i :| i in bb.insts && Keeps(k, i.site) && IsNulled(k, i, i');
      KeptUsesIncluded(p, k, f, i, i');
    }
  }

  /** The slice is a program: it has the copied functions only, which call each other, and its branches have
      targets. */
  lemma SliceIsComplete(p: Program, k: Marks)
    requires Closed(p, k) && WellFormed(p)
    ensures Slice(k, p).Keys == p.Keys * k.copied && WellFormed(Slice(k, p))
    ensures forall f, b :: Has(Slice(k, p), f, b) <==> Has(p, f, b) && f in k.copied
  {
    var q := Slice(k, p);
    forall f, b | Has(q, f, b)
      ensures BlockFormed(q, f, q[f][b])
    {
      assert BlockOk(p, k, f, p[f][b]) && BlockFormed(p, f, p[f][b]);
      SlicedIsIncluded(k, p[f][b].insts);
      forall i' | i' in q[f][b].insts && i'.Call?
        ensures Has(q, i'.callee, ENTRY)
      {
        assert ComesFrom(k, p[f][b].insts, i');
        var i :| i in p[f][b].insts && Keeps(k, i.site) && IsNulled(k, i, i');
        assert InstOk(p, k, f, i) && i.Call? && i.callee == i'.callee;
      }
    }
  }

  // ---------------------------------------------------------------- stale memory

  /** Every activation was started by an included call, so the slice has it too. */
  ghost predicate Replicated(k: Marks, st: seq<Frame>) {
    |st| <= 1 || (Keeps(k, st[|st| - 1].from) && Replicated(k, st[..|st| - 1]))
  }

  /** The addresses that were last written by a store which the slice does not execute. */
  ghost function StaleStep(k: Marks, s: State, stale: set<Addr>): set<Addr> {
    if s.stack == [] || s.Top().rest == [] || !s.Top().rest[0].Store? then stale
    else
      var i := s.Top().rest[0];
      var a := Look(s.Top(), i.ptr);
      if Replicated(k, s.stack) && Keeps(k, i.site) then stale - {a} else stale + {a}
  }

  ghost function Stale(p: Program, k: Marks, main: Fn, args: seq<int>, inputs: seq<int>): set<Addr> {
    if inputs == [] then {}
    else
      var before := inputs[..|inputs| - 1];
      StaleStep(k, Run(p, k.observed, main, args, before), Stale(p, k, main, args, before))
  }

  /** A load that the slice is about to execute reads nothing stale. */
  ghost predicate Fresh(k: Marks, s: State, stale: set<Addr>) {
    s.stack != [] && s.Top().rest != [] && s.Top().rest[0].Load? && Keeps(k, s.Top().rest[0].site) && Replicated(k, s.stack) ==>
      Look(s.Top(), s.Top().rest[0].ptr) !in stale
  }

  ghost predicate FreshLoads(p: Program, k: Marks, main: Fn, args: seq<int>, inputs: seq<int>) {
    forall n :: 0 <= n < |inputs| ==>
      Fresh(k, Run(p, k.observed, main, args, inputs[..n]), Stale(p, k, main, args, inputs[..n]))
  }

  // ---------------------------------------------------------------- how states of both correspond

  ghost predicate SameValues(k: Marks, a: Frame, b: Frame) {
    forall v {:trigger Look(a, v)} {:trigger Look(b, v)} :: v in k.needed ==> Look(a, v) == Look(b, v)
  }

  /** The slice is at the same place. */
  ghost predicate Matches(k: Marks, a: Frame, b: Frame) {
    && a.f == b.f && a.b == b.b && a.from == b.from && a.f in k.copied
    && b.rest == SlicedInsts(k, a.rest) && SameValues(k, a, b)
  }

  /** The slice is about to return, the program is in code that is not included. */
  ghost predicate Tail(p: Program, k: Marks, a: Frame, b: Frame) {
    && a.f == b.f && a.from == b.from && b.f in k.copied
    && Has(p, b.f, b.b) && b.rest == [] && Code(p, b.f, b.b).term.Switch? && !Keeps(k, Code(p, b.f, b.b).term.site)
    && !HasKept(k, Code(p, a.f, a.b))
  }

  /** An activation that the slice does not have: nothing in it is observed. */
  ghost predicate Quiet(p: Program, k: Marks, a: Frame) {
    a.f !in k.everywhere || !HasKept(k, Code(p, a.f, a.b))
  }

  ghost predicate IsCalled(p: Program, from: Site, g: Fn) {
    exists f, b, i :: Has(p, f, b) && i in p[f][b].insts && i.Call? && i.site == from && i.callee == g
  }

  ghost predicate FrameOk(p: Program, fr: Frame) {
    Has(p, fr.f, fr.b) && forall i {:trigger i in fr.rest} :: i in fr.rest ==> i in p[fr.f][fr.b].insts
  }

  ghost predicate StackOk(p: Program, st: seq<Frame>) {
    st == [] ||
    (var fr := st[|st| - 1];
     FrameOk(p, fr) && (|st| > 1 ==> IsCalled(p, fr.from, fr.f)) && StackOk(p, st[..|st| - 1]))
  }

  ghost predicate AllMatch(k: Marks, a: seq<Frame>, b: seq<Frame>) {
    |a| == |b| && (a == [] || (Matches(k, a[|a| - 1], b[|b| - 1]) && AllMatch(k, a[..|a| - 1], b[..|b| - 1])))
  }

  ghost predicate Corresponds(p: Program, k: Marks, a: seq<Frame>, b: seq<Frame>) {
    if a == [] then b == []
    else
      var n := |a| - 1;
      if Replicated(k, a) then
        && b != [] && (Matches(k, a[n], b[|b| - 1]) || Tail(p, k, a[n], b[|b| - 1]))
        && AllMatch(k, a[..n], b[..|b| - 1])
      else Quiet(p, k, a[n]) && Corresponds(p, k, a[..n], b)
  }

  ghost predicate SameMemory(a: State, b: State, stale: set<Addr>) {
    forall x :: x !in stale ==> Get(a.mem, x) == Get(b.mem, x)
  }

  ghost predicate Related(p: Program, k: Marks, stale: set<Addr>, a: State, b: State) {
    a.trace == b.trace && SameMemory(a, b, stale) && StackOk(p, a.stack) && Corresponds(p, k, a.stack, b.stack)
  }

  lemma CodeOfSlice(p: Program, k: Marks, f: Fn, b: Block)
    requires f in k.copied && Has(p, f, b)
    ensures Code(Slice(k, p), f, b) == SlicedBlock(k, Code(p, f, b))
  {
  }

  // ---------------------------------------------------------------- replacing, pushing and popping frames

  lemma ReplicatedTop(k: Marks, below: seq<Frame>, x: Frame, y: Frame)
    requires x.from == y.from
    ensures Replicated(k, below + [x]) <==> Replicated(k, below + [y])
  {
    assert (below + [x])[..|below|] == below == (below + [y])[..|below|];
  }

  lemma TopOk(p: Program, st: seq<Frame>, x: Frame)
    requires StackOk(p, st) && st != [] && FrameOk(p, x)
    requires x.f == st[|st| - 1].f && x.from == st[|st| - 1].from
    ensures StackOk(p, st[..|st| - 1] + [x])
  {
    var below := st[..|st| - 1];
    assert (below + [x])[..|below|] == below;
  }

  lemma PushOk(p: Program, st: seq<Frame>, x: Frame)
    requires StackOk(p, st) && st != [] && FrameOk(p, x) && IsCalled(p, x.from, x.f)
    ensures StackOk(p, st + [x])
  {
    assert (st + [x])[..|st|] == st;
  }

  lemma QuietTop(p: Program, k: Marks, a: seq<Frame>, b: seq<Frame>, x: Frame)
    requires a != [] && !Replicated(k, a) && Corresponds(p, k, a, b)
    requires x.from == a[|a| - 1].from && Quiet(p, k, x)
    ensures Corresponds(p, k, a[..|a| - 1] + [x], b) && !Replicated(k, a[..|a| - 1] + [x])
  {
    var below := a[..|a| - 1];
    assert a == below + [a[|a| - 1]];
    ReplicatedTop(k, below, x, a[|a| - 1]);
    assert (below + [x])[..|below|] == below;
  }

  lemma MatchedTop(p: Program, k: Marks, a: seq<Frame>, b: seq<Frame>, x: Frame, y: Frame)
    requires a != [] && Replicated(k, a) && Corresponds(p, k, a, b)
    requires x.from == a[|a| - 1].from && (Matches(k, x, y) || Tail(p, k, x, y))
    ensures b != [] && Corresponds(p, k, a[..|a| - 1] + [x], b[..|b| - 1] + [y])
    ensures Replicated(k, a[..|a| - 1] + [x])
  {
    var below := a[..|a| - 1];
    assert a == below + [a[|a| - 1]];
    ReplicatedTop(k, below, x, a[|a| - 1]);
    assert (below + [x])[..|below|] == below;
    assert (b[..|b| - 1] + [y])[..|b| - 1] == b[..|b| - 1];
  }

  lemma SkippedTop(p: Program, k: Marks, a: seq<Frame>, b: seq<Frame>, x: Frame)
    requires a != [] && Replicated(k, a) && Corresponds(p, k, a, b) && b != []
    requires x.from == a[|a| - 1].from && (Matches(k, x, b[|b| - 1]) || Tail(p, k, x, b[|b| - 1]))
    ensures Corresponds(p, k, a[..|a| - 1] + [x], b)
  {
    MatchedTop(p, k, a, b, x, b[|b| - 1]);
    assert b[..|b| - 1] + [b[|b| - 1]] == b;
  }

  lemma PushQuiet(p: Program, k: Marks, a: seq<Frame>, b: seq<Frame>, x: Frame)
    requires a != [] && Corresponds(p, k, a, b) && Quiet(p, k, x)
    requires !Replicated(k, a) || !Keeps(k, x.from)
    ensures Corresponds(p, k, a + [x], b)
  {
    assert (a + [x])[..|a|] == a;
    assert !Replicated(k, a + [x]);
  }

  /** A call that both make. */
  lemma PushMatched(p: Program, k: Marks, a: seq<Frame>, b: seq<Frame>, x: Frame, y: Frame)
    requires a != [] && b != [] && Replicated(k, a) && Corresponds(p, k, a, b) && Matches(k, a[|a| - 1], b[|b| - 1])
    requires Keeps(k, x.from) && Matches(k, x, y)
    ensures Corresponds(p, k, a + [x], b + [y])
  {
    assert (a + [x])[..|a|] == a && (b + [y])[..|b|] == b;
    assert Replicated(k, a + [x]);
    assert AllMatch(k, a, b);
  }

  lemma TwoOnTop(below: seq<Frame>, x: Frame, y: Frame)
    ensures below + [x, y] == below + [x] + [y]
  {
  }

  /** A call in a frame that only the program has. */
  lemma QuietCall(p: Program, k: Marks, a: seq<Frame>, b: seq<Frame>, x: Frame, act: Frame)
    requires a != [] && !Replicated(k, a) && Corresponds(p, k, a, b)
    requires x.from == a[|a| - 1].from && Quiet(p, k, x) && Quiet(p, k, act)
    ensures Corresponds(p, k, a[..|a| - 1] + [x, act], b)
  {
    var mid := a[..|a| - 1] + [x];
    assert Corresponds(p, k, mid, b) && !Replicated(k, mid) && mid != [] by {
      QuietTop(p, k, a, b, x);
    }
    assert Corresponds(p, k, mid + [act], b) by {
      PushQuiet(p, k, mid, b, act);
    }
    TwoOnTop(a[..|a| - 1], x, act);
  }

  /** A call that the slice leaves out. */
  lemma SkippedCall(p: Program, k: Marks, a: seq<Frame>, b: seq<Frame>, x: Frame, act: Frame)
    requires a != [] && Replicated(k, a) && Corresponds(p, k, a, b) && b != []
    requires x.from == a[|a| - 1].from && (Matches(k, x, b[|b| - 1]) || Tail(p, k, x, b[|b| - 1]))
    requires Quiet(p, k, act) && !Keeps(k, act.from)
    ensures Corresponds(p, k, a[..|a| - 1] + [x, act], b)
  {
    var mid := a[..|a| - 1] + [x];
    assert Corresponds(p, k, mid, b) && mid != [] by {
      SkippedTop(p, k, a, b, x);
    }
    assert Corresponds(p, k, mid + [act], b) by {
      PushQuiet(p, k, mid, b, act);
    }
    TwoOnTop(a[..|a| - 1], x, act);
  }

  /** A call that both make. */
  lemma MatchedCall(p: Program, k: Marks, a: seq<Frame>, b: seq<Frame>, x: Frame, act: Frame, y: Frame, act': Frame)
    requires a != [] && Replicated(k, a) && Corresponds(p, k, a, b) && b != []
    requires x.from == a[|a| - 1].from && Matches(k, x, y) && Matches(k, act, act') && Keeps(k, act.from)
    ensures Corresponds(p, k, a[..|a| - 1] + [x, act], b[..|b| - 1] + [y, act'])
  {
    var mid, mid' := a[..|a| - 1] + [x], b[..|b| - 1] + [y];
    assert Corresponds(p, k, mid, mid') && Replicated(k, mid) by {
      MatchedTop(p, k, a, b, x, y);
    }
    assert mid[|mid| - 1] == x && mid'[|mid'| - 1] == y;
    assert Corresponds(p, k, mid + [act], mid' + [act']) by {
      PushMatched(p, k, mid, mid', act, act');
    }
    TwoOnTop(a[..|a| - 1], x, act);
    TwoOnTop(b[..|b| - 1], y, act');
  }

  lemma SetUnneeded(k: Marks, x: Frame, y: Frame, site: Site, n: int)
    requires SameValues(k, x, y) && Res(site) !in k.needed
    ensures SameValues(k, Set(x, site, n), y) && SameValues(k, x, Set(y, site, n))
  {
    forall v | v in k.needed
      ensures Look(Set(x, site, n), v) == Look(x, v) && Look(Set(y, site, n), v) == Look(y, v)
    {
      assert v != Res(site);
    }
  }

  lemma SetBoth(k: Marks, x: Frame, y: Frame, site: Site, m: int, n: int)
    requires SameValues(k, x, y) && (m == n || Res(site) !in k.needed)
    ensures SameValues(k, Set(x, site, m), Set(y, site, n))
  {
    forall v | v in k.needed
      ensures Look(Set(x, site, m), v) == Look(Set(y, site, n), v)
    {
      assert Look(x, v) == Look(y, v);
    }
  }

  /** A frame that only the program has returns. */
  lemma ReturnQuiet(p: Program, k: Marks, a: seq<Frame>, b: seq<Frame>, n: int)
    requires a != [] && !Replicated(k, a) && Corresponds(p, k, a, b) && k.needed <= k.values
    ensures Corresponds(p, k, Return(a[..|a| - 1], a[|a| - 1].from, n), b)
  {
    var below, from := a[..|a| - 1], a[|a| - 1].from;
    var caller := below[|below| - 1];
    if Replicated(k, below) {
      UnneededReturn(p, k, caller, b[|b| - 1], from, n);
      SkippedTop(p, k, below, b, Set(caller, from, n));
    } else {
      QuietTop(p, k, below, b, Set(caller, from, n));
    }
  }

  lemma UnneededReturn(p: Program, k: Marks, x: Frame, y: Frame, site: Site, n: int)
    requires (Matches(k, x, y) || Tail(p, k, x, y)) && Res(site) !in k.needed
    ensures Matches(k, Set(x, site, n), y) || Tail(p, k, Set(x, site, n), y)
  {
    if Matches(k, x, y) {
      SetUnneeded(k, x, y, site, n);
    }
  }

  /** A frame that both have returns. */
  lemma ReturnMatched(p: Program, k: Marks, a: seq<Frame>, b: seq<Frame>, m: int, n: int)
    requires a != [] && Replicated(k, a) && Corresponds(p, k, a, b)
    requires m == n || |a| == 1 || Res(a[|a| - 1].from) !in k.needed
    ensures b != [] && b[|b| - 1].from == a[|a| - 1].from
    ensures Corresponds(p, k, Return(a[..|a| - 1], a[|a| - 1].from, m), Return(b[..|b| - 1], a[|a| - 1].from, n))
  {
    var below, bb, from := a[..|a| - 1], b[..|b| - 1], a[|a| - 1].from;
    if below != [] {
      var x, y := below[|below| - 1], bb[|bb| - 1];
      SetBoth(k, x, y, from, m, n);
      assert Corresponds(p, k, below, bb);
      MatchedTop(p, k, below, bb, Set(x, from, m), Set(y, from, n));
    }
  }

  lemma ReturnOk(p: Program, st: seq<Frame>, n: int)
    requires StackOk(p, st) && st != []
    ensures StackOk(p, Return(st[..|st| - 1], st[|st| - 1].from, n))
  {
    var below := st[..|st| - 1];
    if below != [] {
      TopOk(p, below, Set(below[|below| - 1], st[|st| - 1].from, n));
    }
  }

  lemma EnterOk(p: Program, fr: Frame, b: Block)
    requires WellFormed(p) && FrameOk(p, fr) && b in Succs(Code(p, fr.f, fr.b).term)
    ensures FrameOk(p, Enter(p, fr, b))
  {
    assert BlockFormed(p, fr.f, p[fr.f][fr.b]);
  }

  lemma TargetIsSucc(t: Term, n: int)
    requires !t.Ret?
    ensures Target(t, n) in Succs(t)
  {
    if t.Switch? && n in t.cases {
      assert t.cases[n] in t.cases.Values;
    }
  }

  lemma StackAfterTerm(p: Program, s: State)
    requires WellFormed(p) && StackOk(p, s.stack) && s.stack != []
    ensures StackOk(p, RunTerm(p, s).stack)
  {
    var fr, t := s.Top(), Code(p, s.Top().f, s.Top().b).term;
    if t.Ret? {
      ReturnOk(p, s.stack, Look(fr, t.val));
    } else {
      var b := Target(t, Look(fr, Cond(t)));
      TargetIsSucc(t, Look(fr, Cond(t)));
      EnterOk(p, fr, b);
      TopOk(p, s.stack, Enter(p, fr, b));
    }
  }

  function Popped(fr: Frame): Frame
    requires fr.rest != []
  {
    fr.(rest := fr.rest[1..])
  }

  lemma AfterOk(p: Program, fr: Frame, mem: map<Addr, int>, input: int)
    requires FrameOk(p, fr) && fr.rest != []
    ensures FrameOk(p, Popped(fr)) && FrameOk(p, After(Popped(fr), mem, fr.rest[0], input))
    ensures fr.rest[0] in p[fr.f][fr.b].insts
  {
    assert fr.rest[0] in fr.rest;
    assert forall i :: i in fr.rest[1..] ==> i in fr.rest;
  }

  lemma CalleeOk(p: Program, fr: Frame, i: Inst, args: seq<int>)
    requires WellFormed(p) && Has(p, fr.f, fr.b) && i in p[fr.f][fr.b].insts && i.Call?
    ensures FrameOk(p, Activation(p, i.callee, args, i.site))
    ensures IsCalled(p, i.site, i.callee)
  {
    assert BlockFormed(p, fr.f, p[fr.f][fr.b]);
    assert Has(p, i.callee, ENTRY);
  }

  lemma CallStackOk(p: Program, st: seq<Frame>, fr: Frame, act: Frame)
    requires StackOk(p, st) && st != [] && FrameOk(p, fr) && FrameOk(p, act) && IsCalled(p, act.from, act.f)
    requires fr.f == st[|st| - 1].f && fr.from == st[|st| - 1].from
    ensures StackOk(p, st[..|st| - 1] + [fr, act])
  {
    var mid := st[..|st| - 1] + [fr];
    assert StackOk(p, mid) by {
      TopOk(p, st, fr);
    }
    assert mid[|mid| - 1] == fr && mid != [];
    assert StackOk(p, mid + [act]) by {
      PushOk(p, mid, act);
    }
    assert st[..|st| - 1] + [fr, act] == mid + [act];
  }

  lemma StackAfterInst(p: Program, observed: set<Site>, s: State, input: int)
    requires WellFormed(p) && StackOk(p, s.stack) && s.stack != [] && s.Top().rest != []
    ensures StackOk(p, RunInst(p, observed, s, input).stack)
  {
    var i, fr := s.Top().rest[0], Popped(s.Top());
    AfterOk(p, s.Top(), s.mem, input);
    if i.Call? {
      CalleeOk(p, s.Top(), i, LookAll(fr, i.args));
      CallStackOk(p, s.stack, fr, Activation(p, i.callee, LookAll(fr, i.args), i.site));
    } else {
      TopOk(p, s.stack, After(fr, s.mem, i, input));
    }
  }
}
