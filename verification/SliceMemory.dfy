/**
Leaving out unimportant stores is not noticed.  A store, or a call that may store, is left out when
no included load of the same data can run after it; then the loads of the slice read nothing stale.
*/
module SliceMemory {
  import opened Program
  import opened Pruning
  import opened Correspondence
  import opened SliceSimulation
  import O = CallOrder

  // ---------------------------------------------------------------- the control flow of a program

  /** The site at position n of a block. */
  function SiteAt(bb: BB, n: nat): Site {
    if n < |bb.insts| then bb.insts[n].site else bb.term.site
  }

  predicate EdgeAt(g: O.Cfg, bb: BB, n: nat) {
    (SiteAt(bb, n), SiteAt(bb, n + 1)) in g.next
  }

  ghost predicate DescribesBlock(g: O.Cfg, p: Program, f: Fn, bb: BB) {
    && (forall n: nat {:trigger EdgeAt(g, bb, n)} :: n < |bb.insts| ==> EdgeAt(g, bb, n))
    && (forall b {:trigger Code(p, f, b)} :: b in Succs(bb.term) ==> (bb.term.site, SiteAt(Code(p, f, b), 0)) in g.next)
    && (forall i {:trigger DescribesInst(g, i)} :: i in bb.insts ==> DescribesInst(g, i))
    && !O.IsCall(g, bb.term.site) && (bb.term.Ret? ==> bb.term.site in g.exits)
  }

  ghost predicate DescribesInst(g: O.Cfg, i: Inst) {
    if i.Call? then (i.site, i.callee) in g.calls else !O.IsCall(g, i.site)
  }

  /** The graph has all the edges and calls of the program. */
  ghost predicate Describes(g: O.Cfg, p: Program) {
    && O.WellFormed(g)
    && (forall f, b {:trigger DescribesBlock(g, p, f, p[f][b])} :: Has(p, f, b) ==> DescribesBlock(g, p, f, p[f][b]))
    && (forall f :: f in p ==> g.entry(f) == SiteAt(Code(p, f, ENTRY), 0))
  }

  // ---------------------------------------------------------------- runs as walks

  /** What remains of the block is its end. */
  ghost predicate At(p: Program, fr: Frame, n: nat) {
    n <= |Code(p, fr.f, fr.b).insts| && fr.rest == Code(p, fr.f, fr.b).insts[n..]
  }

  function Current(p: Program, fr: Frame): Site {
    if fr.rest != [] then fr.rest[0].site else Code(p, fr.f, fr.b).term.site
  }

  ghost predicate FrameAt(p: Program, fr: Frame) {
    Has(p, fr.f, fr.b) && exists n: nat :: At(p, fr, n)
  }

  /** Frames below the top stand behind the call that started the frame above them. */
  ghost predicate Placed(g: O.Cfg, p: Program, st: seq<Frame>) {
    st == [] ||
    (var n := |st| - 1;
     FrameAt(p, st[n]) && Placed(g, p, st[..n]) &&
     (n > 0 ==> (st[n].from, Current(p, st[n - 1])) in g.next && IsCalled(p, st[n].from, st[n].f)))
  }

  function SiteOf(p: Program, st: seq<Frame>, j: nat): Site
    requires j < |st|
  {
    if j < |st| - 1 then st[j + 1].from else Current(p, st[j])
  }

  /** The sites that the frames are at: for each frame but the last its pending call. */
  function Sites(p: Program, st: seq<Frame>): seq<Site>
    requires st != []
    ensures |Sites(p, st)| == |st|
  {
    seq(|st|, j requires 0 <= j < |st| => SiteOf(p, st, j))
  }

  lemma SuffixHead<T>(s: seq<T>, n: nat)
    requires n < |s|
    ensures s[n..][0] == s[n] && s[n..][1..] == s[n + 1..] && s[n] in s
  {
  }

  lemma EdgeInBlock(g: O.Cfg, p: Program, f: Fn, b: Block, n: nat)
    requires Describes(g, p) && Has(p, f, b) && n < |p[f][b].insts|
    ensures EdgeAt(g, p[f][b], n)
  {
    assert DescribesBlock(g, p, f, p[f][b]);
  }

  lemma NextSiteAt(p: Program, fr: Frame, n: nat)
    requires Has(p, fr.f, fr.b) && At(p, fr, n) && fr.rest != []
    ensures var bb := p[fr.f][fr.b];
            && n < |bb.insts| && At(p, Popped(fr), n + 1) && fr.rest[0] in bb.insts
            && Current(p, fr) == SiteAt(bb, n) && Current(p, Popped(fr)) == SiteAt(bb, n + 1)
  {
    SuffixHead(p[fr.f][fr.b].insts, n);
  }

  lemma NextSite(g: O.Cfg, p: Program, fr: Frame)
    requires Describes(g, p) && FrameAt(p, fr) && fr.rest != []
    ensures (Current(p, fr), Current(p, Popped(fr))) in g.next && FrameAt(p, Popped(fr))
    ensures fr.rest[0] in p[fr.f][fr.b].insts
  {
    var n: nat :| At(p, fr, n);
    NextSiteAt(p, fr, n);
    EdgeInBlock(g, p, fr.f, fr.b, n);
  }

  lemma EnteredSite(g: O.Cfg, p: Program, fr: Frame, b: Block)
    requires WellFormed(p) && Describes(g, p) && FrameAt(p, fr) && fr.rest == [] && b in Succs(Code(p, fr.f, fr.b).term)
    ensures (Current(p, fr), Current(p, Enter(p, fr, b))) in g.next && FrameAt(p, Enter(p, fr, b))
  {
    assert BlockFormed(p, fr.f, p[fr.f][fr.b]) && DescribesBlock(g, p, fr.f, p[fr.f][fr.b]);
    assert At(p, Enter(p, fr, b), 0);
    assert Current(p, Enter(p, fr, b)) == SiteAt(Code(p, fr.f, b), 0);
  }

  lemma StartedSite(g: O.Cfg, p: Program, f: Fn, args: seq<int>, from: Site)
    requires Describes(g, p) && Has(p, f, ENTRY)
    ensures Current(p, Activation(p, f, args, from)) == g.entry(f) && FrameAt(p, Activation(p, f, args, from))
  {
    assert At(p, Activation(p, f, args, from), 0);
  }

  lemma TopPlaced(g: O.Cfg, p: Program, st: seq<Frame>, x: Frame)
    requires Placed(g, p, st) && st != [] && FrameAt(p, x) && x.f == st[|st| - 1].f && x.from == st[|st| - 1].from
    ensures Placed(g, p, st[..|st| - 1] + [x])
  {
    var below := st[..|st| - 1];
    assert (below + [x])[..|below|] == below;
  }

  /** The top frame moves along an edge, where no call is made. */
  lemma TopAdvances(g: O.Cfg, p: Program, st: seq<Frame>, x: Frame)
    requires st != [] && (Current(p, st[|st| - 1]), Current(p, x)) in g.next && !O.IsCall(g, Current(p, st[|st| - 1]))
    requires x.from == st[|st| - 1].from
    ensures O.Moves(g, Sites(p, st), Sites(p, st[..|st| - 1] + [x]))
  {
    var a, b := Sites(p, st), Sites(p, st[..|st| - 1] + [x]);
    var n := |st| - 1;
    assert a[..n] == b[..n];
    assert O.Advances(g, a, b);
  }

  lemma CallPlaced(g: O.Cfg, p: Program, st: seq<Frame>, x: Frame, act: Frame)
    requires Placed(g, p, st) && st != [] && FrameAt(p, x) && x.f == st[|st| - 1].f && x.from == st[|st| - 1].from
    requires FrameAt(p, act) && (act.from, Current(p, x)) in g.next && IsCalled(p, act.from, act.f)
    ensures Placed(g, p, st[..|st| - 1] + [x, act])
  {
    var mid := st[..|st| - 1] + [x];
    TopPlaced(g, p, st, x);
    assert (mid + [act])[..|mid|] == mid;
    assert st[..|st| - 1] + [x, act] == mid + [act];
  }

  lemma CallMoves(g: O.Cfg, p: Program, st: seq<Frame>, x: Frame, act: Frame)
    requires st != [] && x.from == st[|st| - 1].from && act.from == Current(p, st[|st| - 1])
    requires (act.from, act.f) in g.calls && Current(p, act) == g.entry(act.f)
    ensures O.Moves(g, Sites(p, st), Sites(p, st[..|st| - 1] + [x, act]))
  {
    var a, b := Sites(p, st), Sites(p, st[..|st| - 1] + [x, act]);
    assert b[..|a|] == a;
    assert O.Calls(g, a, b);
  }

  lemma SetPlaced(p: Program, fr: Frame, site: Site, n: int)
    requires FrameAt(p, fr)
    ensures FrameAt(p, Set(fr, site, n)) && Current(p, Set(fr, site, n)) == Current(p, fr)
  {
    var m: nat :| At(p, fr, m);
    assert At(p, Set(fr, site, n), m);
  }

  lemma ReturnPlaced(g: O.Cfg, p: Program, st: seq<Frame>, n: int)
    requires Placed(g, p, st) && |st| > 1
    ensures Placed(g, p, Return(st[..|st| - 1], st[|st| - 1].from, n))
  {
    var below, from := st[..|st| - 1], st[|st| - 1].from;
    SetPlaced(p, below[|below| - 1], from, n);
    TopPlaced(g, p, below, Set(below[|below| - 1], from, n));
  }

  lemma ReturnMoves(g: O.Cfg, p: Program, st: seq<Frame>, n: int)
    requires |st| > 1 && Current(p, st[|st| - 1]) in g.exits && (st[|st| - 1].from, Current(p, st[|st| - 2])) in g.next
    ensures O.Moves(g, Sites(p, st), Sites(p, Return(st[..|st| - 1], st[|st| - 1].from, n)))
  {
    var a, b := Sites(p, st), Sites(p, Return(st[..|st| - 1], st[|st| - 1].from, n));
    assert a[..|st| - 2] == b[..|st| - 2];
    assert O.Returns(g, a, b);
  }

  lemma TermMoves(g: O.Cfg, p: Program, s: State)
    requires WellFormed(p) && Describes(g, p) && Placed(g, p, s.stack) && s.stack != [] && s.Top().rest == []
    requires RunTerm(p, s).stack != []
    ensures Placed(g, p, RunTerm(p, s).stack) && O.Moves(g, Sites(p, s.stack), Sites(p, RunTerm(p, s).stack))
  {
    var fr, t := s.Top(), Code(p, s.Top().f, s.Top().b).term;
    assert DescribesBlock(g, p, fr.f, p[fr.f][fr.b]);
    if t.Ret? {
      ReturnPlaced(g, p, s.stack, Look(fr, t.val));
      ReturnMoves(g, p, s.stack, Look(fr, t.val));
    } else {
      var b := Target(t, Look(fr, Cond(t)));
      TargetIsSucc(t, Look(fr, Cond(t)));
      EnteredSite(g, p, fr, b);
      TopPlaced(g, p, s.stack, Enter(p, fr, b));
      TopAdvances(g, p, s.stack, Enter(p, fr, b));
    }
  }

  lemma AfterAt(p: Program, fr: Frame, mem: map<Addr, int>, i: Inst, input: int)
    requires FrameAt(p, fr)
    ensures FrameAt(p, After(fr, mem, i, input)) && Current(p, After(fr, mem, i, input)) == Current(p, fr)
  {
    var m: nat :| At(p, fr, m);
    assert At(p, After(fr, mem, i, input), m);
  }

  lemma NextIsDescribed(g: O.Cfg, p: Program, fr: Frame)
    requires Describes(g, p) && FrameAt(p, fr) && fr.rest != []
    ensures DescribesInst(g, fr.rest[0])
  {
    NextSite(g, p, fr);
    assert DescribesBlock(g, p, fr.f, p[fr.f][fr.b]);
  }

  lemma OtherMoves(g: O.Cfg, p: Program, observed: set<Site>, s: State, input: int)
    requires Placed(g, p, s.stack) && s.stack != [] && s.Top().rest != [] && !s.Top().rest[0].Call?
    requires FrameAt(p, Popped(s.Top())) && (Current(p, s.Top()), Current(p, Popped(s.Top()))) in g.next
    requires DescribesInst(g, s.Top().rest[0])
    ensures Placed(g, p, RunInst(p, observed, s, input).stack)
    ensures O.Moves(g, Sites(p, s.stack), Sites(p, RunInst(p, observed, s, input).stack))
  {
    var i, fr := s.Top().rest[0], Popped(s.Top());
    var after := After(fr, s.mem, i, input);
    AfterAt(p, fr, s.mem, i, input);
    TopPlaced(g, p, s.stack, after);
    TopAdvances(g, p, s.stack, after);
  }

  lemma CallStepMoves(g: O.Cfg, p: Program, st: seq<Frame>, act: Frame)
    requires Placed(g, p, st) && st != [] && st[|st| - 1].rest != [] && st[|st| - 1].rest[0].Call?
    requires var fr := st[|st| - 1];
             FrameAt(p, Popped(fr)) && (Current(p, fr), Current(p, Popped(fr))) in g.next && DescribesInst(g, fr.rest[0])
    requires act.from == st[|st| - 1].rest[0].site && act.f == st[|st| - 1].rest[0].callee
    requires FrameAt(p, act) && Current(p, act) == g.entry(act.f) && IsCalled(p, act.from, act.f)
    ensures Placed(g, p, st[..|st| - 1] + [Popped(st[|st| - 1]), act])
    ensures O.Moves(g, Sites(p, st), Sites(p, st[..|st| - 1] + [Popped(st[|st| - 1]), act]))
  {
    CallPlaced(g, p, st, Popped(st[|st| - 1]), act);
    CallMoves(g, p, st, Popped(st[|st| - 1]), act);
  }

  lemma InstMoves(g: O.Cfg, p: Program, observed: set<Site>, s: State, input: int)
    requires WellFormed(p) && Describes(g, p) && Placed(g, p, s.stack) && s.stack != [] && s.Top().rest != []
    ensures Placed(g, p, RunInst(p, observed, s, input).stack)
    ensures O.Moves(g, Sites(p, s.stack), Sites(p, RunInst(p, observed, s, input).stack))
  {
    var i, fr := s.Top().rest[0], Popped(s.Top());
    NextSite(g, p, s.Top());
    NextIsDescribed(g, p, s.Top());
    if i.Call? {
      CalleeOk(p, s.Top(), i, LookAll(fr, i.args));
      StartedSite(g, p, i.callee, LookAll(fr, i.args), i.site);
      CallStepMoves(g, p, s.stack, Activation(p, i.callee, LookAll(fr, i.args), i.site));
    } else {
      OtherMoves(g, p, observed, s, input);
    }
  }

  lemma StartPlaced(g: O.Cfg, p: Program, main: Fn, args: seq<int>)
    requires Describes(g, p) && Has(p, main, ENTRY)
    ensures Placed(g, p, Start(p, main, args).stack) && Sites(p, Start(p, main, args).stack) == [g.entry(main)]
  {
    var fr := Activation(p, main, args, 0);
    StartedSite(g, p, main, args, 0);
    OneFrame(g, p, fr);
  }

  lemma OneFrame(g: O.Cfg, p: Program, fr: Frame)
    requires FrameAt(p, fr)
    ensures Placed(g, p, [fr]) && Sites(p, [fr]) == [Current(p, fr)]
  {
    assert [fr][..0] == [];
  }

  /** The stacks of a run, as long as it has not ended. */
  ghost function WalkOf(p: Program, observed: set<Site>, main: Fn, args: seq<int>, inputs: seq<int>): seq<O.Stack>
    requires Run(p, observed, main, args, inputs).stack != []
    ensures |WalkOf(p, observed, main, args, inputs)| == |inputs| + 1
  {
    var here := [Sites(p, Run(p, observed, main, args, inputs).stack)];
    if inputs == [] then here else WalkOf(p, observed, main, args, inputs[..|inputs| - 1]) + here
  }

  lemma {:induction false} RunIsWalk(g: O.Cfg, p: Program, observed: set<Site>, main: Fn, args: seq<int>,
                                     inputs: seq<int>)
    requires WellFormed(p) && Describes(g, p) && Has(p, main, ENTRY)
    requires Run(p, observed, main, args, inputs).stack != []
    ensures Placed(g, p, Run(p, observed, main, args, inputs).stack)
    ensures var w := WalkOf(p, observed, main, args, inputs); O.Walk(g, w) && w[0] == [g.entry(main)]
  {
    if inputs == [] {
      StartPlaced(g, p, main, args);
    } else {
      var n := |inputs| - 1;
      var s := Run(p, observed, main, args, inputs[..n]);
      RunIsWalk(g, p, observed, main, args, inputs[..n]);
      StepMoves(g, p, observed, s, inputs[n]);
      LastOfWalk(p, observed, main, args, inputs[..n]);
      WalkSnoc(g, WalkOf(p, observed, main, args, inputs[..n]), Sites(p, Run(p, observed, main, args, inputs).stack));
    }
  }

  lemma StepMoves(g: O.Cfg, p: Program, observed: set<Site>, s: State, input: int)
    requires WellFormed(p) && Describes(g, p) && Placed(g, p, s.stack) && s.stack != []
    requires Step(p, observed, s, input).stack != []
    ensures Placed(g, p, Step(p, observed, s, input).stack)
    ensures O.Moves(g, Sites(p, s.stack), Sites(p, Step(p, observed, s, input).stack))
  {
    if s.Top().rest != [] {
      InstMoves(g, p, observed, s, input);
    } else {
      TermMoves(g, p, s);
    }
  }

  lemma WalkSnoc(g: O.Cfg, w: seq<O.Stack>, a: O.Stack)
    requires O.Walk(g, w) && O.Moves(g, w[|w| - 1], a)
    ensures O.Walk(g, w + [a]) && (w + [a])[0] == w[0]
  {
    assert (w + [a])[..|w|] == w;
  }

  lemma LastOfWalk(p: Program, observed: set<Site>, main: Fn, args: seq<int>, inputs: seq<int>)
    requires Run(p, observed, main, args, inputs).stack != []
    ensures WalkOf(p, observed, main, args, inputs)[|inputs|] == Sites(p, Run(p, observed, main, args, inputs).stack)
  {
  }

  lemma {:induction false} EndedStays(p: Program, observed: set<Site>, main: Fn, args: seq<int>, inputs: seq<int>, n: nat)
    requires n <= |inputs| && Run(p, observed, main, args, inputs).stack != []
    ensures Run(p, observed, main, args, inputs[..n]).stack != []
    ensures WalkOf(p, observed, main, args, inputs)[n] == Sites(p, Run(p, observed, main, args, inputs[..n]).stack)
    decreases |inputs| - n, |inputs|
  {
    if n == |inputs| {
      assert inputs[..n] == inputs;
    } else {
      var m := |inputs| - 1;
      EndedStays(p, observed, main, args, inputs[..m], n);
      assert inputs[..m][..n] == inputs[..n];
    }
  }

  // ---------------------------------------------------------------- what may be left out

  ghost predicate Unimportant(g: O.Cfg, d: Site, loads: set<Site>) {
    O.AfterAllLoads(g, d, loads) && O.NoSharedLoop(g, d, loads)
  }

  ghost predicate StoreSite(p: Program, x: Site) {
    exists f, b, i :: Has(p, f, b) && i in p[f][b].insts && i.Store? && i.site == x
  }

  /** The included loads of each class are known; a store is left out when it is unimportant, a call
      when all stores that it may run are unimportant at the call. */
  ghost predicate DropOk(g: O.Cfg, p: Program, k: Marks, cls: Site -> nat, loads: nat -> set<Site>, i: Inst) {
    && (i.Load? && Keeps(k, i.site) ==> i.site in loads(cls(i.site)))
    && (i.Store? && !Keeps(k, i.site) ==> Unimportant(g, i.site, loads(cls(i.site))))
    && (i.Call? && !Keeps(k, i.site) ==>
          forall x :: StoreSite(p, x) && O.MayRun(g, i.site, {x}) ==> Unimportant(g, i.site, loads(cls(x))))
  }

  ghost predicate OnlyUnimportantDropped(g: O.Cfg, p: Program, k: Marks, cls: Site -> nat, loads: nat -> set<Site>) {
    forall f, b, i {:trigger Has(p, f, b), DropOk(g, p, k, cls, loads, i)} ::
      Has(p, f, b) && i in p[f][b].insts ==> DropOk(g, p, k, cls, loads, i)
  }

  /** The alias classes are right: the next access is to memory of its class. */
  ghost predicate InClass(s: State, cls: Site -> nat, region: Addr -> nat) {
    s.stack != [] && s.Top().rest != [] && (s.Top().rest[0].Load? || s.Top().rest[0].Store?) ==>
      region(Look(s.Top(), s.Top().rest[0].ptr)) == cls(s.Top().rest[0].site)
  }

  ghost predicate Respects(p: Program, k: Marks, main: Fn, args: seq<int>, inputs: seq<int>, cls: Site -> nat,
                           region: Addr -> nat) {
    forall n :: 0 <= n < |inputs| ==> InClass(Run(p, k.observed, main, args, inputs[..n]), cls, region)
  }

  /** A store to address a is next, and the slice will not execute it. */
  ghost predicate StoresAlone(k: Marks, s: State, a: Addr) {
    && s.stack != [] && s.Top().rest != [] && s.Top().rest[0].Store? && Look(s.Top(), s.Top().rest[0].ptr) == a
    && !(Replicated(k, s.stack) && Keeps(k, s.Top().rest[0].site))
  }

  lemma {:induction false} StaleWasStored(p: Program, k: Marks, main: Fn, args: seq<int>, inputs: seq<int>, a: Addr)
    returns (t: nat)
    requires a in Stale(p, k, main, args, inputs)
    ensures t < |inputs| && StoresAlone(k, Run(p, k.observed, main, args, inputs[..t]), a)
  {
    var n := |inputs| - 1;
    if StoresAlone(k, Run(p, k.observed, main, args, inputs[..n]), a) {
      t := n;
    } else {
      t := StaleWasStored(p, k, main, args, inputs[..n], a);
      assert inputs[..n][..t] == inputs[..t];
    }
  }

  lemma {:induction false} ReplicatedAll(k: Marks, st: seq<Frame>, j: nat)
    requires Replicated(k, st) && 0 < j < |st|
    ensures Keeps(k, st[j].from)
  {
    if j < |st| - 1 {
      ReplicatedAll(k, st[..|st| - 1], j);
    }
  }

  lemma {:induction false} DroppedActivation(k: Marks, st: seq<Frame>) returns (j: nat)
    requires !Replicated(k, st)
    ensures 0 < j < |st| && !Keeps(k, st[j].from)
  {
    if Keeps(k, st[|st| - 1].from) {
      j := DroppedActivation(k, st[..|st| - 1]);
    } else {
      j := |st| - 1;
    }
  }

  lemma {:induction false} PlacedCalled(g: O.Cfg, p: Program, st: seq<Frame>, j: nat)
    requires Placed(g, p, st) && 0 < j < |st|
    ensures IsCalled(p, st[j].from, st[j].f)
  {
    if j < |st| - 1 {
      PlacedCalled(g, p, st[..|st| - 1], j);
    }
  }

  lemma TopInst(g: O.Cfg, p: Program, k: Marks, cls: Site -> nat, loads: nat -> set<Site>, st: seq<Frame>)
    requires Describes(g, p) && Placed(g, p, st) && OnlyUnimportantDropped(g, p, k, cls, loads)
    requires st != [] && st[|st| - 1].rest != []
    ensures var i := st[|st| - 1].rest[0]; DescribesInst(g, i) && DropOk(g, p, k, cls, loads, i) && (i.Store? ==> StoreSite(p, i.site))
  {
    var fr := st[|st| - 1];
    NextSite(g, p, fr);
    assert Has(p, fr.f, fr.b) && DescribesBlock(g, p, fr.f, p[fr.f][fr.b]) && DescribesInst(g, fr.rest[0]);
    assert DropOk(g, p, k, cls, loads, fr.rest[0]);
  }

  lemma DroppedCall(g: O.Cfg, p: Program, k: Marks, cls: Site -> nat, loads: nat -> set<Site>, d: Site, f: Fn, x: Site)
    requires OnlyUnimportantDropped(g, p, k, cls, loads) && IsCalled(p, d, f) && !Keeps(k, d)
    requires StoreSite(p, x) && O.MayRun(g, d, {x})
    ensures Unimportant(g, d, loads(cls(x)))
  {
    var f', b, i :| Has(p, f', b) && i in p[f'][b].insts && i.Call? && i.site == d && i.callee == f;
    assert DropOk(g, p, k, cls, loads, i);
  }

  /** A store that is left out although its activation is replicated. */
  lemma DroppedStore(g: O.Cfg, p: Program, k: Marks, cls: Site -> nat, loads: nat -> set<Site>, st: seq<Frame>)
    requires Describes(g, p) && Placed(g, p, st) && OnlyUnimportantDropped(g, p, k, cls, loads)
    requires st != [] && st[|st| - 1].rest != [] && st[|st| - 1].rest[0].Store? && !Keeps(k, st[|st| - 1].rest[0].site)
    ensures var x := st[|st| - 1].rest[0].site; Sites(p, st)[|st| - 1] == x && Unimportant(g, x, loads(cls(x)))
  {
    TopInst(g, p, k, cls, loads, st);
  }

  /** A store below a call that is left out. */
  lemma DroppedBelow(g: O.Cfg, p: Program, k: Marks, cls: Site -> nat, loads: nat -> set<Site>, st: seq<Frame>,
                     j: nat, x: Site)
    requires OnlyUnimportantDropped(g, p, k, cls, loads)
    requires 0 < j < |st| && !Keeps(k, st[j].from) && StoreSite(p, x) && IsCalled(p, st[j].from, st[j].f)
    requires O.MayRun(g, Sites(p, st)[j - 1], {x})
    ensures Sites(p, st)[j - 1] == st[j].from && Unimportant(g, st[j].from, loads(cls(x)))
  {
    DroppedCall(g, p, k, cls, loads, st[j].from, st[j].f, x);
  }

  lemma MayRunTop(g: O.Cfg, p: Program, st: seq<Frame>, j: nat)
    requires st != [] && O.StackOk(g, Sites(p, st)) && j < |st|
    ensures O.MayRun(g, Sites(p, st)[j], {Current(p, st[|st| - 1])})
  {
    O.StackMayRun(g, Sites(p, st), j, {Current(p, st[|st| - 1])});
  }

  lemma StoreIsSite(g: O.Cfg, p: Program, k: Marks, cls: Site -> nat, loads: nat -> set<Site>, st: seq<Frame>)
    requires Describes(g, p) && Placed(g, p, st) && OnlyUnimportantDropped(g, p, k, cls, loads)
    requires st != [] && st[|st| - 1].rest != [] && st[|st| - 1].rest[0].Store?
    ensures StoreSite(p, st[|st| - 1].rest[0].site)
  {
    TopInst(g, p, k, cls, loads, st);
  }

  /** The site that keeps a store out of the slice: the store, or a call below which it runs. */
  lemma DroppedSite(g: O.Cfg, p: Program, k: Marks, cls: Site -> nat, loads: nat -> set<Site>, s: State, a: Addr)
    returns (e: nat)
    requires Describes(g, p) && Placed(g, p, s.stack) && OnlyUnimportantDropped(g, p, k, cls, loads)
    requires StoresAlone(k, s, a)
    requires O.StackOk(g, Sites(p, s.stack))
    ensures e < |s.stack| && !Keeps(k, Sites(p, s.stack)[e])
    ensures Unimportant(g, Sites(p, s.stack)[e], loads(cls(s.Top().rest[0].site)))
  {
    var st, x := s.stack, s.Top().rest[0].site;
    if Replicated(k, st) {
      DroppedStore(g, p, k, cls, loads, st);
      e := |st| - 1;
    } else {
      var j := DroppedActivation(k, st);
      StoreIsSite(g, p, k, cls, loads, st);
      PlacedCalled(g, p, st, j);
      MayRunTop(g, p, st, j - 1);
      DroppedBelow(g, p, k, cls, loads, st, j, x);
      e := j - 1;
    }
  }

  /** A load of the slice does not come after a store to its class that was left out. */
  lemma NoStaleLoad(g: O.Cfg, k: Marks, w: seq<O.Stack>, t: nat, n: nat, e: nat, loads: set<Site>)
    requires O.WellFormed(g) && O.Walk(g, w) && |w[0]| == 1 && t < n < |w| && e < |w[t]|
    requires !O.IsCall(g, w[t][|w[t]| - 1]) && !Keeps(k, w[t][e]) && Unimportant(g, w[t][e], loads)
    requires w[n] != [] && forall j :: 0 <= j < |w[n]| - 1 ==> Keeps(k, w[n][j])
    ensures w[n][|w[n]| - 1] !in loads
  {
    var a, b := w[t], w[n];
    O.StacksAreChains(g, w);
    assert a in w && b in w;
    O.TwoMoments(g, w, t, n);
    var h: nat :| O.DivergedAt(g, a, b, h);
    assert forall j :: 0 <= j < h ==> a[..h][j] == a[j] && b[..h][j] == b[j];
    assert h <= e;
    O.ChainFront(g, a, e + 1);
    O.StackMayRun(g, a[..e + 1], h, {a[e]});
    if b[|b| - 1] in loads {
      O.DivergedIsFound(g, a, b, h, a[e], loads);
    }
  }

  lemma RunPrefix(g: O.Cfg, p: Program, observed: set<Site>, main: Fn, args: seq<int>, inputs: seq<int>, n: nat)
    requires WellFormed(p) && Describes(g, p) && Has(p, main, ENTRY) && n <= |inputs|
    requires Run(p, observed, main, args, inputs).stack != []
    ensures var s := Run(p, observed, main, args, inputs[..n]);
            s.stack != [] && Placed(g, p, s.stack) && WalkOf(p, observed, main, args, inputs)[n] == Sites(p, s.stack)
  {
    EndedStays(p, observed, main, args, inputs, n);
    RunIsWalk(g, p, observed, main, args, inputs[..n]);
  }

  /** A load of the slice reads nothing stale. */
  lemma LoadIsFresh(g: O.Cfg, p: Program, k: Marks, cls: Site -> nat, loads: nat -> set<Site>, region: Addr -> nat,
                    main: Fn, args: seq<int>, inputs: seq<int>)
    requires WellFormed(p) && Describes(g, p) && Has(p, main, ENTRY) && OnlyUnimportantDropped(g, p, k, cls, loads)
    requires Respects(p, k, main, args, inputs, cls, region)
    requires InClass(Run(p, k.observed, main, args, inputs), cls, region)
    ensures Fresh(k, Run(p, k.observed, main, args, inputs), Stale(p, k, main, args, inputs))
  {
    var r, stale := Run(p, k.observed, main, args, inputs), Stale(p, k, main, args, inputs);
    if !Fresh(k, r, stale) {
      var a := Look(r.Top(), r.Top().rest[0].ptr);
      var t := StaleWasStored(p, k, main, args, inputs, a);
      LoadAfterStore(g, p, k, cls, loads, region, main, args, inputs, t, a);
      assert false;
    }
  }

  /** A walk that passes a store left out by the slice and later stands at a load of the class. */
  lemma StoreThenLoad(g: O.Cfg, p: Program, k: Marks, cls: Site -> nat, loads: nat -> set<Site>,
                      w: seq<O.Stack>, t: nat, n: nat, s: State, r: State, a: Addr)
    requires Describes(g, p) && OnlyUnimportantDropped(g, p, k, cls, loads) && O.Walk(g, w) && |w[0]| == 1 && t < n < |w|
    requires Placed(g, p, s.stack) && Placed(g, p, r.stack) && StoresAlone(k, s, a) && w[t] == Sites(p, s.stack)
    requires r.stack != [] && r.Top().rest != [] && r.Top().rest[0].Load? && Replicated(k, r.stack)
    requires w[n] == Sites(p, r.stack)
    requires cls(s.Top().rest[0].site) == cls(r.Top().rest[0].site)
    ensures !Keeps(k, r.Top().rest[0].site)
  {
    ChainAt(g, w, t);
    var e := DroppedSite(g, p, k, cls, loads, s, a);
    StoreOnTop(g, p, k, cls, loads, s.stack);
    KeptBelow(p, k, r.stack);
    NoStaleLoad(g, k, w, t, n, e, loads(cls(s.Top().rest[0].site)));
    LoadOnTop(g, p, k, cls, loads, r.stack);
  }

  lemma ChainAt(g: O.Cfg, w: seq<O.Stack>, t: nat)
    requires O.WellFormed(g) && O.Walk(g, w) && |w[0]| == 1 && t < |w|
    ensures O.StackOk(g, w[t])
  {
    O.StacksAreChains(g, w);
    assert w[t] in w;
  }

  lemma KeptBelow(p: Program, k: Marks, st: seq<Frame>)
    requires st != [] && Replicated(k, st)
    ensures forall j :: 0 <= j < |st| - 1 ==> Keeps(k, Sites(p, st)[j])
  {
    forall j | 0 <= j < |st| - 1
      ensures Keeps(k, Sites(p, st)[j])
    {
      ReplicatedAll(k, st, j + 1);
    }
  }

  lemma StoreOnTop(g: O.Cfg, p: Program, k: Marks, cls: Site -> nat, loads: nat -> set<Site>, st: seq<Frame>)
    requires Describes(g, p) && Placed(g, p, st) && OnlyUnimportantDropped(g, p, k, cls, loads)
    requires st != [] && st[|st| - 1].rest != [] && st[|st| - 1].rest[0].Store?
    ensures !O.IsCall(g, Sites(p, st)[|st| - 1])
  {
    TopInst(g, p, k, cls, loads, st);
  }

  lemma LoadOnTop(g: O.Cfg, p: Program, k: Marks, cls: Site -> nat, loads: nat -> set<Site>, st: seq<Frame>)
    requires Describes(g, p) && Placed(g, p, st) && OnlyUnimportantDropped(g, p, k, cls, loads)
    requires st != [] && st[|st| - 1].rest != [] && st[|st| - 1].rest[0].Load?
    ensures var x := st[|st| - 1].rest[0].site; Sites(p, st)[|st| - 1] == x && (Keeps(k, x) ==> x in loads(cls(x)))
  {
    TopInst(g, p, k, cls, loads, st);
  }

  lemma LoadAfterStore(g: O.Cfg, p: Program, k: Marks, cls: Site -> nat, loads: nat -> set<Site>, region: Addr -> nat,
                       main: Fn, args: seq<int>, inputs: seq<int>, t: nat, a: Addr)
    requires WellFormed(p) && Describes(g, p) && Has(p, main, ENTRY) && OnlyUnimportantDropped(g, p, k, cls, loads)
    requires Respects(p, k, main, args, inputs, cls, region)
    requires InClass(Run(p, k.observed, main, args, inputs), cls, region)
    requires t < |inputs| && StoresAlone(k, Run(p, k.observed, main, args, inputs[..t]), a)
    ensures Fresh(k, Run(p, k.observed, main, args, inputs), {a})
  {
    var s, r := Run(p, k.observed, main, args, inputs[..t]), Run(p, k.observed, main, args, inputs);
    if !Fresh(k, r, {a}) {
      var w := WalkOf(p, k.observed, main, args, inputs);
      RunPrefix(g, p, k.observed, main, args, inputs, t);
      RunIsWalk(g, p, k.observed, main, args, inputs);
      LastOfWalk(p, k.observed, main, args, inputs);
      assert InClass(s, cls, region);
      StoreThenLoad(g, p, k, cls, loads, w, t, |inputs|, s, r, a);
      assert false;
    }
  }

  /** The slice observes what the program observes, if it is closed, the alias classes are right, and
      what it leaves out passes the test for stores and is not reached again through a shared site. */
  lemma SliceIsRight(g: O.Cfg, p: Program, k: Marks, cls: Site -> nat, loads: nat -> set<Site>, region: Addr -> nat,
                     main: Fn, args: seq<int>, inputs: seq<int>) returns (inputs': seq<int>)
    requires WellFormed(p) && Closed(p, k) && Has(p, main, ENTRY) && main in k.copied
    requires Describes(g, p) && OnlyUnimportantDropped(g, p, k, cls, loads)
    requires Respects(p, k, main, args, inputs, cls, region)
    ensures var s, r := Run(p, k.observed, main, args, inputs), Run(Slice(k, p), k.observed, main, args, inputs');
            r.trace == s.trace && (s.stack == [] ==> r.stack == []) && |inputs'| <= |inputs|
  {
    forall n | 0 <= n < |inputs|
      ensures Fresh(k, Run(p, k.observed, main, args, inputs[..n]), Stale(p, k, main, args, inputs[..n]))
    {
      forall m | 0 <= m < n
        ensures InClass(Run(p, k.observed, main, args, inputs[..n][..m]), cls, region)
      {
        assert inputs[..n][..m] == inputs[..m];
      }
      LoadIsFresh(g, p, k, cls, loads, region, main, args, inputs[..n]);
    }
    inputs' := SliceObservesTheSame(p, k, main, args, inputs);
  }
}
