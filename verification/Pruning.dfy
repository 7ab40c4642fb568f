/**
Pruning the copy of a function down to the marked values: calls lose the arguments that nobody
needs, unmarked instructions are erased, and an unmarked conditional terminator becomes a return.
*/
module Pruning {
  import opened Program

  /**
  The result of the taint analysis.  `values` are included in the slice; of these, `needed` are the
  ones whose value is used by it.  `everywhere` are the functions all of whose call sites are
  included, `copied` the functions that get a copy, `observed` the calls that the slice is for.
  */
  datatype Marks = Marks(values: set<Value>, needed: set<Value>, everywhere: set<Fn>, copied: set<Fn>, observed: set<Site>)

  predicate Keeps(k: Marks, site: Site) {
    Res(site) in k.values
  }

  // ---------------------------------------------------------------- what the slice is

  function SlicedArgs(k: Marks, args: seq<Value>): seq<Value> {
    seq(|args|, j requires 0 <= j < |args| => if args[j] in k.values then args[j] else Lit(0))
  }

  function SlicedInst(k: Marks, i: Inst): Inst {
    if i.Call? then i.(args := SlicedArgs(k, i.args)) else i
  }

  function SlicedInsts(k: Marks, insts: seq<Inst>): seq<Inst> {
    if insts == [] then []
    else (if Keeps(k, insts[0].site) then [SlicedInst(k, insts[0])] else []) + SlicedInsts(k, insts[1..])
  }

  function SlicedTerm(k: Marks, t: Term): Term {
    if t.Jump? || Keeps(k, t.site) then t else Ret(t.site, Lit(0))
  }

  function SlicedBlock(k: Marks, bb: BB): BB {
    BB(map site | site in bb.phis && Keeps(k, site) :: bb.phis[site], SlicedInsts(k, bb.insts), SlicedTerm(k, bb.term))
  }

  function SlicedFunc(k: Marks, f: Func): Func {
    map b | b in f :: SlicedBlock(k, f[b])
  }

  function Slice(k: Marks, p: Program): Program {
    map f | f in p && f in k.copied :: SlicedFunc(k, p[f])
  }

  // ---------------------------------------------------------------- how the copy is pruned

  /** Instructions are distinct objects. */
  ghost predicate Distinct(bb: BB) {
    && (forall i, j :: 0 <= i < j < |bb.insts| ==> bb.insts[i].site != bb.insts[j].site)
    && (forall i :: i in bb.insts ==> i.site != bb.term.site && i.site !in bb.phis)
    && bb.term.site !in bb.phis
  }

  function NulledInst(k: Marks, i: Inst): Inst {
    if Keeps(k, i.site) then SlicedInst(k, i) else i
  }

  function NulledInsts(k: Marks, insts: seq<Inst>): seq<Inst> {
    seq(|insts|, j requires 0 <= j < |insts| => NulledInst(k, insts[j]))
  }

  /** An included call has kept the arguments that are included, at their positions; the others are null.
      Nothing else has changed. */
  ghost predicate IsNulled(k: Marks, i: Inst, i': Inst) {
    if i.Call? && Keeps(k, i.site) then
      && i'.Call? && i'.site == i.site && i'.callee == i.callee && |i'.args| == |i.args|
      && forall j :: 0 <= j < |i.args| ==> i'.args[j] == if i.args[j] in k.values then i.args[j] else Lit(0)
    else i' == i
  }

  ghost predicate AllNulled(k: Marks, insts: seq<Inst>, nulled: seq<Inst>) {
    |nulled| == |insts| && forall j :: 0 <= j < |insts| ==> IsNulled(k, insts[j], nulled[j])
  }

  lemma NulledIsNulled(k: Marks, insts: seq<Inst>)
    ensures AllNulled(k, insts, NulledInsts(k, insts))
  {
  }

  ghost predicate IsIn(k: Marks, i: Inst, sliced: seq<Inst>) {
    exists i' :: i' in sliced && IsNulled(k, i, i')
  }

  ghost predicate ComesFrom(k: Marks, insts: seq<Inst>, i': Inst) {
    exists i :: i in insts && Keeps(k, i.site) && IsNulled(k, i, i')
  }

  /** The included instructions of a block are those of the slice, but for the arguments of calls. */
  ghost predicate OnlyIncluded(k: Marks, insts: seq<Inst>, sliced: seq<Inst>) {
    && (forall i {:trigger IsIn(k, i, sliced)} :: i in insts && Keeps(k, i.site) ==> IsIn(k, i, sliced))
    && (forall i' {:trigger ComesFrom(k, insts, i')} :: i' in sliced ==> ComesFrom(k, insts, i'))
  }

  lemma SlicedInstIsNulled(k: Marks, i: Inst)
    requires Keeps(k, i.site)
    ensures IsNulled(k, i, SlicedInst(k, i))
  {
  }

  lemma {:induction false} SlicedIsIncluded(k: Marks, insts: seq<Inst>)
    ensures OnlyIncluded(k, insts, SlicedInsts(k, insts))
  {
    if insts != [] {
      SlicedIsIncluded(k, insts[1..]);
      OneMoreIncluded(k, insts[0], insts[1..], SlicedInsts(k, insts[1..]));
      assert insts == [insts[0]] + insts[1..];
    }
  }

  lemma OneMoreIncluded(k: Marks, i: Inst, insts: seq<Inst>, sliced: seq<Inst>)
    requires OnlyIncluded(k, insts, sliced)
    ensures OnlyIncluded(k, [i] + insts, (if Keeps(k, i.site) then [SlicedInst(k, i)] else []) + sliced)
  {
    var more, out := [i] + insts, (if Keeps(k, i.site) then [SlicedInst(k, i)] else []) + sliced;
    if Keeps(k, i.site) {
      SlicedInstIsNulled(k, i);
      assert SlicedInst(k, i) in out && i in more;
    }
    forall j | j in more && Keeps(k, j.site)
      ensures IsIn(k, j, out)
    {
      if j in insts {
        assert IsIn(k, j, sliced);
        var j' :| j' in sliced && IsNulled(k, j, j');
        assert j' in out;
      }
    }
    forall j' | j' in out
      ensures ComesFrom(k, more, j')
    {
      if j' in sliced {
        assert ComesFrom(k, insts, j');
        var j :| j in insts && Keeps(k, j.site) && IsNulled(k, j, j');
        assert j in more;
      }
    }
  }

  function Without(insts: seq<Inst>, gone: set<Site>): seq<Inst> {
    if insts == [] then []
    else (if insts[0].site in gone then [] else [insts[0]]) + Without(insts[1..], gone)
  }

  /** The instructions of a block that the slice does not keep. */
  ghost predicate ToPrune(k: Marks, bb: BB, site: Site) {
    !Keeps(k, site) &&
    (site in bb.phis || (exists i :: i in bb.insts && i.site == site) || (!bb.term.Jump? && bb.term.site == site))
  }

  function Erased(bb: BB, gone: set<Site>): BB {
    BB(map site | site in bb.phis && site !in gone :: bb.phis[site], Without(bb.insts, gone),
       if bb.term.site in gone then Ret(bb.term.site, Lit(0)) else bb.term)
  }

  lemma {:induction false} WithoutTwice(insts: seq<Inst>, gone: set<Site>, site: Site)
    ensures Without(Without(insts, gone), {site}) == Without(insts, gone + {site})
  {
    if insts != [] {
      WithoutTwice(insts[1..], gone, site);
      var rest := Without(insts[1..], gone);
      if insts[0].site in gone {
        assert Without(insts, gone) == rest;
      } else {
        assert Without(insts, gone) == [insts[0]] + rest;
        assert ([insts[0]] + rest)[1..] == rest;
      }
    }
  }

  lemma ErasedTwice(bb: BB, gone: set<Site>, site: Site)
    ensures Erased(Erased(bb, gone), {site}) == Erased(bb, gone + {site})
  {
    WithoutTwice(bb.insts, gone, site);
  }

  lemma {:induction false} WithoutUnkept(k: Marks, insts: seq<Inst>, gone: set<Site>)
    requires forall i :: i in insts ==> (i.site in gone <==> !Keeps(k, i.site))
    ensures Without(NulledInsts(k, insts), gone) == SlicedInsts(k, insts)
  {
    if insts != [] {
      WithoutUnkept(k, insts[1..], gone);
      assert NulledInsts(k, insts)[1..] == NulledInsts(k, insts[1..]);
    }
  }

  class FunctionCopy {
    var blocks: map<Block, BB>

    constructor (f: Func)
      ensures blocks == f
    {
      blocks := f;
    }

    /** The included calls lose the arguments that are not included. */
    method ReplaceCallsInCopy(k: Marks)
      modifies this
      ensures blocks.Keys == old(blocks.Keys)
      ensures forall b :: b in blocks ==> AllNulled(k, old(blocks)[b].insts, blocks[b].insts)
      ensures forall b :: b in blocks ==> blocks[b] == old(blocks)[b].(insts := NulledInsts(k, old(blocks)[b].insts))
    {
      var todo := blocks.Keys;
      while todo != {}
        invariant todo <= blocks.Keys == old(blocks.Keys)
        invariant forall b :: b in blocks ==>
                    blocks[b] == if b in todo then old(blocks)[b] else old(blocks)[b].(insts := NulledInsts(k, old(blocks)[b].insts))
        decreases todo
      {
        var b :| b in todo;
        var insts := NullArguments(k, blocks[b].insts);
        blocks := blocks[b := blocks[b].(insts := insts)];
        todo := todo - {b};
      }
      forall b | b in blocks
        ensures AllNulled(k, old(blocks)[b].insts, blocks[b].insts)
      {
        NulledIsNulled(k, old(blocks)[b].insts);
      }
    }

    static method NullArguments(k: Marks, insts: seq<Inst>) returns (out: seq<Inst>)
      ensures out == NulledInsts(k, insts)
    {
      out := [];
      for i := 0 to |insts|
        invariant out == NulledInsts(k, insts)[..i]
      {
        out := out + [NulledInst(k, insts[i])];
      }
    }

    /** First the instructions to prune are gathered, then they are removed one by one. */
    method PruneFunctionCopy(k: Marks)
      requires forall b :: b in blocks ==> Distinct(blocks[b])
      modifies this
      ensures blocks.Keys == old(blocks.Keys)
      ensures forall b :: b in blocks ==>
                (exists gone :: Gathered(k, old(blocks)[b], gone) && blocks[b] == Erased(old(blocks)[b], gone))
    {
      var toPrune: map<Block, set<Site>> := map b | b in blocks :: Gather(k, blocks[b]);
      var todo := blocks.Keys;
      while todo != {}
        invariant todo <= blocks.Keys == old(blocks.Keys)
        invariant forall b :: b in blocks ==>
                    blocks[b] == if b in todo then old(blocks)[b] else Erased(old(blocks)[b], toPrune[b])
        decreases todo
      {
        var b :| b in todo;
        EraseAll(b, toPrune[b]);
        todo := todo - {b};
      }
    }

    method EraseAll(b: Block, sites: set<Site>)
      requires b in blocks
      modifies this
      ensures blocks == old(blocks)[b := Erased(old(blocks)[b], sites)]
    {
      var rest, gone := sites, {};
      NothingErased(blocks[b]);
      assert blocks == old(blocks)[b := Erased(old(blocks)[b], gone)];
      while rest != {}
        invariant gone == sites - rest && rest <= sites
        invariant blocks == old(blocks)[b := Erased(old(blocks)[b], gone)]
        decreases rest
      {
        var site :| site in rest;
        ErasedTwice(old(blocks)[b], gone, site);
        blocks := blocks[b := Erased(blocks[b], {site})];
        rest, gone := rest - {site}, gone + {site};
      }
      assert gone == sites;
    }
  }

  lemma {:induction false} WithoutNothing(insts: seq<Inst>)
    ensures Without(insts, {}) == insts
  {
    if insts != [] {
      WithoutNothing(insts[1..]);
    }
  }

  lemma NothingErased(bb: BB)
    ensures Erased(bb, {}) == bb
  {
    WithoutNothing(bb.insts);
  }

  ghost predicate Gathered(k: Marks, bb: BB, gone: set<Site>) {
    forall site :: site in gone <==> ToPrune(k, bb, site)
  }

  /** Everything that is not included, except for unconditional branches. */
  function Gather(k: Marks, bb: BB): (gone: set<Site>)
    ensures Gathered(k, bb, gone)
  {
    (set site | site in bb.phis && !Keeps(k, site)) + (set j | 0 <= j < |bb.insts| && !Keeps(k, bb.insts[j].site) :: bb.insts[j].site) +
    (if !bb.term.Jump? && !Keeps(k, bb.term.site) then {bb.term.site} else {})
  }

  /** Nulling arguments and then erasing what is not included gives the sliced block. */
  lemma PrunedIsSliced(k: Marks, bb: BB, gone: set<Site>)
    requires Distinct(bb) && Gathered(k, bb.(insts := NulledInsts(k, bb.insts)), gone)
    ensures Erased(bb.(insts := NulledInsts(k, bb.insts)), gone) == SlicedBlock(k, bb)
  {
    var nulled := bb.(insts := NulledInsts(k, bb.insts));
    forall j | 0 <= j < |bb.insts|
      ensures bb.insts[j].site in gone <==> !Keeps(k, bb.insts[j].site)
    {
      assert nulled.insts[j] in nulled.insts && nulled.insts[j].site == bb.insts[j].site;
    }
    WithoutUnkept(k, bb.insts, gone);
  }

  /** A function copy is sliced by the two passes. */
  method SliceCopy(k: Marks, f: Func) returns (copy: FunctionCopy)
    requires forall b :: b in f ==> Distinct(f[b])
    ensures fresh(copy) && copy.blocks == SlicedFunc(k, f)
    ensures forall b :: b in f ==> OnlyIncluded(k, f[b].insts, copy.blocks[b].insts)
  {
    copy := new FunctionCopy(f);
    copy.ReplaceCallsInCopy(k);
    ghost var nulled := copy.blocks;
    forall b | b in f
      ensures Distinct(nulled[b])
    {
      StillDistinct(k, f[b]);
    }
    copy.PruneFunctionCopy(k);
    PrunedIsSlicedFunc(k, f, nulled, copy.blocks);
    forall b | b in f
      ensures OnlyIncluded(k, f[b].insts, copy.blocks[b].insts)
    {
      SlicedIsIncluded(k, f[b].insts);
    }
  }

  lemma PrunedIsSlicedFunc(k: Marks, f: Func, nulled: Func, pruned: Func)
    requires f.Keys == nulled.Keys == pruned.Keys && forall b :: b in f ==> Distinct(f[b])
    requires forall b :: b in f ==> nulled[b] == f[b].(insts := NulledInsts(k, f[b].insts))
    requires forall b :: b in f ==> exists gone :: Gathered(k, nulled[b], gone) && pruned[b] == Erased(nulled[b], gone)
    ensures pruned == SlicedFunc(k, f)
  {
    forall b | b in f
      ensures pruned[b] == SlicedBlock(k, f[b])
    {
      var gone :| Gathered(k, nulled[b], gone) && pruned[b] == Erased(nulled[b], gone);
      PrunedIsSliced(k, f[b], gone);
    }
  }

  lemma StillDistinct(k: Marks, bb: BB)
    requires Distinct(bb)
    ensures Distinct(bb.(insts := NulledInsts(k, bb.insts)))
  {
  }
}
