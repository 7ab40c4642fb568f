/**
A small instruction language in SSA form, and its runs.  Values are literals, parameters and the
results of instructions; a block starts with its phis and ends with a terminator.
*/
module Program {
  type Site = nat
  type Fn = nat
  type Block = nat
  type Addr = int

  const ENTRY: Block := 0

  datatype Value = Lit(n: int) | Param(f: Fn, i: nat) | Res(site: Site)

  datatype Inst =
    | Compute(site: Site, op: seq<int> -> int, args: seq<Value>)
    | Load(site: Site, ptr: Value)
    | Store(site: Site, ptr: Value, val: Value)
    | Call(site: Site, callee: Fn, args: seq<Value>)
    | Extern(site: Site, args: seq<Value>)  // a call of a library, with any result

  /** A conditional branch is a switch on its condition. */
  datatype Term =
    | Jump(site: Site, target: Block)
    | Switch(site: Site, cond: Value, cases: map<int, Block>, otherwise: Block)
    | Ret(site: Site, val: Value)

  type Phi = map<Block, Value>

  datatype BB = BB(phis: map<Site, Phi>, insts: seq<Inst>, term: Term)

  type Func = map<Block, BB>
  type Program = map<Fn, Func>

  const NOWHERE := BB(map[], [], Ret(0, Lit(0)))

  function Code(p: Program, f: Fn, b: Block): BB {
    if f in p && b in p[f] then p[f][b] else NOWHERE
  }

  predicate Has(p: Program, f: Fn, b: Block) {
    f in p && b in p[f]
  }

  function Succs(t: Term): set<Block> {
    match t
    case Jump(_, target) => {target}
    case Switch(_, _, cases, otherwise) => cases.Values + {otherwise}
    case Ret(_, _) => {}
  }

  /** Branches and calls go to existing blocks; nothing jumps to an entry block. */
  ghost predicate WellFormed(p: Program) {
    forall f, b {:trigger BlockFormed(p, f, p[f][b])} :: Has(p, f, b) ==> BlockFormed(p, f, p[f][b])
  }

  ghost predicate BlockFormed(p: Program, f: Fn, bb: BB) {
    && (forall b' :: b' in Succs(bb.term) ==> b' != ENTRY && Has(p, f, b'))
    && (forall i :: i in bb.insts && i.Call? ==> Has(p, i.callee, ENTRY))
  }

  // ---------------------------------------------------------------- runs

  /** `rest` is what remains of the block, `from` the call site that started the frame. */
  datatype Frame = Frame(f: Fn, b: Block, rest: seq<Inst>, regs: map<Site, int>, args: seq<int>, from: Site)

  datatype Event = Event(site: Site, args: seq<int>)

  datatype State = State(stack: seq<Frame>, mem: map<Addr, int>, trace: seq<Event>) {
    function Top(): Frame
      requires stack != []
    {
      stack[|stack| - 1]
    }

    function Below(): seq<Frame>
      requires stack != []
    {
      stack[..|stack| - 1]
    }
  }

  function Get<K>(m: map<K, int>, k: K): int {
    if k in m then m[k] else 0
  }

  function Look(fr: Frame, v: Value): int {
    match v
    case Lit(n) => n
    case Param(f, i) => if f == fr.f && i < |fr.args| then fr.args[i] else 0
    case Res(site) => Get(fr.regs, site)
  }

  function LookAll(fr: Frame, vs: seq<Value>): seq<int> {
    seq(|vs|, i requires 0 <= i < |vs| => Look(fr, vs[i]))
  }

  function Set(fr: Frame, site: Site, n: int): Frame {
    fr.(regs := fr.regs[site := n])
  }

  function Activation(p: Program, g: Fn, args: seq<int>, from: Site): Frame {
    Frame(g, ENTRY, Code(p, g, ENTRY).insts, map[], args, from)
  }

  function Incoming(phi: Phi, b: Block): Value {
    if b in phi then phi[b] else Lit(0)
  }

  function PhiValues(fr: Frame, phis: map<Site, Phi>): map<Site, int> {
    map site | site in phis :: Look(fr, Incoming(phis[site], fr.b))
  }

  /** Control passes to a block: all its phis are evaluated at once. */
  function Enter(p: Program, fr: Frame, b: Block): Frame {
    fr.(b := b, rest := Code(p, fr.f, b).insts, regs := fr.regs + PhiValues(fr, Code(p, fr.f, b).phis))
  }

  /** The frames after the one on top of them has returned n. */
  function Return(below: seq<Frame>, from: Site, n: int): seq<Frame> {
    if below == [] then [] else below[..|below| - 1] + [Set(below[|below| - 1], from, n)]
  }

  function Target(t: Term, n: int): Block
    requires !t.Ret?
  {
    match t
    case Jump(_, target) => target
    case Switch(_, _, cases, otherwise) => if n in cases then cases[n] else otherwise
  }

  function Cond(t: Term): Value {
    if t.Switch? then t.cond else Lit(0)
  }

  function RunTerm(p: Program, s: State): State
    requires s.stack != []
  {
    var fr, t := s.Top(), Code(p, s.Top().f, s.Top().b).term;
    if t.Ret? then s.(stack := Return(s.Below(), fr.from, Look(fr, t.val)))
    else s.(stack := s.Below() + [Enter(p, fr, Target(t, Look(fr, Cond(t))))])
  }

  /** The frame after an instruction other than a call. */
  function After(fr: Frame, mem: map<Addr, int>, i: Inst, input: int): Frame {
    match i
    case Compute(site, op, args) => Set(fr, site, op(LookAll(fr, args)))
    case Load(site, ptr) => Set(fr, site, Get(mem, Look(fr, ptr)))
    case Extern(site, _) => Set(fr, site, input)
    case _ => fr
  }

  function Written(fr: Frame, mem: map<Addr, int>, i: Inst): map<Addr, int> {
    if i.Store? then mem[Look(fr, i.ptr) := Look(fr, i.val)] else mem
  }

  /** Library calls at the observed sites are events. */
  function Emitted(fr: Frame, observed: set<Site>, i: Inst): seq<Event> {
    if i.Extern? && i.site in observed then [Event(i.site, LookAll(fr, i.args))] else []
  }

  function RunInst(p: Program, observed: set<Site>, s: State, input: int): State
    requires s.stack != [] && s.Top().rest != []
  {
    var i, fr := s.Top().rest[0], s.Top().(rest := s.Top().rest[1..]);
    if i.Call? then s.(stack := s.Below() + [fr, Activation(p, i.callee, LookAll(fr, i.args), i.site)])
    else State(s.Below() + [After(fr, s.mem, i, input)], Written(fr, s.mem, i), s.trace + Emitted(fr, observed, i))
  }

  /** One step; `input` is what a library call returns. */
  function Step(p: Program, observed: set<Site>, s: State, input: int): State {
    if s.stack == [] then s
    else if s.Top().rest != [] then RunInst(p, observed, s, input)
    else RunTerm(p, s)
  }

  function Start(p: Program, main: Fn, args: seq<int>): State {
    State([Activation(p, main, args, 0)], map[], [])
  }

  function Run(p: Program, observed: set<Site>, main: Fn, args: seq<int>, inputs: seq<int>): State {
    if inputs == [] then Start(p, main, args)
    else Step(p, observed, Run(p, observed, main, args, inputs[..|inputs| - 1]), inputs[|inputs| - 1])
  }
}
