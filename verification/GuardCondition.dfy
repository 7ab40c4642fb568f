/**
When exactly the single-threaded guard is right.  A skeleton is a program without TSAN accesses; the
programs that the pass may meet are the placements of accesses into a skeleton.  The guard keeps the
verdict under every placement and every schedule if and only if in the skeleton a zero counter, seen
by a thread at a place where an access could stand, always means that all created threads are joined.
*/
module GuardCondition {
  import opened HappensBefore
  import opened Verdict
  import opened ForkJoin
  import opened ThreadCounter

  function Body(p: Program, t: Tid): seq<Op> {
    if t in p then p[t] else []
  }

  function Skeleton(body: seq<Op>): seq<Op> {
    if body == [] then []
    else Skeleton(body[..|body| - 1]) + if body[|body| - 1].Tsan? then [] else [body[|body| - 1]]
  }

  /** Program p is skeleton q with accesses put anywhere between its calls. */
  ghost predicate IsPlacement(p: Program, q: Program) {
    forall t {:trigger IsPlacedAt(p, q, t)} :: IsPlacedAt(p, q, t)
  }

  predicate IsPlacedAt(p: Program, q: Program, t: Tid) {
    Skeleton(Body(p, t)) == Body(q, t)
  }

  /** A running thread that is at a place where an access could stand: not between an increment and
      its create, nor between a join and its decrement. */
  predicate MayAccess(s: State, t: Tid) {
    Live(s.full, t) && t !in s.creating && t !in s.joining
  }

  ghost predicate ZeroIsAlone(q: Program) {
    forall sched, t {:trigger MayAccess(Run(q, sched), t)} ::
      MayAccess(Run(q, sched), t) && Run(q, sched).counter == 0 ==> Alone(Run(q, sched).full)
  }

  ghost predicate GuardIsRight(p: Program, sched: seq<Tid>) {
    SameVerdict(Run(p, sched).full, Dropped(Run(p, sched).full, Run(p, sched).hidden))
  }

  // ---------------------------------------------------------------- code without its accesses

  function Unguarded(code: seq<Instr>): seq<Instr> {
    if code == [] then []
    else Unguarded(code[..|code| - 1]) + if code[|code| - 1].Guarded? then [] else [code[|code| - 1]]
  }

  lemma {:induction false} UnguardedConcat(a: seq<Instr>, b: seq<Instr>)
    ensures Unguarded(a + b) == Unguarded(a) + Unguarded(b)
  {
    if b == [] {
      assert a + b == a;
    } else {
      UnguardedConcat(a, b[..|b| - 1]);
      assert (a + b)[..|a + b| - 1] == a + b[..|b| - 1];
    }
  }

  lemma {:induction false} UnguardedIsSkeleton(body: seq<Op>)
    ensures Unguarded(Wrapped(body)) == Wrapped(Skeleton(body))
  {
    if body != [] {
      var pre, op := body[..|body| - 1], body[|body| - 1];
      var last := WrapParallel(WrapTsan(op));
      UnguardedIsSkeleton(pre);
      UnguardedConcat(Wrapped(pre), last);
      UnguardedOfOne(op);
      if op.Tsan? {
        assert Skeleton(body) == Skeleton(pre);
      } else {
        WrappedSnoc(Skeleton(pre), op);
      }
    }
  }

  lemma UnguardedOfOne(op: Op)
    ensures Unguarded(WrapParallel(WrapTsan(op))) == if op.Tsan? then [] else WrapParallel(WrapTsan(op))
  {
    var last := WrapParallel(WrapTsan(op));
    UnguardedConcat(last[..1], last[1..]);
    assert last == last[..1] + last[1..];
  }

  /** How many instructions other than accesses stand before position i. */
  function Rank(code: seq<Instr>, i: nat): nat
    requires i <= |code|
  {
    |Unguarded(code[..i])|
  }

  lemma RankStep(code: seq<Instr>, i: nat)
    requires i < |code|
    ensures Rank(code, i + 1) == Rank(code, i) + if code[i].Guarded? then 0 else 1
    ensures !code[i].Guarded? ==> Rank(code, i) < |Unguarded(code)| && Unguarded(code)[Rank(code, i)] == code[i]
  {
    assert code[..i + 1][..i] == code[..i];
    UnguardedConcat(code[..i + 1], code[i + 1..]);
    assert code[..i + 1] + code[i + 1..] == code;
  }

  lemma PlacementCode(p: Program, q: Program, t: Tid)
    requires IsPlacement(p, q)
    ensures Unguarded(Code(p, t)) == Code(q, t)
  {
    assert IsPlacedAt(p, q, t) && Code(p, t) == Wrapped(Body(p, t));
    UnguardedIsSkeleton(Body(p, t));
  }

  // ---------------------------------------------------------------- a placement and its skeleton

  predicate PcAgrees(p: Program, s: State, z: State, t: Tid) {
    s.Pc(t) <= |Code(p, t)| && z.Pc(t) == Rank(Code(p, t), s.Pc(t))
  }

  /** State s of a placement and state z of the skeleton have got equally far. */
  ghost predicate Sim(p: Program, s: State, z: State) {
    && (forall t {:trigger PcAgrees(p, s, z, t)} :: PcAgrees(p, s, z, t))
    && s.counter == z.counter && s.creating == z.creating && s.joining == z.joining
    && Forked(s.full) == Forked(z.full) && Joined(s.full) == Joined(z.full)
  }

  /** Both stand before the same instruction. */
  lemma SameInstr(p: Program, q: Program, s: State, z: State, t: Tid)
    requires IsPlacement(p, q) && Sim(p, s, z)
    requires s.Pc(t) < |Code(p, t)| && !Code(p, t)[s.Pc(t)].Guarded?
    ensures z.Pc(t) < |Code(q, t)| && Code(q, t)[z.Pc(t)] == Code(p, t)[s.Pc(t)]
    ensures z.Pc(t) + 1 == Rank(Code(p, t), s.Pc(t) + 1)
  {
    assert PcAgrees(p, s, z, t);
    PlacementCode(p, q, t);
    RankStep(Code(p, t), s.Pc(t));
  }

  lemma AccessAlone(p: Program, s: State, z: State, t: Tid)
    requires Positions(p, s) && Sim(p, s, z) && Enabled(p, s, t) && Code(p, t)[s.Pc(t)].Guarded?
    ensures Sim(p, Step(p, s, t), z) && MayAccess(z, t)
  {
    var e := Emits(t, Code(p, t)[s.Pc(t)])[0];
    EmitExtends(s.full, e);
    assert Step(p, s, t).full == s.full + [e] && t !in s.creating && t !in s.joining;
    AccessMovesPc(p, s, z, t);
  }

  lemma AccessMovesPc(p: Program, s: State, z: State, t: Tid)
    requires Sim(p, s, z) && Enabled(p, s, t) && Code(p, t)[s.Pc(t)].Guarded?
    ensures forall u {:trigger PcAgrees(p, Step(p, s, t), z, u)} :: PcAgrees(p, Step(p, s, t), z, u)
  {
    RankStep(Code(p, t), s.Pc(t));
    forall u
      ensures PcAgrees(p, Step(p, s, t), z, u)
    {
      assert PcAgrees(p, s, z, u);
    }
  }

  lemma StepTogether(p: Program, q: Program, s: State, z: State, t: Tid)
    requires IsPlacement(p, q) && Sim(p, s, z) && Lives(p, s) && Lives(q, z)
    requires Enabled(p, s, t) && Enabled(q, z, t) && !Code(p, t)[s.Pc(t)].Guarded?
    ensures Sim(p, Step(p, s, t), Step(q, z, t))
  {
    SameInstr(p, q, s, z, t);
    TraceStep(p, s, t);
    TraceStep(q, z, t);
    StepCounts(p, s, t);
    StepCounts(q, z, t);
    BothMovePc(p, q, s, z, t);
  }

  lemma BothMovePc(p: Program, q: Program, s: State, z: State, t: Tid)
    requires IsPlacement(p, q) && Sim(p, s, z)
    requires Enabled(p, s, t) && Enabled(q, z, t) && !Code(p, t)[s.Pc(t)].Guarded?
    ensures forall u {:trigger PcAgrees(p, Step(p, s, t), Step(q, z, t), u)} :: PcAgrees(p, Step(p, s, t), Step(q, z, t), u)
  {
    SameInstr(p, q, s, z, t);
    forall u
      ensures PcAgrees(p, Step(p, s, t), Step(q, z, t), u)
    {
      assert PcAgrees(p, s, z, u);
    }
  }

  lemma SkeletonEnabled(p: Program, q: Program, s: State, z: State, t: Tid)
    requires IsPlacement(p, q) && Sim(p, s, z) && Enabled(p, s, t) && !Code(p, t)[s.Pc(t)].Guarded?
    ensures Enabled(q, z, t)
  {
    SameInstr(p, q, s, z, t);
    var ins := Code(p, t)[s.Pc(t)];
    if IsJoin(ins) {
      var u := ins.op.child;
      assert PcAgrees(p, s, z, u);
      PlacementCode(p, q, u);
      assert Code(p, u)[..s.Pc(u)] == Code(p, u);
    }
  }

  // ---------------------------------------------------------------- the condition suffices

  /** Leaving out its accesses turns a run of a placement into a run of the skeleton. */
  lemma {:induction false} Projected(p: Program, q: Program, sched: seq<Tid>) returns (short: seq<Tid>)
    requires IsPlacement(p, q)
    ensures Sim(p, Run(p, sched), Run(q, short))
  {
    if sched == [] {
      short := [];
      forall t
        ensures PcAgrees(p, START, START, t)
      {
        assert Code(p, t)[..0] == [];
      }
    } else {
      var n, t := |sched| - 1, sched[|sched| - 1];
      short := Projected(p, q, sched[..n]);
      var s, z := Run(p, sched[..n]), Run(q, short);
      if Enabled(p, s, t) {
        PositionsHold(p, sched[..n]);
        PositionsHold(q, short);
        if Code(p, t)[s.Pc(t)].Guarded? {
          AccessAlone(p, s, z, t);
        } else {
          SkeletonEnabled(p, q, s, z, t);
          StepTogether(p, q, s, z, t);
          assert (short + [t])[..|short|] == short;
          short := short + [t];
        }
      }
    }
  }

  predicate HiddenAlone(s: State, n: nat) {
    n < |s.full| && Alone(s.full[..n])
  }

  lemma {:induction false} HiddenAreAlone(p: Program, q: Program, sched: seq<Tid>)
    requires IsPlacement(p, q) && ZeroIsAlone(q)
    ensures forall n :: n in Run(p, sched).hidden ==> HiddenAlone(Run(p, sched), n)
  {
    if sched != [] {
      var m, t := |sched| - 1, sched[|sched| - 1];
      HiddenAreAlone(p, q, sched[..m]);
      var s, s' := Run(p, sched[..m]), Run(p, sched);
      if Enabled(p, s, t) && Code(p, t)[s.Pc(t)].Guarded? {
        var short := Projected(p, q, sched[..m]);
        PositionsHold(p, sched[..m]);
        AccessAlone(p, s, Run(q, short), t);
        assert s.counter == 0 ==> Alone(s.full);
      }
      forall n | n in s'.hidden
        ensures HiddenAlone(s', n)
      {
        if n in s.hidden {
          assert HiddenAlone(s, n) && s'.full[..n] == s.full[..n];
        } else {
          assert s'.full[..n] == s.full;
        }
      }
    }
  }

  lemma ConditionSuffices(p: Program, q: Program, sched: seq<Tid>)
    requires IsPlacement(p, q) && ZeroIsAlone(q)
    ensures GuardIsRight(p, sched)
  {
    PositionsHold(p, sched);
    HiddenAreAlone(p, q, sched);
    AloneDropKeepsVerdict(Run(p, sched).full, Run(p, sched).hidden);
  }

  // ---------------------------------------------------------------- the condition is needed

  predicate NoAccess(body: seq<Op>) {
    forall i :: 0 <= i < |body| ==> !body[i].Tsan?
  }

  ghost predicate IsSkeleton(q: Program) {
    forall t :: NoAccess(Body(q, t))
  }

  lemma {:induction false} SkeletonOfPlain(body: seq<Op>)
    requires NoAccess(body)
    ensures Skeleton(body) == body
    ensures forall i :: 0 <= i < |Wrapped(body)| ==> !Wrapped(body)[i].Guarded?
  {
    if body != [] {
      SkeletonOfPlain(body[..|body| - 1]);
    }
  }

  lemma {:induction false} WrappedConcat(a: seq<Op>, b: seq<Op>)
    ensures Wrapped(a + b) == Wrapped(a) + Wrapped(b)
  {
    if b == [] {
      assert a + b == a;
    } else {
      var pre, op := b[..|b| - 1], b[|b| - 1];
      var w := WrapParallel(WrapTsan(op));
      WrappedConcat(a, pre);
      LastOfConcat(a, b);
      Associative(Wrapped(a), Wrapped(pre), w);
    }
  }

  lemma LastOfConcat(a: seq<Op>, b: seq<Op>)
    requires b != []
    ensures Wrapped(a + b) == Wrapped(a + b[..|b| - 1]) + WrapParallel(WrapTsan(b[|b| - 1]))
  {
    assert (a + b)[..|a + b| - 1] == a + b[..|b| - 1];
  }

  lemma Associative<T>(a: seq<T>, b: seq<T>, c: seq<T>)
    ensures a + (b + c) == a + b + c
  {
  }

  lemma {:induction false} SkeletonConcat(a: seq<Op>, b: seq<Op>)
    ensures Skeleton(a + b) == Skeleton(a) + Skeleton(b)
  {
    if b == [] {
      assert a + b == a;
    } else {
      SkeletonConcat(a, b[..|b| - 1]);
      assert (a + b)[..|a + b| - 1] == a + b[..|b| - 1];
    }
  }

  const WRITE := Tsan(true, {0})
  const GUARDED_WRITE := Guarded(true, {0})

  function WithAccess(body: seq<Op>, a: nat): seq<Op>
    requires a <= |body|
  {
    body[..a] + [WRITE] + body[a..]
  }

  predicate OnlyAt(code: seq<Instr>, g: nat) {
    && g < |code| && code[g] == GUARDED_WRITE
    && forall i :: 0 <= i < |code| && i != g ==> !code[i].Guarded?
  }

  lemma WithAccessCode(body: seq<Op>, a: nat)
    requires NoAccess(body) && a <= |body|
    ensures OnlyAt(Wrapped(WithAccess(body, a)), |Wrapped(body[..a])|)
  {
    var pre, post := body[..a], body[a..];
    WrappedConcat(pre + [WRITE], post);
    WrappedSnoc(pre, WRITE);
    SkeletonOfPlain(pre);
    SkeletonOfPlain(post);
    assert Wrapped(WithAccess(body, a)) == Wrapped(pre) + [GUARDED_WRITE] + Wrapped(post);
  }

  lemma WithAccessSkeleton(body: seq<Op>, a: nat)
    requires NoAccess(body) && a <= |body|
    ensures Skeleton(WithAccess(body, a)) == body
  {
    var pre, post := body[..a], body[a..];
    SkeletonConcat(pre + [WRITE], post);
    assert (pre + [WRITE])[..|pre|] == pre;
    SkeletonOfPlain(pre);
    SkeletonOfPlain(post);
    assert Skeleton(pre + [WRITE]) == pre;
    assert pre + post == body;
  }

  /** Every place in the code is a boundary between two calls, or one instruction behind one. */
  lemma {:induction false} Locate(body: seq<Op>, i: nat) returns (a: nat)
    requires i <= |Wrapped(body)|
    ensures a <= |body|
    ensures |Wrapped(body[..a])| ==
            if AtDirectCreate(Wrapped(body), i) || AtDec(Wrapped(body), i) then i - 1 else i
  {
    if i == |Wrapped(body)| {
      a := |body|;
      assert body[..a] == body;
    } else {
      var pre := body[..|body| - 1];
      if i < |Wrapped(pre)| {
        a := Locate(pre, i);
        assert body[..a] == pre[..a];
      } else {
        a := |pre|;
      }
    }
  }

  /** Program p is skeleton q with one write of thread t at gt and one of thread v at gv. */
  ghost predicate Adds(p: Program, q: Program, t: Tid, gt: nat, v: Tid, gv: nat) {
    && IsPlacement(p, q) && t != v
    && OnlyAt(Code(p, t), gt) && OnlyAt(Code(p, v), gv)
    && (forall u {:trigger NoAccess(Body(p, u))} :: u != t && u != v ==> NoAccess(Body(p, u)))
  }

  lemma {:induction false} RankBefore(code: seq<Instr>, i: nat)
    requires i <= |code| && forall j :: 0 <= j < i ==> !code[j].Guarded?
    ensures Rank(code, i) == i
  {
    if i == 0 {
      assert code[..0] == [];
    } else {
      RankBefore(code, i - 1);
      RankStep(code, i - 1);
    }
  }

  /** The writes come last: thread v has not passed its place, or has just gone one step beyond. */
  ghost predicate NotBeyond(q: Program, z: State, t: Tid, gt: nat, v: Tid, gv: nat) {
    && t !in Joined(z.full) && v !in Joined(z.full)
    && z.Pc(t) <= gt
    && (z.Pc(v) <= gv || (z.Pc(v) == gv + 1 && gv < |Code(q, v)| && (Code(q, v)[gv].Inc? || IsJoin(Code(q, v)[gv]))))
  }

  /** Event k is the only access, and its thread has since done nothing that others could wait for. */
  ghost predicate LastWord(tr: Trace, k: nat, v: Tid) {
    && k < |tr| && tr[k] == Access(v, true, {0})
    && (forall j :: 0 <= j < |tr| && j != k ==> !tr[j].Access?)
    && (forall j :: k < j < |tr| && tr[j].tid == v ==> tr[j].Join?)
    && (forall j :: k < j < |tr| && tr[j].Join? ==> tr[j].child != v)
  }

  ghost predicate Followed(p: Program, s: State, z: State, t: Tid, gt: nat, v: Tid, gv: nat, k: nat) {
    && Sim(p, s, z) && s.Pc(t) <= gt
    && (z.Pc(v) <= gv ==> s.Pc(v) <= gv && forall j :: 0 <= j < |s.full| ==> !s.full[j].Access?)
    && (z.Pc(v) > gv ==> LastWord(s.full, k, v))
  }

  lemma PlacementEnabled(p: Program, q: Program, s: State, z: State, u: Tid, t: Tid, gt: nat, v: Tid, gv: nat)
    requires Adds(p, q, t, gt, v, gv) && Sim(p, s, z) && Enabled(q, z, u)
    requires t !in Joined(Step(q, z, u).full) && v !in Joined(Step(q, z, u).full) && Lives(q, z)
    requires s.Pc(u) < |Code(p, u)| && !Code(p, u)[s.Pc(u)].Guarded?
    ensures Enabled(p, s, u)
  {
    SameInstr(p, q, s, z, u);
    TraceStep(q, z, u);
    var ins := Code(p, u)[s.Pc(u)];
    if IsJoin(ins) {
      assert ins.op.child in Joined(Step(q, z, u).full);
      NotGuarded(p, q, ins.op.child, t, gt, v, gv);
      FinishedTogether(p, q, s, z, ins.op.child);
    }
  }

  lemma NotGuarded(p: Program, q: Program, u: Tid, t: Tid, gt: nat, v: Tid, gv: nat)
    requires Adds(p, q, t, gt, v, gv) && u != t && u != v
    ensures forall i :: 0 <= i < |Code(p, u)| ==> !Code(p, u)[i].Guarded?
  {
    SkeletonOfPlain(Body(p, u));
  }

  lemma NotAtEnd(p: Program, q: Program, s: State, z: State, u: Tid)
    requires IsPlacement(p, q) && Sim(p, s, z) && z.Pc(u) < |Code(q, u)|
    ensures s.Pc(u) < |Code(p, u)|
  {
    assert PcAgrees(p, s, z, u);
    PlacementCode(p, q, u);
    assert Code(p, u)[..|Code(p, u)|] == Code(p, u);
  }

  lemma FinishedTogether(p: Program, q: Program, s: State, z: State, w: Tid)
    requires IsPlacement(p, q) && Sim(p, s, z) && z.Pc(w) == |Code(q, w)|
    requires forall i :: 0 <= i < |Code(p, w)| ==> !Code(p, w)[i].Guarded?
    ensures s.Pc(w) == |Code(p, w)|
  {
    assert PcAgrees(p, s, z, w);
    PlacementCode(p, q, w);
    if s.Pc(w) < |Code(p, w)| {
      RankStep(Code(p, w), s.Pc(w));
    }
  }

  lemma PcBefore(p: Program, q: Program, s: State, z: State, u: Tid, g: nat, t: Tid, gt: nat, v: Tid, gv: nat)
    requires Adds(p, q, t, gt, v, gv) && Sim(p, s, z)
    requires (u == t && g == gt) || (u == v && g == gv)
    requires s.Pc(u) <= g
    ensures s.Pc(u) == z.Pc(u)
  {
    assert PcAgrees(p, s, z, u);
    RankBefore(Code(p, u), s.Pc(u));
  }

  lemma NotBeyondBefore(q: Program, z: State, u: Tid, t: Tid, gt: nat, v: Tid, gv: nat)
    requires Enabled(q, z, u) && Lives(q, z) && NotBeyond(q, Step(q, z, u), t, gt, v, gv)
    ensures NotBeyond(q, z, t, gt, v, gv)
    ensures u == t ==> z.Pc(t) < gt
    ensures u == v ==> z.Pc(v) <= gv
  {
    TraceStep(q, z, u);
    var z' := Step(q, z, u);
    assert z'.Pc(t) == if u == t then z.Pc(t) + 1 else z.Pc(t);
    assert z'.Pc(v) == if u == v then z.Pc(v) + 1 else z.Pc(v);
  }

  /** The write of thread v, and nothing else yet. */
  lemma WriteNow(p: Program, q: Program, s: State, z: State, t: Tid, gt: nat, v: Tid, gv: nat, k: nat)
    requires Adds(p, q, t, gt, v, gv) && Followed(p, s, z, t, gt, v, gv, k) && Positions(p, s)
    requires z.Pc(v) == gv && Live(z.full, v)
    ensures Enabled(p, s, v) && Sim(p, Step(p, s, v), z) && Step(p, s, v).Pc(t) <= gt
    ensures Step(p, s, v).Pc(v) == gv + 1 && LastWord(Step(p, s, v).full, |s.full|, v)
  {
    PcBefore(p, q, s, z, v, gv, t, gt, v, gv);
    AccessAlone(p, s, z, v);
  }

  /** One more instruction of the skeleton, made by the placement as well. */
  lemma FollowStep(p: Program, q: Program, s: State, z: State, u: Tid, t: Tid, gt: nat, v: Tid, gv: nat, k: nat)
    requires Adds(p, q, t, gt, v, gv) && Lives(p, s) && Lives(q, z) && Sim(p, s, z) && s.Pc(t) <= gt
    requires Enabled(q, z, u) && NotBeyond(q, Step(q, z, u), t, gt, v, gv)
    requires Enabled(p, s, u) && !Code(p, u)[s.Pc(u)].Guarded?
    requires Step(q, z, u).Pc(v) <= gv ==> s.Pc(v) <= gv && forall j :: 0 <= j < |s.full| ==> !s.full[j].Access?
    requires Step(q, z, u).Pc(v) > gv ==> LastWord(s.full, k, v)
    ensures Followed(p, Step(p, s, u), Step(q, z, u), t, gt, v, gv, k)
  {
    NotBeyondBefore(q, z, u, t, gt, v, gv);
    StepTogether(p, q, s, z, u);
    SameInstr(p, q, s, z, u);
    TraceStep(q, z, u);
    if u == t {
      PcBefore(p, q, s, z, t, gt, t, gt, v, gv);
    }
    if u == v && s.Pc(v) <= gv {
      PcBefore(p, q, s, z, v, gv, t, gt, v, gv);
    }
    NoAccessEmitted(p, u, s.Pc(u));
    if z.Pc(v) > gv || (u == v && z.Pc(v) == gv) {
      StillLast(p, s, u, k, v);
    }
  }

  lemma NoAccessEmitted(p: Program, u: Tid, i: nat)
    requires i < |Code(p, u)| && !Code(p, u)[i].Guarded?
    ensures forall j :: 0 <= j < |Emits(u, Code(p, u)[i])| ==> !Emits(u, Code(p, u)[i])[j].Access?
  {
    if Code(p, u)[i].Plain? {
      WrappedHidesAccesses(Body(p, u), i);
    }
  }

  lemma {:induction false} WrappedHidesAccesses(body: seq<Op>, i: nat)
    requires i < |Wrapped(body)| && Wrapped(body)[i].Plain?
    ensures !Wrapped(body)[i].op.Tsan?
  {
    if i < |Wrapped(body[..|body| - 1])| {
      WrappedHidesAccesses(body[..|body| - 1], i);
    }
  }

  /** An instruction that is no access of v, and no fork or release of v either. */
  lemma StillLast(p: Program, s: State, u: Tid, k: nat, v: Tid)
    requires Enabled(p, s, u) && LastWord(s.full, k, v) && !Code(p, u)[s.Pc(u)].Guarded?
    requires u == v ==> Code(p, u)[s.Pc(u)].Inc? || IsJoin(Code(p, u)[s.Pc(u)])
    requires IsJoin(Code(p, u)[s.Pc(u)]) ==> Code(p, u)[s.Pc(u)].op.child != v
    ensures LastWord(Step(p, s, u).full, k, v)
  {
    EmitsOne(u, Code(p, u)[s.Pc(u)]);
    NoAccessEmitted(p, u, s.Pc(u));
  }

  /** A run of the skeleton, followed by the placement: thread v writes as late as it can. */
  lemma {:induction false} Follow(p: Program, q: Program, sched: seq<Tid>, t: Tid, gt: nat, v: Tid, gv: nat)
    returns (long: seq<Tid>, k: nat)
    requires Adds(p, q, t, gt, v, gv) && NotBeyond(q, Run(q, sched), t, gt, v, gv)
    ensures Followed(p, Run(p, long), Run(q, sched), t, gt, v, gv, k)
  {
    if sched == [] {
      long, k := [], 0;
      forall u
        ensures PcAgrees(p, START, START, u)
      {
        assert Code(p, u)[..0] == [];
      }
    } else {
      var n, u := |sched| - 1, sched[|sched| - 1];
      var z := Run(q, sched[..n]);
      PositionsHold(q, sched[..n]);
      if !Enabled(q, z, u) {
        long, k := Follow(p, q, sched[..n], t, gt, v, gv);
      } else {
        NotBeyondBefore(q, z, u, t, gt, v, gv);
        long, k := Follow(p, q, sched[..n], t, gt, v, gv);
        long, k := FollowMove(p, q, long, z, u, t, gt, v, gv, k);
      }
    }
  }

  /** The write of thread v has been made in time. */
  lemma InTime(p: Program, q: Program, before: seq<Tid>, z: State, u: Tid, t: Tid, gt: nat, v: Tid, gv: nat, k: nat)
    returns (long: seq<Tid>, l: nat)
    requires Adds(p, q, t, gt, v, gv) && Followed(p, Run(p, before), z, t, gt, v, gv, k)
    requires u == v ==> z.Pc(v) <= gv && Live(z.full, v)
    ensures var s := Run(p, long); Sim(p, s, z) && s.Pc(t) <= gt
    ensures var s := Run(p, long); if u == v && z.Pc(v) == gv then s.Pc(v) == gv + 1 && LastWord(s.full, l, v)
                                   else long == before && l == k
  {
    long, l := before, k;
    if u == v && z.Pc(v) == gv {
      PositionsHold(p, before);
      WriteNow(p, q, Run(p, before), z, t, gt, v, gv, k);
      l := |Run(p, before).full|;
      RunSnoc(p, before, v);
      long := before + [v];
    }
  }

  lemma FollowMove(p: Program, q: Program, before: seq<Tid>, z: State, u: Tid, t: Tid, gt: nat, v: Tid, gv: nat, k: nat)
    returns (long: seq<Tid>, l: nat)
    requires Adds(p, q, t, gt, v, gv) && Followed(p, Run(p, before), z, t, gt, v, gv, k) && Lives(q, z)
    requires Enabled(q, z, u) && NotBeyond(q, Step(q, z, u), t, gt, v, gv)
    ensures Followed(p, Run(p, long), Step(q, z, u), t, gt, v, gv, l)
  {
    NotBeyondBefore(q, z, u, t, gt, v, gv);
    long, l := InTime(p, q, before, z, u, t, gt, v, gv, k);
    PositionsHold(p, long);
    FollowOne(p, q, Run(p, long), z, u, t, gt, v, gv, l);
    RunSnoc(p, long, u);
    long := long + [u];
  }

  lemma RunSnoc(p: Program, sched: seq<Tid>, u: Tid)
    ensures Run(p, sched + [u]) == Step(p, Run(p, sched), u)
  {
    assert (sched + [u])[..|sched|] == sched;
  }

  lemma FollowOne(p: Program, q: Program, s: State, z: State, u: Tid, t: Tid, gt: nat, v: Tid, gv: nat, k: nat)
    requires Adds(p, q, t, gt, v, gv) && Lives(p, s) && Lives(q, z) && Sim(p, s, z) && s.Pc(t) <= gt
    requires Enabled(q, z, u) && NotBeyond(q, Step(q, z, u), t, gt, v, gv)
    requires u == v ==> s.Pc(v) == gv + 1 || (s.Pc(v) <= gv && z.Pc(v) < gv)
    requires Step(q, z, u).Pc(v) <= gv ==> s.Pc(v) <= gv && forall j :: 0 <= j < |s.full| ==> !s.full[j].Access?
    requires Step(q, z, u).Pc(v) > gv ==> LastWord(s.full, k, v)
    ensures Followed(p, Step(p, s, u), Step(q, z, u), t, gt, v, gv, k)
  {
    MovesAsWell(p, q, s, z, u, t, gt, v, gv);
    FollowStep(p, q, s, z, u, t, gt, v, gv, k);
  }

  lemma NextIsNoAccess(p: Program, q: Program, s: State, z: State, u: Tid, t: Tid, gt: nat, v: Tid, gv: nat)
    requires Adds(p, q, t, gt, v, gv) && Sim(p, s, z) && s.Pc(u) < |Code(p, u)|
    requires u == t ==> s.Pc(t) <= gt && z.Pc(t) < gt
    requires u == v ==> s.Pc(v) == gv + 1 || (s.Pc(v) <= gv && z.Pc(v) < gv)
    ensures !Code(p, u)[s.Pc(u)].Guarded?
  {
    if u == t {
      PcBefore(p, q, s, z, t, gt, t, gt, v, gv);
    } else if u == v && s.Pc(v) <= gv {
      PcBefore(p, q, s, z, v, gv, t, gt, v, gv);
    } else if u != v {
      NotGuarded(p, q, u, t, gt, v, gv);
    }
  }

  /** What the skeleton does next, the placement can do as well. */
  lemma MovesAsWell(p: Program, q: Program, s: State, z: State, u: Tid, t: Tid, gt: nat, v: Tid, gv: nat)
    requires Adds(p, q, t, gt, v, gv) && Lives(q, z) && Sim(p, s, z) && s.Pc(t) <= gt
    requires Enabled(q, z, u) && NotBeyond(q, Step(q, z, u), t, gt, v, gv)
    requires u == v ==> s.Pc(v) == gv + 1 || (s.Pc(v) <= gv && z.Pc(v) < gv)
    ensures Enabled(p, s, u) && !Code(p, u)[s.Pc(u)].Guarded?
  {
    NotBeyondBefore(q, z, u, t, gt, v, gv);
    NotAtEnd(p, q, s, z, u);
    NextIsNoAccess(p, q, s, z, u, t, gt, v, gv);
    PlacementEnabled(p, q, s, z, u, t, gt, v, gv);
  }

  lemma {:induction false} OnlyOwnAfter(tr: Trace, k: nat, j: nat, v: Tid)
    requires k < |tr| && tr[k] == Access(v, true, {0}) && j < |tr|
    requires forall i :: k < i < |tr| && tr[i].tid == v ==> tr[i].Join?
    requires forall i :: k < i < |tr| && tr[i].Join? ==> tr[i].child != v
    requires HB(tr, k, j)
    ensures tr[j].tid == v
    decreases j
  {
    if k != j {
      var m :| k <= m < j && HB(tr, k, m) && Edge(tr[m], tr[j]);
      OnlyOwnAfter(tr, k, m, v);
    }
  }

  /** A skipped access of t that is unordered with the last access of v. */
  lemma SkippedRace(tr: Trace, k: nat, t: Tid, v: Tid, hidden: set<nat>)
    requires LastWord(tr, k, v) && t != v && |tr| in hidden
    ensures var full := tr + [Access(t, true, {0})]; !SameVerdict(full, Dropped(full, hidden))
  {
    var n, full := |tr|, tr + [Access(t, true, {0})];
    if HB(full, k, n) {
      OnlyOwnAfter(full, k, n, v);
    }
    if HB(full, n, k) {
      HBIsForward(full, n, k);
    }
    assert RacePair(full, n, k, 0, t, true, v, true);
    var d := Dropped(full, hidden);
    if Race(d, 0, t, true, v, true) {
      var i: nat, j: nat :| RacePair(d, i, j, 0, t, true, v, true);
      var o := Origin(full, hidden, i);
      KeptAt(full, hidden, o);
      assert false;
    }
  }

  lemma {:induction false} InCode(q: Program, sched: seq<Tid>, t: Tid)
    ensures Run(q, sched).Pc(t) <= |Code(q, t)|
  {
    if sched != [] {
      InCode(q, sched[..|sched| - 1], t);
    }
  }

  /** A zero counter that some thread can see while another one runs, and two accesses that prove the
      guard wrong. */
  lemma BadStateLosesRace(q: Program, sched: seq<Tid>, t: Tid) returns (p: Program, long: seq<Tid>)
    requires IsSkeleton(q) && MayAccess(Run(q, sched), t) && Run(q, sched).counter == 0 && !Alone(Run(q, sched).full)
    ensures IsPlacement(p, q) && !GuardIsRight(p, long)
  {
    var z := Run(q, sched);
    PositionsHold(q, sched);
    JoinedWereForked(z.full);
    var v := MAIN;
    if t == MAIN {
      var u :| u in Forked(z.full) && u !in Joined(z.full);
      v := u;
    }
    InCode(q, sched, t);
    InCode(q, sched, v);
    var gt, gv;
    p, gt, gv := TwoWrites(q, z, t, v);
    var k;
    long, k := Follow(p, q, sched, t, gt, v, gv);
    if z.Pc(v) == gv {
      PositionsHold(p, long);
      WriteNow(p, q, Run(p, long), z, t, gt, v, gv, k);
      k := |Run(p, long).full|;
      RunSnoc(p, long, v);
      long := long + [v];
    }
    HiddenWrite(p, q, Run(p, long), z, t, v, gt, gv, k);
    RunSnoc(p, long, t);
    long := long + [t];
  }

  lemma HiddenWrite(p: Program, q: Program, s: State, z: State, t: Tid, v: Tid, gt: nat, gv: nat, k: nat)
    requires Adds(p, q, t, gt, v, gv) && Sim(p, s, z) && LastWord(s.full, k, v)
    requires s.Pc(t) <= gt && z.Pc(t) == gt && z.counter == 0 && Live(z.full, t)
    ensures !SameVerdict(Step(p, s, t).full, Dropped(Step(p, s, t).full, Step(p, s, t).hidden))
  {
    PcBefore(p, q, s, z, t, gt, t, gt, v, gv);
    SkippedRace(s.full, k, t, v, Step(p, s, t).hidden);
  }

  /** The first write goes to where thread t is now, the second to where v is, or just before. */
  lemma TwoWrites(q: Program, z: State, t: Tid, v: Tid) returns (p: Program, gt: nat, gv: nat)
    requires IsSkeleton(q) && Positions(q, z) && MayAccess(z, t) && Live(z.full, v) && t != v
    requires z.Pc(t) <= |Code(q, t)| && z.Pc(v) <= |Code(q, v)|
    ensures Adds(p, q, t, gt, v, gv) && NotBeyond(q, z, t, gt, v, gv)
    ensures gt == z.Pc(t) && gv <= z.Pc(v)
  {
    var a := Locate(Body(q, t), z.Pc(t));
    var b := Locate(Body(q, v), z.Pc(v));
    gt, gv := |Wrapped(Body(q, t)[..a])|, |Wrapped(Body(q, v)[..b])|;
    p := Written(q, t, a, v, b);
    WrittenAdds(q, t, a, v, b);
    if gv < z.Pc(v) {
      ShapeAt(q, v, gv);
    }
  }

  function Written(q: Program, t: Tid, a: nat, v: Tid, b: nat): Program
    requires a <= |Body(q, t)| && b <= |Body(q, v)|
  {
    q[t := WithAccess(Body(q, t), a)][v := WithAccess(Body(q, v), b)]
  }

  lemma WrittenAdds(q: Program, t: Tid, a: nat, v: Tid, b: nat)
    requires IsSkeleton(q) && t != v && a <= |Body(q, t)| && b <= |Body(q, v)|
    ensures Adds(Written(q, t, a, v, b), q, t, |Wrapped(Body(q, t)[..a])|, v, |Wrapped(Body(q, v)[..b])|)
  {
    var p := Written(q, t, a, v, b);
    WrittenBodies(q, t, a, v, b);
    WithAccessCode(Body(q, t), a);
    WithAccessCode(Body(q, v), b);
    forall u
      ensures IsPlacedAt(p, q, u)
    {
      assert NoAccess(Body(q, u));
      SkeletonOfPlain(Body(q, u));
    }
  }

  lemma WrittenBodies(q: Program, t: Tid, a: nat, v: Tid, b: nat)
    requires IsSkeleton(q) && t != v && a <= |Body(q, t)| && b <= |Body(q, v)|
    ensures var p := Written(q, t, a, v, b);
            && Body(p, t) == WithAccess(Body(q, t), a) && Skeleton(Body(p, t)) == Body(q, t)
            && Body(p, v) == WithAccess(Body(q, v), b) && Skeleton(Body(p, v)) == Body(q, v)
            && forall u :: u != t && u != v ==> Body(p, u) == Body(q, u)
  {
    assert NoAccess(Body(q, t)) && NoAccess(Body(q, v));
    WithAccessSkeleton(Body(q, t), a);
    WithAccessSkeleton(Body(q, v), b);
  }

  /** The guard is right for every placement of accesses and every schedule exactly when a zero
      counter means that no created thread runs. */
  lemma GuardIsRightIff(q: Program)
    requires IsSkeleton(q)
    ensures (forall p, sched {:trigger GuardIsRight(p, sched)} :: IsPlacement(p, q) ==> GuardIsRight(p, sched))
            <==> ZeroIsAlone(q)
  {
    if ZeroIsAlone(q) {
      forall p, sched | IsPlacement(p, q)
        ensures GuardIsRight(p, sched)
      {
        ConditionSuffices(p, q, sched);
      }
    } else {
      var sched, t :| MayAccess(Run(q, sched), t) && Run(q, sched).counter == 0 && !Alone(Run(q, sched).full);
      var p, long := BadStateLosesRace(q, sched, t);
    }
  }

  /** Direct creations meet the condition while fewer than 2^64 of them are in flight. */
  lemma DirectCreatesSuffice(q: Program)
    requires AllCreatesDirect(q)
    requires forall sched :: Run(q, sched).incs - Run(q, sched).decs < WORD
    ensures ZeroIsAlone(q)
  {
    forall sched, t | MayAccess(Run(q, sched), t) && Run(q, sched).counter == 0
      ensures Alone(Run(q, sched).full)
    {
      ZeroMeansAllJoined(q, sched);
    }
  }

  /** The condition fails for every skeleton whose main function begins by creating a thread through a
      pointer. */
  lemma IndirectCreateFails(q: Program, u: Tid)
    requires Body(q, MAIN) != [] && Body(q, MAIN)[0] == Create(u, false) && u != MAIN
    ensures !ZeroIsAlone(q)
  {
    var op, rest := Create(u, false), Body(q, MAIN)[1..];
    assert Body(q, MAIN) == [op] + rest;
    WrappedConcat([op], rest);
    WrappedSnoc([], op);
    assert [] + [op] == [op];
    assert Code(q, MAIN)[0] == Plain(op);
    assert [MAIN][..0] == [] && Enabled(q, START, MAIN);
    assert Run(q, []) == START;
    var s := Run(q, [MAIN]);
    EmitExtends([], Fork(MAIN, u));
    assert s.full == [] + [Fork(MAIN, u)];
    assert s.creating == {} && s.joining == {};
    assert MayAccess(s, MAIN) && u in Forked(s.full) && u !in Joined(s.full);
  }
}
