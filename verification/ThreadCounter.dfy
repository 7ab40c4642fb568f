/**
The single-threaded guard for POSIX thread programs.  The pass surrounds every TSAN access by a test
of a global 64-bit counter, increments the counter before each direct call of pthread_create and
decrements it after each direct call of pthread_join.  An access is reported only when the counter
is not zero.
*/
module ThreadCounter {
  import opened HappensBefore
  import opened Verdict
  import opened ForkJoin
  import opened FiniteSets

  // ---------------------------------------------------------------- the pass

  /** A call in a function body; `direct` says that the callee is known by name at the call. */
  datatype Op =
    | Create(child: Tid, direct: bool)
    | JoinThread(child: Tid, direct: bool)
    | Lock(lock: HappensBefore.Lock)
    | Unlock(lock: HappensBefore.Lock)
    | Tsan(write: bool, bytes: set<Byte>)
    | Other

  datatype Instr =
    | Plain(op: Op)
    | Inc
    | Dec
    | Guarded(write: bool, bytes: set<Byte>)

  predicate IsParallelCall(op: Op) {
    match op
    case Create(_, direct) => direct
    case JoinThread(_, direct) => direct
    case Lock(_) => true
    case Unlock(_) => true
    case _ => false
  }

  function WrapTsan(op: Op): Instr {
    if op.Tsan? then Guarded(op.write, op.bytes) else Plain(op)
  }

  function WrapParallel(ins: Instr): seq<Instr> {
    if ins.Plain? && ins.op.Create? && ins.op.direct then [Inc, ins]
    else if ins.Plain? && ins.op.JoinThread? && ins.op.direct then [ins, Dec]
    else [ins]
  }

  function Wrapped(body: seq<Op>): seq<Instr> {
    if body == [] then []
    else Wrapped(body[..|body| - 1]) + WrapParallel(WrapTsan(body[|body| - 1]))
  }

  function Untouched(body: seq<Op>): seq<Instr> {
    seq(|body|, i requires 0 <= i < |body| => Plain(body[i]))
  }

  /** A call of a thread function: of any kind, but creations and joins only where the callee is known. */
  ghost predicate IsThreadCall(op: Op) {
    op.Lock? || op.Unlock? || (op.Create? && op.direct) || (op.JoinThread? && op.direct)
  }

  /** The pass acts on programs with a main function, a thread call and a TSAN access. */
  ghost predicate Applies(hasMain: bool, funcs: seq<seq<Op>>) {
    && hasMain
    && (exists f, i :: 0 <= f < |funcs| && 0 <= i < |funcs[f]| && IsThreadCall(funcs[f][i]))
    && (exists f, i :: 0 <= f < |funcs| && 0 <= i < |funcs[f]| && funcs[f][i].Tsan?)
  }

  method CollectParallelCalls(funcs: seq<seq<Op>>) returns (calls: set<(nat, nat)>)
    ensures forall f: nat, i: nat :: (f, i) in calls <==> f < |funcs| && i < |funcs[f]| && IsThreadCall(funcs[f][i])
  {
    calls := {};
    for f := 0 to |funcs|
      invariant forall g: nat, i: nat :: (g, i) in calls <==> g < f && i < |funcs[g]| && IsThreadCall(funcs[g][i])
    {
      for i := 0 to |funcs[f]|
        invariant forall g: nat, j: nat :: (g, j) in calls <==>
                                   (g < f || (g == f && j < i)) && j < |funcs[g]| && IsThreadCall(funcs[g][j])
      {
        if IsParallelCall(funcs[f][i]) {
          calls := calls + {(f, i)};
        }
      }
    }
  }

  method WrapTsanCalls(body: seq<Op>) returns (out: seq<Instr>, wrapped: nat)
    ensures |out| == |body| && forall i :: 0 <= i < |out| ==> out[i] == WrapTsan(body[i])
    ensures wrapped > 0 <==> exists i :: 0 <= i < |body| && body[i].Tsan?
  {
    out, wrapped := [], 0;
    for i := 0 to |body|
      invariant |out| == i && forall j :: 0 <= j < i ==> out[j] == WrapTsan(body[j])
      invariant wrapped > 0 <==> exists j :: 0 <= j < i && body[j].Tsan?
    {
      if body[i].Tsan? {
        wrapped := wrapped + 1;
      }
      out := out + [WrapTsan(body[i])];
    }
  }

  method WrapParallelCalls(ghost body: seq<Op>, guarded: seq<Instr>) returns (out: seq<Instr>)
    requires |guarded| == |body| && forall i :: 0 <= i < |body| ==> guarded[i] == WrapTsan(body[i])
    ensures out == Wrapped(body)
  {
    out := [];
    for i := 0 to |guarded|
      invariant out == Wrapped(body[..i])
    {
      assert body[..i + 1][..i] == body[..i];
      out := out + WrapParallel(guarded[i]);
    }
    assert body[..|body|] == body;
  }

  /** The access is made behind a test of the counter if the pass acts, and as before otherwise. */
  ghost predicate IsGuarded(applies: bool, code: seq<Instr>) {
    forall i :: i in code ==> if applies then !(i.Plain? && i.op.Tsan?) else i.Plain?
  }

  /** The whole pass: either every function is wrapped, or none is changed; in both cases the code executes
      the calls of the program. */
  method WrapNonOpenmpTsanCalls(hasMain: bool, funcs: seq<seq<Op>>) returns (out: seq<seq<Instr>>)
    ensures |out| == |funcs|
    ensures forall f :: 0 <= f < |funcs| ==> Original(out[f]) == funcs[f] && IsGuarded(Applies(hasMain, funcs), out[f])
    ensures forall f :: 0 <= f < |funcs| ==>
                          out[f] == if Applies(hasMain, funcs) then Wrapped(funcs[f]) else Untouched(funcs[f])
  {
    out := [];
    var calls: set<(nat, nat)> := {};
    if hasMain {
      calls := CollectParallelCalls(funcs);
    }
    var total := 0;
    if calls != {} {
      ghost var c: (nat, nat) :| c in calls;
      assert c == (c.0, c.1) && IsThreadCall(funcs[c.0][c.1]);
      for f := 0 to |funcs|
        invariant |out| == f && forall g :: 0 <= g < f ==> |out[g]| == |funcs[g]|
        invariant forall g, i :: 0 <= g < f && 0 <= i < |out[g]| ==> out[g][i] == WrapTsan(funcs[g][i])
        invariant total > 0 <==> exists g, i :: 0 <= g < f && 0 <= i < |funcs[g]| && funcs[g][i].Tsan?
      {
        var body, wrapped := WrapTsanCalls(funcs[f]);
        out := out + [body];
        total := total + wrapped;
      }
    }
    if total == 0 {
      forall f: nat, i: nat | f < |funcs| && i < |funcs[f]| && hasMain && calls == {}
        ensures !IsThreadCall(funcs[f][i])
      {
        assert (f, i) !in calls;
      }
      out := seq(|funcs|, f requires 0 <= f < |funcs| => Untouched(funcs[f]));
    } else {
      for f := 0 to |funcs|
        invariant |out| == |funcs|
        invariant forall g :: 0 <= g < f ==> out[g] == Wrapped(funcs[g])
        invariant forall g :: f <= g < |funcs| ==> |out[g]| == |funcs[g]|
        invariant forall g, i :: f <= g < |funcs| && 0 <= i < |out[g]| ==> out[g][i] == WrapTsan(funcs[g][i])
      {
        var body := WrapParallelCalls(funcs[f], out[f]);
        out := out[f := body];
      }
    }
    forall f | 0 <= f < |funcs|
      ensures Original(out[f]) == funcs[f] && IsGuarded(Applies(hasMain, funcs), out[f])
    {
      WrappedIsOriginal(funcs[f]);
      NoAccessIsPlain(funcs[f]);
      UntouchedIsOriginal(funcs[f]);
    }
  }

  // ---------------------------------------------------------------- running the wrapped program

  const WORD: nat := 0x1_0000_0000_0000_0000

  function Up(counter: nat): nat { (counter + 1) % WORD }

  function Down(counter: nat): nat { (counter + WORD - 1) % WORD }

  /** What each thread executes, before wrapping. */
  type Program = map<Tid, seq<Op>>

  function Code(p: Program, t: Tid): seq<Instr> {
    if t in p then Wrapped(p[t]) else []
  }

  /** `full` is what a detector would see without the guard, `hidden` the accesses the guard skips.
      The other sets and counts are history: increments and decrements executed so far, and the
      threads that are between an increment and its create, or between a join and its decrement. */
  datatype State = State(
    pc: map<Tid, nat>,
    counter: nat,
    full: Trace,
    hidden: set<nat>,
    incs: nat,
    decs: nat,
    creating: set<Tid>,
    joining: set<Tid>)
  {
    function Pc(t: Tid): nat {
      if t in pc then pc[t] else 0
    }
  }

  const START := State(map[], 0, [], {}, 0, 0, {}, {})

  predicate Enabled(p: Program, s: State, t: Tid) {
    && Live(s.full, t)
    && s.Pc(t) < |Code(p, t)|
    && match Code(p, t)[s.Pc(t)]
       case Plain(Create(u, _)) => CanHappen(s.full, Fork(t, u))
       case Plain(JoinThread(u, _)) => CanHappen(s.full, Join(t, u)) && s.Pc(u) == |Code(p, u)|
       case _ => true
  }

  function Emits(t: Tid, ins: Instr): seq<Event> {
    match ins
    case Guarded(w, bytes) => [Access(t, w, bytes)]
    case Plain(Create(u, _)) => [Fork(t, u)]
    case Plain(JoinThread(u, _)) => [Join(t, u)]
    case Plain(Lock(l)) => [Acquire(t, l)]
    case Plain(Unlock(l)) => [Release(t, l)]
    case Plain(Tsan(w, bytes)) => [Access(t, w, bytes)]
    case _ => []
  }

  /** One instruction of thread t; a thread that cannot move stays where it is. */
  function Step(p: Program, s: State, t: Tid): State {
    if !Enabled(p, s, t) then s
    else
      var ins := Code(p, t)[s.Pc(t)];
      State(
        s.pc[t := s.Pc(t) + 1],
        if ins.Inc? then Up(s.counter) else if ins.Dec? then Down(s.counter) else s.counter,
        s.full + Emits(t, ins),
        if ins.Guarded? && s.counter == 0 then s.hidden + {|s.full|} else s.hidden,
        if ins.Inc? then s.incs + 1 else s.incs,
        if ins.Dec? then s.decs + 1 else s.decs,
        if ins.Inc? then s.creating + {t} else s.creating - {t},
        if ins.Plain? && ins.op.JoinThread? && ins.op.direct then s.joining + {t} else s.joining - {t})
  }

  function Run(p: Program, sched: seq<Tid>): State {
    if sched == [] then START else Step(p, Run(p, sched[..|sched| - 1]), sched[|sched| - 1])
  }

  // ---------------------------------------------------------------- what is run is the program

  /** What a call of the program does. */
  function EventOf(t: Tid, op: Op): seq<Event> {
    match op
    case Create(u, _) => [Fork(t, u)]
    case JoinThread(u, _) => [Join(t, u)]
    case Lock(l) => [Acquire(t, l)]
    case Unlock(l) => [Release(t, l)]
    case Tsan(write, bytes) => [Access(t, write, bytes)]
    case Other => []
  }

  function EventsOf(t: Tid, ops: seq<Op>): Trace {
    if ops == [] then [] else EventsOf(t, ops[..|ops| - 1]) + EventOf(t, ops[|ops| - 1])
  }

  function ThreadEvents(tr: Trace, t: Tid): Trace {
    if tr == [] then []
    else ThreadEvents(tr[..|tr| - 1], t) + if tr[|tr| - 1].tid == t then [tr[|tr| - 1]] else []
  }

  lemma EventsSnoc(t: Tid, ops: seq<Op>, more: seq<Op>)
    requires |more| <= 1
    ensures EventsOf(t, ops + more) == EventsOf(t, ops) + if more == [] then [] else EventOf(t, more[0])
  {
    if more == [] {
      assert ops + more == ops;
    } else {
      assert (ops + more)[..|ops|] == ops;
    }
  }

  lemma EmitsOriginal(t: Tid, ins: Instr)
    ensures var ops := OriginalCall(ins);
            |ops| <= 1 && Emits(t, ins) == if ops == [] then [] else EventOf(t, ops[0])
  {
  }

  lemma OriginalSnoc(code: seq<Instr>, i: nat, t: Tid)
    requires i < |code|
    ensures EventsOf(t, Original(code[..i + 1])) == EventsOf(t, Original(code[..i])) + Emits(t, code[i])
  {
    assert code[..i + 1][..i] == code[..i];
    EmitsOriginal(t, code[i]);
    EventsSnoc(t, Original(code[..i]), OriginalCall(code[i]));
  }

  lemma ThreadSnoc(tr: Trace, es: Trace, t: Tid, u: Tid)
    requires |es| <= 1 && (es != [] ==> es[0].tid == u)
    ensures ThreadEvents(tr + es, t) == ThreadEvents(tr, t) + if u == t then es else []
  {
    if es == [] {
      assert tr + es == tr;
    } else {
      assert es == [es[0]] && (tr + es)[..|tr|] == tr;
    }
  }

  lemma RunsOneMore(p: Program, s: State, t: Tid, u: Tid)
    requires Enabled(p, s, u) && s.Pc(t) <= |Code(p, t)|
    requires ThreadEvents(s.full, t) == EventsOf(t, Original(Code(p, t)[..s.Pc(t)]))
    ensures Step(p, s, u).Pc(t) <= |Code(p, t)|
    ensures ThreadEvents(Step(p, s, u).full, t) == EventsOf(t, Original(Code(p, t)[..Step(p, s, u).Pc(t)]))
  {
    EmitsOne(u, Code(p, u)[s.Pc(u)]);
    ThreadSnoc(s.full, Emits(u, Code(p, u)[s.Pc(u)]), t, u);
    if u == t {
      OriginalSnoc(Code(p, t), s.Pc(t), t);
    }
  }

  lemma {:induction false} RunsItsCode(p: Program, sched: seq<Tid>, t: Tid)
    ensures Run(p, sched).Pc(t) <= |Code(p, t)|
    ensures ThreadEvents(Run(p, sched).full, t) == EventsOf(t, Original(Code(p, t)[..Run(p, sched).Pc(t)]))
  {
    if sched == [] {
      assert Code(p, t)[..0] == [];
    } else {
      var few, u := sched[..|sched| - 1], sched[|sched| - 1];
      RunsItsCode(p, few, t);
      if Enabled(p, Run(p, few), u) {
        RunsOneMore(p, Run(p, few), t, u);
      }
    }
  }

  lemma OriginalPrefix(code: seq<Instr>, i: nat) returns (n: nat)
    requires i <= |code|
    ensures n == |Original(code[..i])| <= |Original(code)| && Original(code[..i]) == Original(code)[..n]
  {
    OriginalConcat(code[..i], code[i..]);
    assert code == code[..i] + code[i..];
    n := |Original(code[..i])|;
  }

  /** In every run each thread makes the events of its calls in the program, from the first one on, in
      their order, with their kinds and their bytes. */
  lemma RunsTheProgram(p: Program, sched: seq<Tid>, t: Tid) returns (n: nat)
    ensures var body := if t in p then p[t] else [];
            && n <= |body| && ThreadEvents(Run(p, sched).full, t) == EventsOf(t, body[..n])
            && (Run(p, sched).Pc(t) == |Code(p, t)| ==> n == |body|)
  {
    var body := if t in p then p[t] else [];
    var code, i := Code(p, t), Run(p, sched).Pc(t);
    RunsItsCode(p, sched, t);
    WrappedIsOriginal(body);
    n := OriginalPrefix(code, i);
    assert code[..|code|] == code;
  }

  /** Every thread is created by a call the pass recognises. */
  predicate AllCreatesDirect(p: Program) {
    forall t, i :: t in p && 0 <= i < |p[t]| && p[t][i].Create? ==> p[t][i].direct
  }

  predicate AtDirectCreate(code: seq<Instr>, i: nat) {
    i < |code| && code[i].Plain? && code[i].op.Create? && code[i].op.direct
  }

  predicate AtDec(code: seq<Instr>, i: nat) {
    i < |code| && code[i].Dec?
  }

  predicate AtDirectJoin(code: seq<Instr>, i: nat) {
    i < |code| && code[i].Plain? && code[i].op.JoinThread? && code[i].op.direct
  }

  /** An increment stands before each direct create and nowhere else, a decrement behind each direct
      join and nowhere else. */
  lemma {:induction false} WrappedShape(body: seq<Op>, i: nat)
    requires i < |Wrapped(body)|
    ensures AtDirectCreate(Wrapped(body), i + 1) <==> Wrapped(body)[i].Inc?
    ensures AtDec(Wrapped(body), i + 1) <==> AtDirectJoin(Wrapped(body), i)
    ensures !AtDirectCreate(Wrapped(body), 0) && !AtDec(Wrapped(body), 0)
  {
    var pre := body[..|body| - 1];
    var last := WrapParallel(WrapTsan(body[|body| - 1]));
    assert Wrapped(body) == Wrapped(pre) + last;
    if i < |Wrapped(pre)| {
      WrappedShape(pre, i);
    } else if Wrapped(pre) != [] {
      WrappedShape(pre, 0);
    }
  }

  /** Increments and decrements are all that is added. */
  function WithoutCounting(code: seq<Instr>): seq<Instr> {
    if code == [] then []
    else WithoutCounting(code[..|code| - 1]) +
         if code[|code| - 1].Inc? || code[|code| - 1].Dec? then [] else [code[|code| - 1]]
  }

  /** The calls of the program that the code executes, whether they are guarded or not. */
  function Original(code: seq<Instr>): seq<Op> {
    if code == [] then [] else Original(code[..|code| - 1]) + OriginalCall(code[|code| - 1])
  }

  function OriginalCall(ins: Instr): seq<Op> {
    match ins
    case Plain(op) => [op]
    case Guarded(write, bytes) => [Tsan(write, bytes)]
    case _ => []
  }

  lemma {:induction false} OriginalConcat(a: seq<Instr>, b: seq<Instr>)
    ensures Original(a + b) == Original(a) + Original(b)
  {
    if b == [] {
      assert a + b == a;
    } else {
      var few, ab := b[..|b| - 1], a + b;
      OriginalConcat(a, few);
      assert ab[..|ab| - 1] == a + few && ab[|ab| - 1] == b[|b| - 1];
      OriginalAssociative(Original(a), Original(few), OriginalCall(b[|b| - 1]));
    }
  }

  lemma OriginalAssociative(a: seq<Op>, b: seq<Op>, c: seq<Op>)
    ensures a + b + c == a + (b + c)
  {
  }

  lemma OriginalOfOne(op: Op)
    ensures Original(WrapParallel(WrapTsan(op))) == [op]
  {
    var code := WrapParallel(WrapTsan(op));
    if |code| == 2 {
      OriginalConcat([code[0]], [code[1]]);
      assert code == [code[0]] + [code[1]];
      assert OriginalCall(code[0]) + OriginalCall(code[1]) == [op];
      assert Original([code[0]]) == OriginalCall(code[0]) && Original([code[1]]) == OriginalCall(code[1]);
    } else {
      assert code == [WrapTsan(op)];
      assert Original(code) == OriginalCall(code[0]);
    }
  }

  lemma {:induction false} UntouchedIsOriginal(body: seq<Op>)
    ensures Original(Untouched(body)) == body && forall i :: i in Untouched(body) ==> i.Plain?
  {
    if body != [] {
      UntouchedIsOriginal(body[..|body| - 1]);
      assert Untouched(body)[..|body| - 1] == Untouched(body[..|body| - 1]);
    }
  }

  lemma {:induction false} WrappedIsOriginal(body: seq<Op>)
    ensures Original(Wrapped(body)) == body
  {
    if body != [] {
      WrappedIsOriginal(body[..|body| - 1]);
      OneMoreOriginal(body, body[..|body| - 1], body[|body| - 1]);
    }
  }

  lemma OneMoreOriginal(body: seq<Op>, few: seq<Op>, op: Op)
    requires body == few + [op] && Original(Wrapped(few)) == few
    ensures Original(Wrapped(body)) == body
  {
    WrappedSnoc(few, op);
    OriginalOfOne(op);
    OriginalConcat(Wrapped(few), WrapParallel(WrapTsan(op)));
  }

  lemma {:induction false} NoAccessIsPlain(body: seq<Op>)
    ensures forall i :: i in Wrapped(body) && i.Plain? ==> !i.op.Tsan?
  {
    if body != [] {
      NoAccessIsPlain(body[..|body| - 1]);
    }
  }

  lemma OnlyCountingIsAdded(body: seq<Op>)
    ensures WithoutCounting(Wrapped(body)) == seq(|body|, i requires 0 <= i < |body| => WrapTsan(body[i]))
    ensures Original(Wrapped(body)) == body && forall i :: i in Wrapped(body) && i.Plain? ==> !i.op.Tsan?
  {
    WrappedIsOriginal(body);
    NoAccessIsPlain(body);
    CountingIsRemoved(body);
  }

  lemma {:induction false} CountingIsRemoved(body: seq<Op>)
    ensures WithoutCounting(Wrapped(body)) == seq(|body|, i requires 0 <= i < |body| => WrapTsan(body[i]))
  {
    if body != [] {
      CountingIsRemoved(body[..|body| - 1]);
      OneIsAdded(Wrapped(body[..|body| - 1]), body[|body| - 1]);
    }
  }

  lemma OneIsAdded(code: seq<Instr>, op: Op)
    ensures WithoutCounting(code + WrapParallel(WrapTsan(op))) == WithoutCounting(code) + [WrapTsan(op)]
  {
    var last := WrapParallel(WrapTsan(op));
    if |last| == 1 {
      assert (code + last)[..|code|] == code;
    } else {
      assert (code + last)[..|code| + 1] == code + [last[0]];
      assert (code + [last[0]])[..|code|] == code;
    }
  }

  lemma {:induction false} PlainIsOp(body: seq<Op>, i: nat)
    requires i < |Wrapped(body)| && Wrapped(body)[i].Plain?
    ensures Wrapped(body)[i].op in body
  {
    var pre := body[..|body| - 1];
    if i < |Wrapped(pre)| {
      PlainIsOp(pre, i);
    }
  }

  ghost predicate Positions(p: Program, s: State) {
    && (forall t :: t in s.creating <==> AtDirectCreate(Code(p, t), s.Pc(t)))
    && (forall t :: t in s.joining <==> AtDec(Code(p, t), s.Pc(t)))
  }

  ghost predicate Lives(p: Program, s: State) {
    && WellForked(s.full)
    && (forall t :: t in Joined(s.full) ==> s.Pc(t) == |Code(p, t)|)
  }

  ghost predicate Counts(s: State) {
    && s.incs == |Forked(s.full)| + |s.creating|
    && s.decs + |s.joining| <= |Joined(s.full)|
    && s.counter == Difference(s.incs, s.decs)
  }

  function Difference(a: nat, b: nat): nat { (a - b) % WORD }

  ghost predicate Invariant(p: Program, s: State) {
    Positions(p, s) && Lives(p, s) && Counts(s)
  }

  lemma ShapeAt(p: Program, t: Tid, i: nat)
    requires i < |Code(p, t)|
    ensures AtDirectCreate(Code(p, t), i + 1) <==> Code(p, t)[i].Inc?
    ensures AtDec(Code(p, t), i + 1) <==> AtDirectJoin(Code(p, t), i)
    ensures !AtDirectCreate(Code(p, t), 0) && !AtDec(Code(p, t), 0)
  {
    WrappedShape(p[t], i);
  }

  lemma ShiftedModulo(a: nat, b: nat)
    ensures Up(Difference(a, b)) == Difference(a + 1, b)
    ensures Down(Difference(a, b)) == Difference(a, b + 1)
  {
  }

  lemma PositionsStep(p: Program, s: State, t: Tid)
    requires Positions(p, s) && Enabled(p, s, t)
    ensures Positions(p, Step(p, s, t))
  {
    ShapeAt(p, t, s.Pc(t));
    var s' := Step(p, s, t);
    forall u
      ensures s'.Pc(u) == if u == t then s.Pc(t) + 1 else s.Pc(u)
    {
    }
    assert Code(p, t)[s.Pc(t)].Inc? || !AtDirectCreate(Code(p, t), s.Pc(t) + 1);
  }

  /** An instruction emits at most one event; creates and joins emit the event that they stand for. */
  lemma EmitsOne(t: Tid, ins: Instr)
    ensures |Emits(t, ins)| <= 1 && (Emits(t, ins) == [] ==> !IsCreate(ins) && !IsJoin(ins))
    ensures Emits(t, ins) != [] ==>
              var e := Emits(t, ins)[0];
              && e.tid == t && (e.Fork? <==> IsCreate(ins)) && (e.Join? <==> IsJoin(ins))
              && (e.Fork? || e.Join? ==> e.child == ins.op.child)
  {
  }

  lemma EnabledCanHappen(p: Program, s: State, t: Tid)
    requires Enabled(p, s, t)
    ensures var es := Emits(t, Code(p, t)[s.Pc(t)]); es != [] ==> CanHappen(s.full, es[0])
  {
    EmitsOne(t, Code(p, t)[s.Pc(t)]);
  }

  lemma TraceStep(p: Program, s: State, t: Tid)
    requires Lives(p, s) && Enabled(p, s, t)
    ensures var s' := Step(p, s, t); var ins := Code(p, t)[s.Pc(t)];
            && WellForked(s'.full)
            && Forked(s'.full) == Forked(s.full) + (if IsCreate(ins) then {ins.op.child} else {})
            && Joined(s'.full) == Joined(s.full) + (if IsJoin(ins) then {ins.op.child} else {})
            && (IsCreate(ins) ==> ins.op.child !in Forked(s.full)) && (IsJoin(ins) ==> ins.op.child !in Joined(s.full))
  {
    var ins := Code(p, t)[s.Pc(t)];
    var es := Emits(t, ins);
    EmitsOne(t, ins);
    EnabledCanHappen(p, s, t);
    assert Step(p, s, t).full == s.full + es;
    if es == [] {
      assert s.full + [] == s.full;
    } else {
      assert es == [es[0]];
      EmitExtends(s.full, es[0]);
    }
  }

  lemma LivesStep(p: Program, s: State, t: Tid)
    requires Lives(p, s) && Enabled(p, s, t)
    ensures Lives(p, Step(p, s, t))
  {
    TraceStep(p, s, t);
    var s' := Step(p, s, t);
    forall u | u in Joined(s'.full)
      ensures s'.Pc(u) == |Code(p, u)|
    {
      assert u != t;
    }
  }

  predicate IsCreate(ins: Instr) {
    ins.Plain? && ins.op.Create?
  }

  predicate IsJoin(ins: Instr) {
    ins.Plain? && ins.op.JoinThread?
  }

  /** How a step moves the numbers and sets behind the counter. */
  lemma StepCounts(p: Program, s: State, t: Tid)
    requires Enabled(p, s, t)
    ensures var s' := Step(p, s, t); var ins := Code(p, t)[s.Pc(t)];
            && s'.incs == s.incs + (if ins.Inc? then 1 else 0)
            && s'.decs == s.decs + (if ins.Dec? then 1 else 0)
            && s'.creating == (if ins.Inc? then s.creating + {t} else s.creating - {t})
            && s'.joining == (if AtDirectJoin(Code(p, t), s.Pc(t)) then s.joining + {t} else s.joining - {t})
  {
  }

  lemma IncsStep(p: Program, s: State, t: Tid)
    requires Positions(p, s) && Lives(p, s) && Counts(s) && Enabled(p, s, t)
    requires AllCreatesDirect(p)
    ensures var s' := Step(p, s, t); s'.incs == |Forked(s'.full)| + |s'.creating|
  {
    var ins := Code(p, t)[s.Pc(t)];
    TraceStep(p, s, t);
    StepCounts(p, s, t);
    if IsCreate(ins) {
      PlainIsOp(p[t], s.Pc(t));
    }
    assert t in s.creating <==> IsCreate(ins);
    if ins.Inc? {
      Grow(s.creating, t);
    } else {
      Shrink(s.creating, t);
    }
    if IsCreate(ins) {
      Grow(Forked(s.full), ins.op.child);
    }
  }

  lemma DecsStep(p: Program, s: State, t: Tid)
    requires Positions(p, s) && Lives(p, s) && Counts(s) && Enabled(p, s, t)
    ensures var s' := Step(p, s, t); s'.decs + |s'.joining| <= |Joined(s'.full)|
  {
    var ins := Code(p, t)[s.Pc(t)];
    TraceStep(p, s, t);
    StepCounts(p, s, t);
    assert t in s.joining <==> ins.Dec?;
    if AtDirectJoin(Code(p, t), s.Pc(t)) {
      Grow(s.joining, t);
    } else {
      Shrink(s.joining, t);
    }
    if IsJoin(ins) {
      Grow(Joined(s.full), ins.op.child);
    }
  }

  lemma CounterStep(p: Program, s: State, t: Tid)
    requires Enabled(p, s, t) && s.counter == Difference(s.incs, s.decs)
    ensures var s' := Step(p, s, t); s'.counter == Difference(s'.incs, s'.decs)
  {
    ShiftedModulo(s.incs, s.decs);
  }

  lemma CountsStep(p: Program, s: State, t: Tid)
    requires AllCreatesDirect(p) && Positions(p, s) && Lives(p, s) && Counts(s) && Enabled(p, s, t)
    ensures Counts(Step(p, s, t))
  {
    IncsStep(p, s, t);
    DecsStep(p, s, t);
    CounterStep(p, s, t);
  }

  /** Whatever the program, the sets are as the positions say, and the trace is one of threads. */
  lemma {:induction false} PositionsHold(p: Program, sched: seq<Tid>)
    ensures Positions(p, Run(p, sched)) && Lives(p, Run(p, sched))
  {
    if sched == [] {
      forall t
        ensures !AtDirectCreate(Code(p, t), 0) && !AtDec(Code(p, t), 0)
      {
        if Code(p, t) != [] {
          ShapeAt(p, t, 0);
        }
      }
    } else {
      var n := |sched| - 1;
      PositionsHold(p, sched[..n]);
      if Enabled(p, Run(p, sched[..n]), sched[n]) {
        PositionsStep(p, Run(p, sched[..n]), sched[n]);
        LivesStep(p, Run(p, sched[..n]), sched[n]);
      }
    }
  }

  lemma {:induction false} InvariantHolds(p: Program, sched: seq<Tid>)
    requires AllCreatesDirect(p)
    ensures Invariant(p, Run(p, sched))
  {
    PositionsHold(p, sched);
    if sched != [] {
      var n := |sched| - 1;
      InvariantHolds(p, sched[..n]);
      if Enabled(p, Run(p, sched[..n]), sched[n]) {
        CountsStep(p, Run(p, sched[..n]), sched[n]);
      }
    }
  }

  /** In every reachable state of every schedule, a zero counter means that every created thread has
      been joined, as long as fewer than 2^64 creations are in flight. */
  lemma ZeroMeansAllJoined(p: Program, sched: seq<Tid>)
    requires AllCreatesDirect(p)
    requires var s := Run(p, sched); s.incs - s.decs < WORD
    ensures Run(p, sched).counter == 0 ==> Alone(Run(p, sched).full)
  {
    InvariantHolds(p, sched);
    BalancedIsAlone(Run(p, sched));
  }

  lemma BalancedIsAlone(s: State)
    requires WellForked(s.full) && Counts(s) && s.incs - s.decs < WORD
    ensures s.counter == 0 ==> Alone(s.full)
  {
    JoinedWereForked(s.full);
    SubsetSize(Joined(s.full), Forked(s.full));
    if s.counter == 0 {
      assert s.incs == s.decs;
      assert |Joined(s.full)| == |Forked(s.full)|;
    }
  }

  ghost predicate NeverWraps(p: Program, sched: seq<Tid>) {
    forall k :: 0 <= k <= |sched| ==> Run(p, sched[..k]).incs - Run(p, sched[..k]).decs < WORD
  }

  lemma {:induction false} HiddenOnlyWhenAlone(p: Program, sched: seq<Tid>)
    requires AllCreatesDirect(p) && NeverWraps(p, sched)
    ensures forall n :: n in Run(p, sched).hidden ==>
                          n < |Run(p, sched).full| && Alone(Run(p, sched).full[..n])
  {
    if sched != [] {
      var pre := sched[..|sched| - 1];
      assert forall k :: 0 <= k <= |pre| ==> pre[..k] == sched[..k];
      HiddenOnlyWhenAlone(p, pre);
      ZeroMeansAllJoined(p, pre) by {
        assert sched[..|pre|] == pre;
      }
      var s, s' := Run(p, pre), Run(p, sched);
      assert s' == Step(p, s, sched[|sched| - 1]);
      forall n | n in s'.hidden
        ensures n < |s'.full| && Alone(s'.full[..n])
      {
        if n in s.hidden {
          assert s'.full[..n] == s.full[..n];
        } else {
          assert s'.full[..n] == s.full;
        }
      }
    }
  }

  /** The guard loses no race and invents none: in every run the detector reports the same races on
      the guarded accesses as it would on all of them. */
  lemma GuardKeepsVerdict(p: Program, sched: seq<Tid>)
    requires AllCreatesDirect(p) && NeverWraps(p, sched)
    ensures var s := Run(p, sched); SameVerdict(s.full, Dropped(s.full, s.hidden))
  {
    InvariantHolds(p, sched);
    HiddenOnlyWhenAlone(p, sched);
    AloneDropKeepsVerdict(Run(p, sched).full, Run(p, sched).hidden);
  }

  // ---------------------------------------------------------------- what the pass overlooks

  /** A program that creates its thread through a function pointer: the call has no named callee, so
      no increment is inserted, although the pass does guard the accesses. */
  const OVERLOOKED: Program := map[
    0 := [Create(1, false), Tsan(true, {7}), JoinThread(1, true)],
    1 := [Tsan(true, {7})]
  ]

  const SCHEDULE: seq<Tid> := [0, 0, 1]

  const UNGUARDED: Trace := [Fork(0, 1), Access(0, true, {7}), Access(1, true, {7})]

  lemma WrappedSnoc(pre: seq<Op>, op: Op)
    ensures Wrapped(pre + [op]) == Wrapped(pre) + WrapParallel(WrapTsan(op))
  {
    assert (pre + [op])[..|pre|] == pre;
  }

  lemma OverlookedCode()
    ensures Code(OVERLOOKED, 0) == [Plain(Create(1, false)), Guarded(true, {7}), Plain(JoinThread(1, true)), Dec]
    ensures Code(OVERLOOKED, 1) == [Guarded(true, {7})]
  {
    WrappedSnoc([], Create(1, false));
    WrappedSnoc([Create(1, false)], Tsan(true, {7}));
    WrappedSnoc([Create(1, false), Tsan(true, {7})], JoinThread(1, true));
    assert OVERLOOKED[0] == [Create(1, false), Tsan(true, {7})] + [JoinThread(1, true)];
    assert [Create(1, false), Tsan(true, {7})] == [Create(1, false)] + [Tsan(true, {7})];
    assert [] + [Create(1, false)] == [Create(1, false)];
    WrappedSnoc([], Tsan(true, {7}));
  }

  function After(pc: map<Tid, nat>, full: Trace, hidden: set<nat>): State {
    State(pc, 0, full, hidden, 0, 0, {}, {})
  }

  const CREATED := After(map[0 := 1], UNGUARDED[..1], {})
  const SKIPPED := After(map[0 := 2], UNGUARDED[..2], {1})
  const SKIPPED_TWICE := After(map[0 := 2, 1 := 1], UNGUARDED, {1, 2})

  lemma FirstStep()
    ensures Step(OVERLOOKED, START, 0) == CREATED
  {
    OverlookedCode();
    assert UNGUARDED[..1] == [Fork(0, 1)];
  }

  lemma SecondStep()
    ensures Step(OVERLOOKED, CREATED, 0) == SKIPPED
  {
    OverlookedCode();
    assert UNGUARDED[..2] == UNGUARDED[..1] + [Access(0, true, {7})];
    assert UNGUARDED[..1] == [] + [Fork(0, 1)];
    EmitExtends([], Fork(0, 1));
    assert Joined(UNGUARDED[..1]) == {};
  }

  lemma ThirdStep()
    ensures Step(OVERLOOKED, SKIPPED, 1) == SKIPPED_TWICE
  {
    OverlookedCode();
    assert UNGUARDED == UNGUARDED[..2] + [Access(1, true, {7})];
    assert UNGUARDED[..2] == [] + [Fork(0, 1)] + [Access(0, true, {7})];
    EmitExtends([], Fork(0, 1));
    EmitExtends([] + [Fork(0, 1)], Access(0, true, {7}));
    assert 1 in Forked(UNGUARDED[..2]) && Joined(UNGUARDED[..2]) == {};
  }

  lemma OverlookedRun()
    ensures Run(OVERLOOKED, SCHEDULE).full == UNGUARDED && Run(OVERLOOKED, SCHEDULE).hidden == {1, 2}
  {
    FirstStep();
    SecondStep();
    ThirdStep();
    assert SCHEDULE[..2] == [0, 0] && [0, 0][..1] == [0] && [0][..0] == [];
    assert Run(OVERLOOKED, []) == START;
    assert Run(OVERLOOKED, [0]) == CREATED;
    assert Run(OVERLOOKED, [0, 0]) == SKIPPED;
  }

  lemma DroppedOverlooked()
    ensures Dropped(UNGUARDED, {1, 2}) == [Fork(0, 1)]
  {
    assert UNGUARDED[..2][..1] == [Fork(0, 1)] && [Fork(0, 1)][..0] == [];
    assert Dropped([Fork(0, 1)], {1, 2}) == [Fork(0, 1)];
    assert Dropped(UNGUARDED[..2], {1, 2}) == [Fork(0, 1)];
  }

  /** The pass applies to this program and skips both racing accesses. */
  lemma UncountedCreateLosesRace()
    ensures Applies(true, [OVERLOOKED[0], OVERLOOKED[1]])
    ensures var s := Run(OVERLOOKED, SCHEDULE);
            && Race(s.full, 7, 0, true, 1, true)
            && !Race(Dropped(s.full, s.hidden), 7, 0, true, 1, true)
  {
    var funcs := [OVERLOOKED[0], OVERLOOKED[1]];
    assert IsThreadCall(funcs[0][2]) && funcs[0][1].Tsan?;
    OverlookedRun();
    assert RacePair(UNGUARDED, 1, 2, 7, 0, true, 1, true);
    DroppedOverlooked();
  }
}
