/**
Runs of an OpenMP program.  Each thread has a call stack; a call of the runtime opens a region, for
which any number of worker threads may be created and which ends when all of them have been joined.
*/
module SequentialRun {
  import opened HappensBefore
  import opened Verdict
  import opened ForkJoin
  import opened SequentialRemoval

  /** A frame is a function, or the runtime waiting for the workers of a region that runs f. */
  datatype Frame = Fun(f: Fn) | Region(f: Fn, team: seq<Tid>)

  /** `quiet` are the accesses made in functions that lose their calls. */
  datatype State = State(stacks: map<Tid, seq<Frame>>, next: Tid, trace: Trace, quiet: set<nat>) {
    function Stack(t: Tid): seq<Frame> {
      if t in stacks then stacks[t] else []
    }

    function Put(t: Tid, st: seq<Frame>): (s: State)
      ensures forall u :: s.Stack(u) == if u == t then st else Stack(u)
      ensures s.next == next && s.trace == trace && s.quiet == quiet
    {
      this.(stacks := stacks[t := st])
    }
  }

  datatype Action =
    | Enter(g: Fn)                          // call a function
    | Leave                                 // return from it
    | Open(g: Fn)                           // hand a function to the runtime and start running it
    | Spawn(i: nat)                         // create a worker for the region at stack index i
    | Collect                               // join a finished worker of the innermost region
    | Close                                 // all workers joined: the call of the runtime returns
    | Touch(write: bool, bytes: set<Byte>)  // a TSAN access

  predicate Running(s: State, t: Tid, f: Fn) {
    var st := s.Stack(t); st != [] && st[|st| - 1] == Fun(f)
  }

  function Start(main: Fn): State {
    State(map[MAIN := [Fun(main)]], 1, [], {})
  }

  ghost predicate Enabled(m: Module, s: State, t: Tid, a: Action) {
    var st := s.Stack(t);
    && st != []
    && match a
       case Enter(g) => st[|st| - 1].Fun? && Called(m, st[|st| - 1].f, g)
       case Leave => st[|st| - 1].Fun?
       case Open(g) => st[|st| - 1].Fun? && Handed(m, st[|st| - 1].f, g)
       case Spawn(i) => i < |st| && st[i].Region?
       case Collect =>
         && st[|st| - 1].Region? && st[|st| - 1].team != []
         && s.Stack(st[|st| - 1].team[0]) == [] && CanHappen(s.trace, Join(t, st[|st| - 1].team[0]))
       case Close => st[|st| - 1].Region? && st[|st| - 1].team == []
       case Touch(_, _) => st[|st| - 1].Fun?
  }

  ghost function Step(m: Module, s: State, t: Tid, a: Action): State {
    if !Enabled(m, s, t, a) then s
    else
      var st := s.Stack(t);
      var rest, top := st[..|st| - 1], st[|st| - 1];
      match a
      case Enter(g) => s.Put(t, st + [Fun(g)])
      case Leave => s.Put(t, rest)
      case Open(g) => s.Put(t, st + [Region(g, []), Fun(g)])
      case Spawn(i) =>
        s.Put(t, st[i := Region(st[i].f, st[i].team + [s.next])]).Put(s.next, [Fun(st[i].f)])
         .(next := s.next + 1, trace := s.trace + [Fork(t, s.next)])
      case Collect =>
        s.Put(t, rest + [Region(top.f, top.team[1..])]).(trace := s.trace + [Join(t, top.team[0])])
      case Close => s.Put(t, rest)
      case Touch(w, bytes) =>
        s.(trace := s.trace + [Access(t, w, bytes)],
           quiet := if LosesCalls(m, top.f) then s.quiet + {|s.trace|} else s.quiet)
  }

  ghost function Run(m: Module, main: Fn, sched: seq<(Tid, Action)>): State {
    if sched == [] then Start(main)
    else Step(m, Run(m, main, sched[..|sched| - 1]), sched[|sched| - 1].0, sched[|sched| - 1].1)
  }

  // ---------------------------------------------------------------- what every reachable state keeps

  predicate InRegion(st: seq<Frame>, t: Tid, i: nat)
    requires i < |st|
  {
    t != MAIN || exists j :: 0 <= j <= i && st[j].Region?
  }

  /** Outside regions frame i of thread t has been reached by calls, inside it is marked. */
  ghost predicate FrameOk(m: Module, st: seq<Frame>, t: Tid, i: nat)
    requires i < |st|
  {
    if InRegion(st, t, i) then MayRunParallel(m, st[i].f) else Visited(m, st[i].f) || MayRunParallel(m, st[i].f)
  }

  ghost predicate StackOk(m: Module, st: seq<Frame>, t: Tid) {
    forall i :: 0 <= i < |st| ==> FrameOk(m, st, t, i)
  }

  ghost predicate StacksOk(m: Module, s: State) {
    forall t :: StackOk(m, s.Stack(t), t)
  }

  /** Thread p waits for worker u. */
  predicate Awaits(s: State, p: Tid, i: nat, u: Tid) {
    i < |s.Stack(p)| && s.Stack(p)[i].Region? && u in s.Stack(p)[i].team
  }

  ghost predicate Awaited(s: State, u: Tid) {
    exists p: nat, i: nat :: p < u && Awaits(s, p, i, u)
  }

  ghost predicate Numbered(s: State) {
    WellForked(s.trace) && 0 < s.next && forall u :: u in Forked(s.trace) <==> 0 < u < s.next
  }

  ghost predicate OnlyLiveRun(s: State) {
    forall t :: s.Stack(t) != [] ==> Live(s.trace, t)
  }

  ghost predicate AllAwaited(s: State) {
    forall u :: 0 < u < s.next && u !in Joined(s.trace) ==> Awaited(s, u)
  }

  ghost predicate ThreadsOk(s: State) {
    Numbered(s) && OnlyLiveRun(s) && AllAwaited(s)
  }

  /** The worker that the innermost region of thread t joins next. */
  function NextWorker(s: State, t: Tid): Tid {
    var st := s.Stack(t);
    if st != [] && st[|st| - 1].Region? && st[|st| - 1].team != [] then st[|st| - 1].team[0] else MAIN
  }

  lemma PrefixOk(m: Module, st: seq<Frame>, t: Tid, n: nat)
    requires StackOk(m, st, t) && n <= |st|
    ensures StackOk(m, st[..n], t)
  {
    forall i | 0 <= i < n
      ensures FrameOk(m, st[..n], t, i)
    {
      assert FrameOk(m, st, t, i);
      assert InRegion(st[..n], t, i) ==> InRegion(st, t, i);
    }
  }

  /** A frame for a function that the top function calls, or for one that it hands over. */
  lemma PushOk(m: Module, st: seq<Frame>, t: Tid, fr: Frame)
    requires StackOk(m, st, t) && st != []
    requires if fr.Fun? then Called(m, st[|st| - 1].f, fr.f) || (st[|st| - 1].Region? && st[|st| - 1].f == fr.f)
             else Handed(m, st[|st| - 1].f, fr.f)
    ensures StackOk(m, st + [fr], t)
  {
    var n, f := |st|, st[|st| - 1].f;
    assert FrameOk(m, st, t, n - 1);
    if Visited(m, f) {
      VisitedStep(m, f, fr.f);
    }
    if MayRunParallel(m, f) && (Called(m, f, fr.f) || Handed(m, f, fr.f)) {
      ParallelStep(m, f, fr.f);
    }
    forall i | 0 <= i <= n
      ensures FrameOk(m, st + [fr], t, i)
    {
      if i < n {
        assert FrameOk(m, st, t, i);
        assert InRegion(st + [fr], t, i) ==> InRegion(st, t, i);
      } else if fr.Fun? && InRegion(st + [fr], t, n) {
        assert InRegion(st, t, n - 1);
      }
    }
  }

  /** Changing the team of a region changes nothing for the functions. */
  lemma TeamOk(m: Module, st: seq<Frame>, t: Tid, i: nat, team: seq<Tid>)
    requires StackOk(m, st, t) && i < |st| && st[i].Region?
    ensures StackOk(m, st[i := Region(st[i].f, team)], t)
    ensures MayRunParallel(m, st[i].f)
  {
    var st' := st[i := Region(st[i].f, team)];
    assert FrameOk(m, st, t, i);
    forall k | 0 <= k < |st|
      ensures FrameOk(m, st', t, k)
    {
      assert FrameOk(m, st, t, k);
      assert InRegion(st', t, k) ==> InRegion(st, t, k);
    }
  }

  lemma PutOk(m: Module, s: State, t: Tid, st: seq<Frame>)
    requires StacksOk(m, s) && StackOk(m, st, t)
    ensures StacksOk(m, s.Put(t, st))
  {
    forall u
      ensures StackOk(m, s.Put(t, st).Stack(u), u)
    {
    }
  }

  lemma OnlyStacksMatter(m: Module, s: State, s': State)
    requires StacksOk(m, s) && s'.stacks == s.stacks
    ensures StacksOk(m, s')
  {
    forall t
      ensures StackOk(m, s'.Stack(t), t)
    {
      assert s'.Stack(t) == s.Stack(t);
    }
  }

  lemma SpawnOk(m: Module, s: State, t: Tid, i: nat)
    requires StacksOk(m, s) && Enabled(m, s, t, Spawn(i)) && 0 < s.next
    ensures StacksOk(m, Step(m, s, t, Spawn(i)))
  {
    var st := s.Stack(t);
    var st' := st[i := Region(st[i].f, st[i].team + [s.next])];
    TeamOk(m, st, t, i, st[i].team + [s.next]);
    PutOk(m, s, t, st');
    assert StackOk(m, [Fun(st[i].f)], s.next) by {
      assert FrameOk(m, [Fun(st[i].f)], s.next, 0);
    }
    PutOk(m, s.Put(t, st'), s.next, [Fun(st[i].f)]);
    OnlyStacksMatter(m, s.Put(t, st').Put(s.next, [Fun(st[i].f)]), Step(m, s, t, Spawn(i)));
  }

  lemma StacksStep(m: Module, s: State, t: Tid, a: Action)
    requires StacksOk(m, s) && Enabled(m, s, t, a) && 0 < s.next
    ensures StacksOk(m, Step(m, s, t, a))
  {
    var st := s.Stack(t);
    var rest, top := st[..|st| - 1], st[|st| - 1];
    match a
    case Enter(g) =>
      PushOk(m, st, t, Fun(g));
      PutOk(m, s, t, st + [Fun(g)]);
    case Leave =>
      PrefixOk(m, st, t, |st| - 1);
      PutOk(m, s, t, rest);
    case Open(g) =>
      PushOk(m, st, t, Region(g, []));
      PushOk(m, st + [Region(g, [])], t, Fun(g));
      assert st + [Region(g, [])] + [Fun(g)] == st + [Region(g, []), Fun(g)];
      PutOk(m, s, t, st + [Region(g, []), Fun(g)]);
    case Spawn(i) =>
      SpawnOk(m, s, t, i);
    case Collect =>
      TeamOk(m, st, t, |st| - 1, top.team[1..]);
      assert rest + [Region(top.f, top.team[1..])] == st[|st| - 1 := Region(top.f, top.team[1..])];
      PutOk(m, s, t, rest + [Region(top.f, top.team[1..])]);
      OnlyStacksMatter(m, s.Put(t, rest + [Region(top.f, top.team[1..])]), Step(m, s, t, a));
    case Close =>
      PrefixOk(m, st, t, |st| - 1);
      PutOk(m, s, t, rest);
    case Touch(_, _) =>
      OnlyStacksMatter(m, s, Step(m, s, t, a));
  }

  lemma AwaitedStep(m: Module, s: State, t: Tid, a: Action, u: Tid)
    requires Enabled(m, s, t, a) && Awaited(s, u) && s.Stack(s.next) == []
    requires !(a.Collect? && NextWorker(s, t) == u)
    ensures Awaited(Step(m, s, t, a), u)
  {
    var s' := Step(m, s, t, a);
    var p: nat, i: nat :| p < u && Awaits(s, p, i, u);
    if p == t && a.Collect? && i == |s.Stack(t)| - 1 {
      var team := s.Stack(t)[i].team;
      var k :| 0 <= k < |team| && team[k] == u;
      assert team[1..][k - 1] == u;
    }
    assert Awaits(s', p, i, u);
  }

  /** The creations and joins that a step adds to the trace. */
  lemma TraceStep(m: Module, s: State, t: Tid, a: Action)
    requires Numbered(s) && OnlyLiveRun(s) && Enabled(m, s, t, a)
    ensures var s' := Step(m, s, t, a);
            && Numbered(s')
            && Joined(s'.trace) == Joined(s.trace) + (if a.Collect? then {NextWorker(s, t)} else {})
            && s'.next == s.next + if a.Spawn? then 1 else 0
  {
    assert Live(s.trace, t);
    JoinedWereForked(s.trace);
    match a
    case Spawn(_) => EmitExtends(s.trace, Fork(t, s.next));
    case Collect => EmitExtends(s.trace, Join(t, NextWorker(s, t)));
    case Touch(w, bytes) => EmitExtends(s.trace, Access(t, w, bytes));
    case _ =>
  }

  /** Only live threads run: a thread is joined when its stack is empty. */
  lemma LiveStep(m: Module, s: State, t: Tid, a: Action)
    requires ThreadsOk(s) && Enabled(m, s, t, a)
    ensures OnlyLiveRun(Step(m, s, t, a))
  {
    var s' := Step(m, s, t, a);
    TraceStep(m, s, t, a);
    JoinedWereForked(s.trace);
    forall u | s'.Stack(u) != []
      ensures Live(s'.trace, u)
    {
      if !(a.Spawn? && u == s.next) {
        assert u == t || s'.Stack(u) == s.Stack(u);
        assert Live(s.trace, u);
      }
    }
  }

  lemma StillAwaited(m: Module, s: State, t: Tid, a: Action)
    requires ThreadsOk(s) && Enabled(m, s, t, a)
    ensures AllAwaited(Step(m, s, t, a))
  {
    var s' := Step(m, s, t, a);
    TraceStep(m, s, t, a);
    JoinedWereForked(s.trace);
    assert Live(s.trace, t);
    assert s.Stack(s.next) == [] by {
      assert !Live(s.trace, s.next);
    }
    forall u | 0 < u < s'.next && u !in Joined(s'.trace)
      ensures Awaited(s', u)
    {
      if u == s.next {
        assert Awaits(s', t, a.i, u);
      } else {
        AwaitedStep(m, s, t, a, u);
      }
    }
  }

  lemma ThreadsStep(m: Module, s: State, t: Tid, a: Action)
    requires ThreadsOk(s) && Enabled(m, s, t, a)
    ensures ThreadsOk(Step(m, s, t, a))
  {
    TraceStep(m, s, t, a);
    LiveStep(m, s, t, a);
    StillAwaited(m, s, t, a);
  }

  lemma {:induction false} Reachable(m: Module, main: Fn, sched: seq<(Tid, Action)>)
    requires Root(m, main)
    ensures var s := Run(m, main, sched); StacksOk(m, s) && ThreadsOk(s)
  {
    if sched == [] {
      RootIsVisited(m, main);
    } else {
      var n := |sched| - 1;
      Reachable(m, main, sched[..n]);
      var s := Run(m, main, sched[..n]);
      if Enabled(m, s, sched[n].0, sched[n].1) {
        StacksStep(m, s, sched[n].0, sched[n].1);
        ThreadsStep(m, s, sched[n].0, sched[n].1);
      }
    }
  }

  // ---------------------------------------------------------------- sequential functions run alone

  /** While some worker has not been joined, the main thread is inside a region. */
  lemma {:induction false} MainIsInRegion(m: Module, s: State, u: Tid)
    requires ThreadsOk(s) && 0 < u < s.next && u !in Joined(s.trace)
    ensures exists i :: 0 <= i < |s.Stack(MAIN)| && s.Stack(MAIN)[i].Region?
    decreases u
  {
    assert Awaited(s, u);
    var p: nat, i: nat :| p < u && Awaits(s, p, i, u);
    if p != MAIN {
      assert Live(s.trace, p);
      MainIsInRegion(m, s, p);
    }
  }

  /** In every reachable state of every run, a function that is not marked is executed by the main
      thread, at a time when every worker that was ever created has been joined. */
  lemma UnmarkedRunsAlone(m: Module, main: Fn, sched: seq<(Tid, Action)>, t: Tid, f: Fn)
    requires Root(m, main) && Running(Run(m, main, sched), t, f) && !MayRunParallel(m, f)
    ensures t == MAIN && Alone(Run(m, main, sched).trace)
  {
    Reachable(m, main, sched);
    var s := Run(m, main, sched);
    var st := s.Stack(t);
    assert FrameOk(m, st, t, |st| - 1);
    assert !InRegion(st, t, |st| - 1);
    forall u | u in Forked(s.trace)
      ensures u in Joined(s.trace)
    {
      if u !in Joined(s.trace) {
        MainIsInRegion(m, s, u);
      }
    }
  }

  ghost predicate QuietOk(s: State) {
    forall n :: n in s.quiet ==> n < |s.trace| && Alone(s.trace[..n])
  }

  lemma QuietStep(m: Module, s: State, t: Tid, a: Action)
    requires QuietOk(s)
    requires forall f :: Running(s, t, f) && !MayRunParallel(m, f) ==> Alone(s.trace)
    ensures QuietOk(Step(m, s, t, a))
  {
    var s' := Step(m, s, t, a);
    assert |s.trace| <= |s'.trace| && s'.trace[..|s.trace|] == s.trace;
    forall n | n in s'.quiet
      ensures n < |s'.trace| && Alone(s'.trace[..n])
    {
      if n in s.quiet {
        assert s'.trace[..n] == s.trace[..n];
      } else {
        assert Running(s, t, s.Stack(t)[|s.Stack(t)| - 1].f);
      }
    }
  }

  lemma {:induction false} QuietIsAlone(m: Module, main: Fn, sched: seq<(Tid, Action)>)
    requires Root(m, main)
    ensures QuietOk(Run(m, main, sched))
  {
    if sched != [] {
      var k := |sched| - 1;
      QuietIsAlone(m, main, sched[..k]);
      var s := Run(m, main, sched[..k]);
      var t := sched[k].0;
      forall f | Running(s, t, f) && !MayRunParallel(m, f)
        ensures Alone(s.trace)
      {
        UnmarkedRunsAlone(m, main, sched[..k], t, f);
      }
      QuietStep(m, s, t, sched[k].1);
    }
  }

  /** Event n is an access that step k makes in function f. */
  ghost predicate IsMadeIn(m: Module, main: Fn, sched: seq<(Tid, Action)>, k: nat, n: nat, f: Fn) {
    && k < |sched| && sched[k].1.Touch? && n == |Run(m, main, sched[..k]).trace|
    && Running(Run(m, main, sched[..k]), sched[k].0, f)
  }

  ghost predicate MadeInCleaned(m: Module, main: Fn, sched: seq<(Tid, Action)>, n: nat) {
    exists k, f :: IsMadeIn(m, main, sched, k, n, f) && LosesCalls(m, f)
  }

  ghost predicate LastIsCleaned(m: Module, main: Fn, sched: seq<(Tid, Action)>, n: nat)
    requires sched != []
  {
    exists f :: IsMadeIn(m, main, sched, |sched| - 1, n, f) && LosesCalls(m, f)
  }

  lemma MadeBefore(m: Module, main: Fn, sched: seq<(Tid, Action)>, last: (Tid, Action), n: nat)
    ensures MadeInCleaned(m, main, sched + [last], n) <==>
              (MadeInCleaned(m, main, sched, n) || LastIsCleaned(m, main, sched + [last], n))
  {
    var more := sched + [last];
    assert forall k :: 0 <= k <= |sched| ==> more[..k] == sched[..k];
    forall k: nat, f
      ensures IsMadeIn(m, main, more, k, n, f) ==> k == |sched| || IsMadeIn(m, main, sched, k, n, f)
      ensures IsMadeIn(m, main, sched, k, n, f) ==> IsMadeIn(m, main, more, k, n, f)
    {
      assert k < |sched| ==> more[k] == sched[k];
    }
  }

  lemma QuietGrows(m: Module, s: State, t: Tid, a: Action, n: nat)
    ensures n in Step(m, s, t, a).quiet <==>
              (n in s.quiet || (a.Touch? && n == |s.trace| && exists f :: Running(s, t, f) && LosesCalls(m, f)))
  {
    var st := s.Stack(t);
    if Enabled(m, s, t, a) && a.Touch? {
      assert Running(s, t, st[|st| - 1].f);
    }
  }

  /** The quiet accesses of a run are exactly those that are made in cleaned functions. */
  lemma {:induction false} QuietIsExact(m: Module, main: Fn, sched: seq<(Tid, Action)>, n: nat)
    ensures n in Run(m, main, sched).quiet <==> MadeInCleaned(m, main, sched, n)
  {
    if sched != [] {
      var few, last := sched[..|sched| - 1], sched[|sched| - 1];
      QuietIsExact(m, main, few, n);
      MadeBefore(m, main, few, last, n);
      assert sched == few + [last] && sched[..|few|] == few;
      QuietGrows(m, Run(m, main, few), last.0, last.1, n);
      assert |few| == |sched| - 1 && sched[|few|] == last;
      assert forall f :: IsMadeIn(m, main, sched, |few|, n, f) <==>
               (last.1.Touch? && n == |Run(m, main, few).trace| && Running(Run(m, main, few), last.0, f));
    }
  }

  /** What is reported of a run when the calls of cleaned functions are removed. */
  ghost function Reported(m: Module, main: Fn, sched: seq<(Tid, Action)>): Trace {
    var tr := Run(m, main, sched).trace;
    Dropped(tr, set n: nat | n < |tr| && MadeInCleaned(m, main, sched, n))
  }

  /** Removing the calls of unmarked functions changes no verdict in any run of the program. */
  lemma RemovalKeepsVerdict(m: Module, main: Fn, sched: seq<(Tid, Action)>)
    requires Root(m, main)
    ensures SameVerdict(Run(m, main, sched).trace, Reported(m, main, sched))
  {
    QuietKeepsVerdict(m, main, sched);
    var s := Run(m, main, sched);
    QuietIsAlone(m, main, sched);
    forall n: nat
      ensures n in s.quiet <==> n < |s.trace| && MadeInCleaned(m, main, sched, n)
    {
      QuietIsExact(m, main, sched, n);
    }
    assert s.quiet == set n: nat | n < |s.trace| && MadeInCleaned(m, main, sched, n);
  }

  lemma QuietKeepsVerdict(m: Module, main: Fn, sched: seq<(Tid, Action)>)
    requires Root(m, main)
    ensures var s := Run(m, main, sched); SameVerdict(s.trace, Dropped(s.trace, s.quiet))
  {
    Reachable(m, main, sched);
    QuietIsAlone(m, main, sched);
    AloneDropKeepsVerdict(Run(m, main, sched).trace, Run(m, main, sched).quiet);
  }

  // ---------------------------------------------------------------- marked functions may run in parallel

  lemma RunSnoc(m: Module, main: Fn, sched: seq<(Tid, Action)>, t: Tid, a: Action)
    requires Enabled(m, Run(m, main, sched), t, a)
    ensures Run(m, main, sched + [(t, a)]) == Step(m, Run(m, main, sched), t, a)
  {
    assert (sched + [(t, a)])[..|sched|] == sched;
  }

  /** A function that is handed to the runtime is started in the thread itself and in a new worker. */
  lemma OpensRegion(m: Module, main: Fn, sched: seq<(Tid, Action)>, t: Tid, f: Fn, g: Fn) returns (more: seq<(Tid, Action)>, u: Tid)
    requires Root(m, main) && Running(Run(m, main, sched), t, f) && Handed(m, f, g)
    ensures Running(Run(m, main, more), u, g) && Running(Run(m, main, more), t, g) && u != t && u != MAIN
    ensures !Alone(Run(m, main, more).trace)
  {
    var s := Run(m, main, sched);
    var n := |s.Stack(t)|;
    Reachable(m, main, sched);
    assert Live(s.trace, t);
    RunSnoc(m, main, sched, t, Open(g));
    var begun := sched + [(t, Open(g))];
    var s' := Run(m, main, begun);
    assert s'.Stack(t)[n] == Region(g, []);
    RunSnoc(m, main, begun, t, Spawn(n));
    more, u := begun + [(t, Spawn(n))], s.next;
    JoinedWereForked(s.trace);
    EmitExtends(s.trace, Fork(t, s.next));
  }

  /** A chain of calls from the main function can be executed: its last function runs, in a worker while
      others run as well if the chain passes through the runtime. */
  lemma {:induction false} ChainIsRun(m: Module, main: Fn, w: seq<Fn>) returns (sched: seq<(Tid, Action)>, t: Tid)
    requires Root(m, main) && Chain(m, w) && w[0] == main
    ensures Running(Run(m, main, sched), t, w[|w| - 1])
    ensures Passes(m, w) ==> t != MAIN && !Alone(Run(m, main, sched).trace)
  {
    if |w| == 1 {
      sched, t := [], MAIN;
    } else {
      var f, g := w[|w| - 2], w[|w| - 1];
      sched, t := ChainIsRun(m, main, w[..|w| - 1]);
      if Handed(m, f, g) {
        sched, t := OpensRegion(m, main, sched, t, f, g);
      } else {
        RunSnoc(m, main, sched, t, Enter(g));
        sched := sched + [(t, Enter(g))];
      }
    }
  }

  ghost predicate IsReached(m: Module, main: Fn, f: Fn) {
    exists w :: Chain(m, w) && w[0] == main && w[|w| - 1] == f && Passes(m, w)
  }

  /** A function that main reaches through the runtime is marked, and there is a run in which a worker executes
      it while other threads have not been joined; a function that is not marked never runs like that. */
  lemma MarkedMayRunInParallel(m: Module, main: Fn, f: Fn) returns (sched: seq<(Tid, Action)>, t: Tid)
    requires Root(m, main) && IsReached(m, main, f)
    ensures MayRunParallel(m, f)
    ensures Running(Run(m, main, sched), t, f) && t != MAIN && !Alone(Run(m, main, sched).trace)
  {
    var w :| Chain(m, w) && w[0] == main && w[|w| - 1] == f && Passes(m, w);
    sched, t := ChainIsRun(m, main, w);
  }
}
