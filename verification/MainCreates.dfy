/**
The condition of the single-threaded guard read off the text of a program: when only the main function
creates and joins threads, one walk through its body decides whether the guard is right.
*/
module MainCreates {
  import opened HappensBefore
  import opened ForkJoin
  import opened ThreadCounter
  import opened GuardCondition

  predicate CreatesNothing(body: seq<Op>) {
    forall i :: 0 <= i < |body| ==> !body[i].Create? && !body[i].JoinThread?
  }

  ghost predicate OnlyMainCreates(q: Program) {
    forall t :: t != MAIN ==> CreatesNothing(Body(q, t))
  }

  /** What executing some code of the main function does to the counter and to the threads. */
  datatype Account = Account(counter: nat, created: set<Tid>, joined: set<Tid>)

  function Moved(a: Account, ins: Instr): Account {
    match ins
    case Inc => a.(counter := Up(a.counter))
    case Dec => a.(counter := Down(a.counter))
    case Plain(Create(u, _)) => a.(created := a.created + {u})
    case Plain(JoinThread(u, _)) => a.(joined := a.joined + {u})
    case _ => a
  }

  /** No thread is created twice, or joined before it is created or after it was joined. */
  predicate MayDo(a: Account, ins: Instr) {
    match ins
    case Plain(Create(u, _)) => u != MAIN && u !in a.created
    case Plain(JoinThread(u, _)) => u != MAIN && u in a.created && u !in a.joined
    case _ => true
  }

  function AccountOf(code: seq<Instr>): Account {
    if code == [] then Account(0, {}, {}) else Moved(AccountOf(code[..|code| - 1]), code[|code| - 1])
  }

  predicate IsPossible(code: seq<Instr>) {
    code == [] || (IsPossible(code[..|code| - 1]) && MayDo(AccountOf(code[..|code| - 1]), code[|code| - 1]))
  }

  /** Wherever the counter is zero on the way through the code, all threads have been joined. */
  predicate ZeroIsJoined(code: seq<Instr>) {
    forall i {:trigger code[..i]} :: 0 <= i <= |code| && IsPossible(code[..i]) && AccountOf(code[..i]).counter == 0 ==>
      AccountOf(code[..i]).created <= AccountOf(code[..i]).joined
  }

  lemma AccountSnoc(code: seq<Instr>, i: nat)
    requires i < |code|
    ensures AccountOf(code[..i + 1]) == Moved(AccountOf(code[..i]), code[i])
    ensures IsPossible(code[..i + 1]) <==> IsPossible(code[..i]) && MayDo(AccountOf(code[..i]), code[i])
  {
    assert code[..i + 1][..i] == code[..i];
  }

  lemma {:induction false} WorkerCode(body: seq<Op>, i: nat)
    requires CreatesNothing(body) && i < |Wrapped(body)|
    ensures var ins := Wrapped(body)[i]; !ins.Inc? && !ins.Dec? && !IsCreate(ins) && !IsJoin(ins)
  {
    if i < |Wrapped(body[..|body| - 1])| {
      WorkerCode(body[..|body| - 1], i);
    }
  }

  /** The main function is at a place that its code can reach, and the account of the code up to there
      is what has happened. */
  ghost predicate IsAccount(q: Program, s: State) {
    var code := Code(q, MAIN);
    && s.Pc(MAIN) <= |code| && IsPossible(code[..s.Pc(MAIN)])
    && AccountOf(code[..s.Pc(MAIN)]) == Accounted(s)
  }

  function Accounted(s: State): Account {
    Account(s.counter, Forked(s.full), Joined(s.full))
  }

  /** A step changes the account as its instruction does. */
  lemma StepMoves(q: Program, s: State, t: Tid)
    requires Lives(q, s) && Enabled(q, s, t)
    ensures Accounted(Step(q, s, t)) == Moved(Accounted(s), Code(q, t)[s.Pc(t)])
    ensures Step(q, s, t).Pc(t) == s.Pc(t) + 1 && forall u :: u != t ==> Step(q, s, t).Pc(u) == s.Pc(u)
  {
    TraceStep(q, s, t);
  }

  lemma EnabledMayDo(q: Program, s: State)
    requires Enabled(q, s, MAIN)
    ensures MayDo(Accounted(s), Code(q, MAIN)[s.Pc(MAIN)])
  {
  }

  lemma MainStep(q: Program, s: State)
    requires IsAccount(q, s) && Lives(q, s) && Enabled(q, s, MAIN)
    ensures IsAccount(q, Step(q, s, MAIN))
  {
    StepMoves(q, s, MAIN);
    EnabledMayDo(q, s);
    AccountSnoc(Code(q, MAIN), s.Pc(MAIN));
  }

  lemma WorkerStep(q: Program, s: State, t: Tid)
    requires OnlyMainCreates(q) && IsAccount(q, s) && Lives(q, s) && Enabled(q, s, t) && t != MAIN
    ensures IsAccount(q, Step(q, s, t)) && Accounted(Step(q, s, t)) == Accounted(s)
  {
    WorkerCode(Body(q, t), s.Pc(t));
    StepMoves(q, s, t);
  }

  lemma {:induction false} MainDecides(q: Program, sched: seq<Tid>)
    requires OnlyMainCreates(q)
    ensures IsAccount(q, Run(q, sched))
  {
    if sched == [] {
      assert Code(q, MAIN)[..0] == [];
    } else {
      var few, t := sched[..|sched| - 1], sched[|sched| - 1];
      MainDecides(q, few);
      PositionsHold(q, few);
      if Enabled(q, Run(q, few), t) {
        if t == MAIN {
          MainStep(q, Run(q, few));
        } else {
          WorkerStep(q, Run(q, few), t);
        }
      }
    }
  }

  lemma RunSnoc(q: Program, sched: seq<Tid>, t: Tid)
    ensures Run(q, sched + [t]) == Step(q, Run(q, sched), t)
  {
    assert (sched + [t])[..|sched|] == sched;
  }

  /** A running worker can always finish. */
  lemma {:induction false} Finish(q: Program, sched: seq<Tid>, u: Tid) returns (more: seq<Tid>)
    requires OnlyMainCreates(q) && u != MAIN && Live(Run(q, sched).full, u)
    requires Run(q, sched).Pc(u) <= |Code(q, u)|
    ensures Run(q, more).Pc(u) == |Code(q, u)| && Run(q, more).Pc(MAIN) == Run(q, sched).Pc(MAIN)
    ensures Forked(Run(q, more).full) == Forked(Run(q, sched).full)
    ensures Joined(Run(q, more).full) == Joined(Run(q, sched).full)
    decreases |Code(q, u)| - Run(q, sched).Pc(u)
  {
    var s := Run(q, sched);
    if s.Pc(u) == |Code(q, u)| {
      more := sched;
    } else {
      WorkerCode(Body(q, u), s.Pc(u));
      MainDecides(q, sched);
      PositionsHold(q, sched);
      WorkerStep(q, s, u);
      RunSnoc(q, sched, u);
      more := Finish(q, sched + [u], u);
    }
  }

  lemma {:induction false} WorkerPc(q: Program, sched: seq<Tid>, u: Tid)
    ensures Run(q, sched).Pc(u) <= |Code(q, u)|
  {
    if sched != [] {
      WorkerPc(q, sched[..|sched| - 1], u);
    }
  }

  /** Every place that the code can reach is reached under some schedule. */
  lemma {:induction false} Reach(q: Program, i: nat) returns (sched: seq<Tid>)
    requires OnlyMainCreates(q) && i <= |Code(q, MAIN)| && IsPossible(Code(q, MAIN)[..i])
    ensures Run(q, sched).Pc(MAIN) == i
  {
    if i == 0 {
      sched := [];
    } else {
      var code := Code(q, MAIN);
      AccountSnoc(code, i - 1);
      var few := Reach(q, i - 1);
      MainDecides(q, few);
      if IsJoin(code[i - 1]) {
        WorkerPc(q, few, code[i - 1].op.child);
        few := Finish(q, few, code[i - 1].op.child);
        MainDecides(q, few);
      }
      MainCanStep(q, few, i);
      sched := few + [MAIN];
      RunSnoc(q, few, MAIN);
    }
  }

  lemma MainCanStep(q: Program, sched: seq<Tid>, i: nat)
    requires 0 < i <= |Code(q, MAIN)| && IsPossible(Code(q, MAIN)[..i])
    requires Run(q, sched).Pc(MAIN) == i - 1 && IsAccount(q, Run(q, sched))
    requires var ins := Code(q, MAIN)[i - 1]; IsJoin(ins) ==> Run(q, sched).Pc(ins.op.child) == |Code(q, ins.op.child)|
    ensures Enabled(q, Run(q, sched), MAIN)
  {
    AccountSnoc(Code(q, MAIN), i - 1);
    NeverJoined(Code(q, MAIN)[..i - 1]);
  }

  lemma {:induction false} NeverJoined(code: seq<Instr>)
    requires IsPossible(code)
    ensures MAIN !in AccountOf(code).joined && MAIN !in AccountOf(code).created
  {
    if code != [] {
      NeverJoined(code[..|code| - 1]);
    }
  }

  /** When only the main function creates and joins threads, the condition of the guard is that on the
      way through its code the counter is zero only where all threads have been joined. */
  lemma MainDecidesIff(q: Program)
    requires OnlyMainCreates(q)
    ensures ZeroIsAlone(q) <==> ZeroIsJoined(Code(q, MAIN))
  {
    var code := Code(q, MAIN);
    if ZeroIsJoined(code) {
      forall sched, t | MayAccess(Run(q, sched), t) && Run(q, sched).counter == 0
        ensures Alone(Run(q, sched).full)
      {
        MainDecides(q, sched);
        assert code[..Run(q, sched).Pc(MAIN)] == code[..Run(q, sched).Pc(MAIN)];
      }
    } else {
      var i :| 0 <= i <= |code| && IsPossible(code[..i]) && AccountOf(code[..i]).counter == 0 &&
               !(AccountOf(code[..i]).created <= AccountOf(code[..i]).joined);
      var sched := Reach(q, i);
      MainDecides(q, sched);
      var u :| u in AccountOf(code[..i]).created && u !in AccountOf(code[..i]).joined;
      WorkerMayAccess(q, sched, u);
    }
  }

  lemma WorkerMayAccess(q: Program, sched: seq<Tid>, u: Tid)
    requires OnlyMainCreates(q) && Live(Run(q, sched).full, u) && u in Forked(Run(q, sched).full)
    ensures MayAccess(Run(q, sched), u)
  {
    var s := Run(q, sched);
    MainDecides(q, sched);
    NeverJoined(Code(q, MAIN)[..s.Pc(MAIN)]);
    PositionsHold(q, sched);
    if s.Pc(u) < |Code(q, u)| {
      WorkerCode(Body(q, u), s.Pc(u));
    }
  }

  /** For such a program the guard is right, wherever the accesses stand and whatever the schedule, exactly
      if this walk through the main function finds no zero counter with a thread not yet joined. */
  lemma GuardIsRightByText(q: Program)
    requires IsSkeleton(q) && OnlyMainCreates(q)
    ensures (forall p, sched {:trigger GuardIsRight(p, sched)} :: IsPlacement(p, q) ==> GuardIsRight(p, sched))
            <==> ZeroIsJoined(Code(q, MAIN))
  {
    GuardIsRightIff(q);
    MainDecidesIff(q);
  }
}
