/**
Moving TSAN calls out of loops: the search for calls that may change the happens-before order, and
the range that stands for the accesses of a chunk of iterations.
*/
module LoopOptimize {
  type Fn = nat

  /** An instruction, by the functions that it may call. */
  type Inst = set<Fn>

  datatype Func = Func(name: string, isThreadFunction: bool, isDeclaration: bool, body: seq<Inst>)

  type Module = map<Fn, Func>

  const WHITELIST: seq<string> := ["__kmpc_dispatch_next", "__kmpc_global_", "__kmpc_master", "__kmpc_single", "omp_get_",
                                   "omp_set_dynamic", "omp_set_num_threads", "pthread_create"]

  predicate StartsWith(s: string, p: string) {
    |p| <= |s| && s[..|p|] == p
  }

  ghost predicate IsPrefix(p: string, s: string) {
    exists rest: string :: s == p + rest
  }

  lemma StartsWithIff(s: string, p: string)
    ensures StartsWith(s, p) <==> IsPrefix(p, s)
  {
    if StartsWith(s, p) {
      assert s == p + s[|p|..];
    }
  }

  predicate Whitelisted(name: string) {
    exists k :: 0 <= k < |WHITELIST| && StartsWith(name, WHITELIST[k])
  }

  ghost predicate OnList(name: string) {
    exists k :: 0 <= k < |WHITELIST| && IsPrefix(WHITELIST[k], name)
  }

  lemma WhitelistedIff(name: string)
    ensures Whitelisted(name) <==> OnList(name)
  {
    forall k | 0 <= k < |WHITELIST|
      ensures StartsWith(name, WHITELIST[k]) <==> IsPrefix(WHITELIST[k], name)
    {
      StartsWithIff(name, WHITELIST[k]);
    }
  }

  lemma NotOnList(name: string)
    requires |name| > 8 && name[0] == 'p' && name[8] != 'c'
    ensures !OnList(name)
  {
    forall k | 0 <= k < |WHITELIST|
      ensures !IsPrefix(WHITELIST[k], name)
    {
      assert k < 7 ==> WHITELIST[k][0] != 'p';
      assert WHITELIST[7][8] == 'c';
    }
  }

  /** Of the functions that order the events of threads, those that join, lock and unlock are not on the list,
      but the one that creates a thread is. */
  lemma CreationIsOnList()
    ensures OnList("pthread_create")
    ensures !OnList("pthread_join") && !OnList("pthread_mutex_lock") && !OnList("pthread_mutex_unlock")
  {
    assert "pthread_create" == WHITELIST[7] + "";
    NotOnList("pthread_join");
    NotOnList("pthread_mutex_lock");
    NotOnList("pthread_mutex_unlock");
  }

  /** A function of a thread library that is not on the list. */
  ghost predicate Influences(m: Module, f: Fn) {
    f in m && m[f].isThreadFunction && !OnList(m[f].name)
  }

  predicate HasBody(m: Module, f: Fn) {
    f in m && !m[f].isDeclaration
  }

  ghost predicate Closed(m: Module) {
    forall f, k: nat :: f in m && k < |m[f].body| ==> m[f].body[k] <= m.Keys
  }

  predicate CallsAt(m: Module, f: Fn, k: nat, g: Fn) {
    HasBody(m, f) && k < |m[f].body| && g in m[f].body[k]
  }

  ghost predicate Calls(m: Module, f: Fn, g: Fn) {
    exists k: nat :: CallsAt(m, f, k, g)
  }

  /** Functions that the instruction may execute: each but the first is called by the one before. */
  ghost predicate Path(m: Module, inst: Inst, w: seq<Fn>) {
    if |w| <= 1 then w != [] && w[0] in inst
    else Path(m, inst, w[..|w| - 1]) && Calls(m, w[|w| - 2], w[|w| - 1])
  }

  ghost predicate MayExecute(m: Module, inst: Inst, f: Fn) {
    exists w :: Path(m, inst, w) && w[|w| - 1] == f
  }

  lemma ExecuteStep(m: Module, inst: Inst, f: Fn, k: nat, g: Fn)
    requires MayExecute(m, inst, f) && CallsAt(m, f, k, g)
    ensures MayExecute(m, inst, g)
  {
    var w :| Path(m, inst, w) && w[|w| - 1] == f;
    assert (w + [g])[..|w|] == w;
    assert Path(m, inst, w + [g]);
  }

  /** No call of the instruction was found to matter. */
  ghost predicate Cleared(m: Module, inst: Inst, visited: set<Fn>) {
    forall g :: g in inst ==> !Influences(m, g) && (HasBody(m, g) ==> g in visited)
  }

  ghost predicate ClearedBody(m: Module, f: Fn, visited: set<Fn>) {
    forall k: nat, g :: CallsAt(m, f, k, g) ==> !Influences(m, g) && (HasBody(m, g) ==> g in visited)
  }

  lemma {:induction false} ClearedPath(m: Module, inst: Inst, w: seq<Fn>, visited: set<Fn>)
    requires Path(m, inst, w) && Cleared(m, inst, visited) && forall f :: f in visited ==> ClearedBody(m, f, visited)
    ensures var f := w[|w| - 1]; !Influences(m, f) && (HasBody(m, f) ==> f in visited)
  {
    if |w| > 1 {
      ClearedPath(m, inst, w[..|w| - 1], visited);
      assert ClearedBody(m, w[|w| - 2], visited);
    }
  }

  /** One search; the visited set is shared by all its branches. */
  class Search {
    const m: Module
    var alreadyVisited: set<Fn>

    constructor (m: Module)
      ensures this.m == m && alreadyVisited == {}
    {
      this.m, alreadyVisited := m, {};
    }

    /** A function that has been visited, or is being visited, answers no: others answer for it. */
    method FunctionMightInfluence(f: Fn, ghost root: Inst) returns (might: bool)
      requires Closed(m) && HasBody(m, f) && MayExecute(m, root, f)
      modifies this
      ensures old(alreadyVisited) <= alreadyVisited
      ensures might ==> exists g :: MayExecute(m, root, g) && Influences(m, g)
      ensures !might ==> f in alreadyVisited
      ensures !might ==> forall g :: g in alreadyVisited && g !in old(alreadyVisited) ==>
                ClearedBody(m, g, alreadyVisited)
      decreases m.Keys - alreadyVisited, 1
    {
      if f in alreadyVisited {
        return false;
      }
      alreadyVisited := alreadyVisited + {f};
      ghost var before := old(alreadyVisited);
      for k := 0 to |m[f].body|
        invariant before + {f} <= alreadyVisited
        invariant forall j: nat, g :: j < k && CallsAt(m, f, j, g) ==>
                    !Influences(m, g) && (HasBody(m, g) ==> g in alreadyVisited)
        invariant forall g :: g in alreadyVisited && g !in before && g != f ==> ClearedBody(m, g, alreadyVisited)
      {
        ghost var mid := alreadyVisited;
        forall g | g in m[f].body[k]
          ensures MayExecute(m, root, g)
        {
          assert CallsAt(m, f, k, g);
          ExecuteStep(m, root, f, k, g);
        }
        var here := InstructionMightInfluence(m[f].body[k], root);
        if here {
          return true;
        }
        assert forall g :: g in mid && g !in before && g != f ==> ClearedBody(m, g, mid);
      }
      return false;
    }

    method InstructionMightInfluence(inst: Inst, ghost root: Inst) returns (might: bool)
      requires Closed(m) && inst <= m.Keys && forall g :: g in inst ==> MayExecute(m, root, g)
      modifies this
      ensures old(alreadyVisited) <= alreadyVisited
      ensures might ==> exists g :: MayExecute(m, root, g) && Influences(m, g)
      ensures !might ==> Cleared(m, inst, alreadyVisited)
      ensures !might ==> forall g :: g in alreadyVisited && g !in old(alreadyVisited) ==>
                ClearedBody(m, g, alreadyVisited)
      decreases m.Keys - alreadyVisited, 2
    {
      var todo := inst;
      while todo != {}
        invariant todo <= inst && old(alreadyVisited) <= alreadyVisited
        invariant Cleared(m, inst - todo, alreadyVisited)
        invariant forall g :: g in alreadyVisited && g !in old(alreadyVisited) ==> ClearedBody(m, g, alreadyVisited)
        decreases todo
      {
        var called :| called in todo;
        WhitelistedIff(m[called].name);
        if m[called].isThreadFunction && !Whitelisted(m[called].name) {
          assert Influences(m, called);
          return true;
        }
        if !m[called].isDeclaration {
          ghost var mid := alreadyVisited;
          var within := FunctionMightInfluence(called, root);
          if within {
            return true;
          }
          assert forall g :: g in mid && g !in old(alreadyVisited) ==> ClearedBody(m, g, mid);
        }
        todo := todo - {called};
      }
      return false;
    }
  }

  /** The search is exact: it finds something if and only if the instruction may execute a function of
      a thread library that is not on the list. */
  method MightInfluenceHappensBefore(m: Module, inst: Inst) returns (might: bool)
    requires Closed(m) && inst <= m.Keys
    ensures might <==> exists f :: MayExecute(m, inst, f) && Influences(m, f)
  {
    forall g | g in inst
      ensures MayExecute(m, inst, g)
    {
      assert Path(m, inst, [g]);
    }
    var search := new Search(m);
    might := search.InstructionMightInfluence(inst, inst);
    if !might {
      forall f | MayExecute(m, inst, f)
        ensures !Influences(m, f)
      {
        var w :| Path(m, inst, w) && w[|w| - 1] == f;
        ClearedPath(m, inst, w, search.alreadyVisited);
      }
    }
  }

  // ---------------------------------------------------------------- the range of a chunk

  datatype Option<T> = None | Some(value: T)

  datatype Range = Range(low: int, length: int)

  function Abs(n: int): nat {
    if n < 0 then -n else n
  }

  /** The range for `chunk` iterations of an access of `size` bytes whose address moves by `step`. */
  function PrepareTsanRange(start: int, step: int, size: nat, chunk: nat): Option<Range>
    requires chunk > 0
  {
    if size < Abs(step) then None
    else Some(Range(if step < 0 then start + (chunk - 1) * step else start, chunk * size))
  }

  predicate InRange(r: Range, x: int) {
    r.low <= x < r.low + r.length
  }

  predicate InIteration(start: int, step: int, size: nat, i: nat, x: int) {
    start + i * step <= x < start + i * step + size
  }

  predicate InSomeIteration(start: int, step: int, size: nat, chunk: nat, x: int) {
    exists i: nat :: i < chunk && InIteration(start, step, size, i, x)
  }

  lemma StepBounds(step: nat, size: nat, i: nat, n: nat)
    requires step <= size && i <= n
    ensures 0 <= i * step <= n * step <= n * size
  {
    assert (n - i) * step >= 0;
    assert n * (size - step) >= 0;
  }

  /** Counted from the lower end, iteration i starts at the i-th multiple of the step width. */
  lemma FromLowerEnd(start: int, step: int, size: nat, chunk: nat, i: nat)
    requires i < chunk && Abs(step) <= size
    ensures var r := PrepareTsanRange(start, step, size, chunk).value;
            start + i * step == r.low + (if step < 0 then chunk - 1 - i else i) * Abs(step)
  {
    if step < 0 {
      assert start + i * step == start + (chunk - 1) * step + (chunk - 1 - i) * (-step);
    }
  }

  /** The iteration of a byte, counted from the lower end. */
  function IterationOf(off: nat, step: nat, last: nat): (j: nat)
    requires step > 0
    ensures j <= last && j * step <= off && (j < last ==> off < j * step + step)
  {
    if off >= last * step then last else off / step
  }

  /** The accesses of a chunk fill an interval without gaps. */
  lemma ChunkIsInterval(start: int, step: int, size: nat, chunk: nat, x: int)
    requires chunk > 0 && 0 < Abs(step) <= size
    ensures var r := PrepareTsanRange(start, step, size, chunk).value;
            InSomeIteration(start, step, size, chunk, x) <==> r.low <= x < r.low + (chunk - 1) * Abs(step) + size
  {
    var r, w := PrepareTsanRange(start, step, size, chunk).value, Abs(step);
    if InSomeIteration(start, step, size, chunk, x) {
      var i: nat :| i < chunk && InIteration(start, step, size, i, x);
      FromLowerEnd(start, step, size, chunk, i);
      StepBounds(w, size, if step < 0 then chunk - 1 - i else i, chunk - 1);
    }
    if r.low <= x < r.low + (chunk - 1) * w + size {
      var j := IterationOf(x - r.low, w, chunk - 1);
      var i := if step < 0 then chunk - 1 - j else j;
      FromLowerEnd(start, step, size, chunk, i);
      assert InIteration(start, step, size, i, x);
    }
  }

  /** The range covers every access of the chunk and reaches beyond them by exactly
      (chunk - 1) * (size - |step|) bytes, all of them behind the last access. */
  lemma RangeCovers(start: int, step: int, size: nat, chunk: nat, x: int)
    requires chunk > 0 && 0 < Abs(step) <= size
    ensures var r := PrepareTsanRange(start, step, size, chunk).value;
            && (InSomeIteration(start, step, size, chunk, x) ==> InRange(r, x))
            && (InRange(r, x) && !InSomeIteration(start, step, size, chunk, x) <==>
                r.low + r.length - (chunk - 1) * (size - Abs(step)) <= x < r.low + r.length)
  {
    ChunkIsInterval(start, step, size, chunk, x);
    StepBounds(Abs(step), size, 0, chunk - 1);
    assert chunk * size == (chunk - 1) * size + size;
    assert (chunk - 1) * (size - Abs(step)) == (chunk - 1) * size - (chunk - 1) * Abs(step);
  }

  /** So the range reports exactly the accesses if and only if there is one iteration or the accesses
      do not overlap. */
  lemma RangeIsExactIff(start: int, step: int, size: nat, chunk: nat)
    requires chunk > 0 && 0 < Abs(step) <= size
    ensures (forall x :: InRange(PrepareTsanRange(start, step, size, chunk).value, x) <==> InSomeIteration(start, step, size, chunk, x))
            <==> chunk == 1 || Abs(step) == size
  {
    var r := PrepareTsanRange(start, step, size, chunk).value;
    forall x
      ensures InSomeIteration(start, step, size, chunk, x) ==> InRange(r, x)
      ensures (InRange(r, x) && !InSomeIteration(start, step, size, chunk, x) <==>
               r.low + r.length - (chunk - 1) * (size - Abs(step)) <= x < r.low + r.length)
    {
      RangeCovers(start, step, size, chunk, x);
    }
    if chunk > 1 && Abs(step) < size {
      assert (chunk - 1) * (size - Abs(step)) >= 1 * 1 by {
        StepBounds(1, size - Abs(step), 1, chunk - 1);
      }
      assert !InSomeIteration(start, step, size, chunk, r.low + r.length - 1);
      assert InRange(r, r.low + r.length - 1) by {
        StepBounds(1, size, 1, chunk);
      }
    }
  }

  /** Between the accesses of the first two iterations there is a byte that neither accesses. */
  ghost predicate HasGap(start: int, step: int, size: nat) {
    exists x :: IsInGap(start, step, size, x)
  }

  predicate IsInGap(start: int, step: int, size: nat, x: int) {
    if step < 0 then start + step + size <= x < start else start + size <= x < start + step
  }

  /** A range is given exactly for the steps that leave no gap between the accesses, and it covers all of
      them, whatever the step. */
  lemma RangeIsGivenIff(start: int, step: int, size: nat, chunk: nat)
    requires chunk > 0
    ensures var r := PrepareTsanRange(start, step, size, chunk);
            && (r.Some? <==> !HasGap(start, step, size))
            && (r.Some? ==> forall x :: InSomeIteration(start, step, size, chunk, x) ==> InRange(r.value, x))
  {
    var r := PrepareTsanRange(start, step, size, chunk);
    if r.None? {
      assert IsInGap(start, step, size, if step < 0 then start - 1 else start + size);
    } else {
      forall x | InSomeIteration(start, step, size, chunk, x)
        ensures InRange(r.value, x)
      {
        var i: nat :| i < chunk && InIteration(start, step, size, i, x);
        FromLowerEnd(start, step, size, chunk, i);
        StepBounds(Abs(step), size, if step < 0 then chunk - 1 - i else i, chunk - 1);
        assert chunk * size == (chunk - 1) * size + size;
      }
    }
  }
}
