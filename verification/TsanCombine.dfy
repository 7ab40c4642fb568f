/**
Combining the TSAN calls of one window of a basic block.  The address of a pointer is not known at
compile time; what is known is the constant difference of some pairs of pointers, so every claim is
about all assignments of addresses that respect the known differences.
*/
module TsanCombine {
  import opened HappensBefore
  import opened Verdict
  import opened ForkJoin
  import opened Segments
  import opened FiniteSets

  type Ptr = nat
  type CallId = nat

  datatype Call = Call(ptr: Ptr, size: nat, write: bool)
  datatype Difference = Unknown | Constant(bytes: int)

  type Calls = map<CallId, Call>
  type Differences = (Ptr, Ptr) -> Difference
  type Addresses = Ptr -> int

  ghost predicate Respects(addr: Addresses, diff: Differences) {
    forall p, q :: diff(p, q).Constant? ==> addr(p) - addr(q) == diff(p, q).bytes
  }

  predicate Reports(c: Call, addr: Addresses, w: bool, b: Byte) {
    c.write == w && addr(c.ptr) <= b < addr(c.ptr) + c.size
  }

  ghost predicate Reported(calls: Calls, addr: Addresses, w: bool, b: Byte) {
    exists id :: id in calls && Reports(calls[id], addr, w, b)
  }

  /** Under every possible assignment of addresses the two windows report the same bytes. */
  ghost predicate SameReports(a: Calls, b: Calls, diff: Differences) {
    forall addr: Addresses {:trigger SameUnder(a, b, addr)} :: Respects(addr, diff) ==> SameUnder(a, b, addr)
  }

  ghost predicate SameUnder(a: Calls, b: Calls, addr: Addresses) {
    forall w, x :: Reported(a, addr, w, x) <==> Reported(b, addr, w, x)
  }

  function SumSizes(calls: Calls, ids: seq<CallId>): nat
    requires forall id :: id in ids ==> id in calls
  {
    if ids == [] then 0 else SumSizes(calls, ids[..|ids| - 1]) + calls[ids[|ids| - 1]].size
  }

  /** The calls ids are adjacent: each starts where the one before it ends. */
  ghost predicate Adjacent(calls: Calls, ids: seq<CallId>, w: bool, diff: Differences) {
    && (forall id :: id in ids ==> id in calls && calls[id].write == w)
    && Distinct(ids)
    && (forall i {:trigger NextTo(calls, ids, i, diff)} :: 0 < i < |ids| ==> NextTo(calls, ids, i, diff))
  }

  predicate NextTo(calls: Calls, ids: seq<CallId>, i: int, diff: Differences)
    requires 0 < i < |ids|
  {
    ids[i] in calls && ids[i - 1] in calls && diff(calls[ids[i]].ptr, calls[ids[i - 1]].ptr) == Constant(calls[ids[i - 1]].size)
  }

  predicate SomeReports(calls: Calls, ids: seq<CallId>, addr: Addresses, w: bool, x: Byte)
    requires forall id :: id in ids ==> id in calls
  {
    exists i :: 0 <= i < |ids| && Reports(calls[ids[i]], addr, w, x)
  }

  lemma SomeReportsSnoc(calls: Calls, ids: seq<CallId>, addr: Addresses, w: bool, x: Byte)
    requires ids != [] && forall id :: id in ids ==> id in calls
    ensures SomeReports(calls, ids, addr, w, x) <==>
            SomeReports(calls, ids[..|ids| - 1], addr, w, x) || Reports(calls[ids[|ids| - 1]], addr, w, x)
  {
    var pre := ids[..|ids| - 1];
    if SomeReports(calls, ids, addr, w, x) {
      var i :| 0 <= i < |ids| && Reports(calls[ids[i]], addr, w, x);
      assert i < |pre| ==> pre[i] == ids[i];
    }
    if SomeReports(calls, pre, addr, w, x) {
      var i :| 0 <= i < |pre| && Reports(calls[pre[i]], addr, w, x);
      assert ids[i] == pre[i];
    }
  }

  lemma AdjacentFront(calls: Calls, ids: seq<CallId>, w: bool, diff: Differences)
    requires |ids| > 1 && Adjacent(calls, ids, w, diff)
    ensures Adjacent(calls, ids[..|ids| - 1], w, diff) && NextTo(calls, ids, |ids| - 1, diff)
  {
    var pre := ids[..|ids| - 1];
    forall i: nat, j: nat
      ensures Different(pre, i, j)
    {
      assert Different(ids, i, j);
    }
    forall i | 0 < i < |pre|
      ensures NextTo(calls, pre, i, diff)
    {
      assert NextTo(calls, ids, i, diff);
    }
  }

  function Elements<T>(s: seq<T>): set<T> {
    set x | x in s
  }

  lemma {:induction false} AdjacentIsOneRange(calls: Calls, ids: seq<CallId>, w: bool, diff: Differences,
                                              addr: Addresses, x: Byte)
    requires ids != [] && Adjacent(calls, ids, w, diff) && Respects(addr, diff)
    ensures SomeReports(calls, ids, addr, w, x) <==>
              addr(calls[ids[0]].ptr) <= x < addr(calls[ids[0]].ptr) + SumSizes(calls, ids)
    ensures var last := calls[ids[|ids| - 1]];
            addr(last.ptr) + last.size == addr(calls[ids[0]].ptr) + SumSizes(calls, ids)
  {
    var n := |ids| - 1;
    var pre, last := ids[..n], calls[ids[n]];
    SomeReportsSnoc(calls, ids, addr, w, x);
    if n == 0 {
      assert SumSizes(calls, pre) == 0;
    } else {
      AdjacentFront(calls, ids, w, diff);
      AdjacentIsOneRange(calls, pre, w, diff, addr, x);
      assert pre[0] == ids[0] && pre[n - 1] == ids[n - 1];
      assert addr(last.ptr) - addr(calls[ids[n - 1]].ptr) == calls[ids[n - 1]].size;
    }
  }

  /** Replacing adjacent calls by one range call of their total size reports the same bytes. */
  lemma RangeReportsTheSame(calls: Calls, ids: seq<CallId>, w: bool, diff: Differences, id: CallId)
    requires ids != [] && Adjacent(calls, ids, w, diff) && id !in calls
    ensures var range := Call(calls[ids[0]].ptr, SumSizes(calls, ids), w);
            SameReports(calls, (calls - Elements(ids))[id := range], diff)
  {
    var range := Call(calls[ids[0]].ptr, SumSizes(calls, ids), w);
    var after := (calls - Elements(ids))[id := range];
    forall addr: Addresses | Respects(addr, diff)
      ensures SameUnder(calls, after, addr)
    {
      forall v, x
        ensures Reported(calls, addr, v, x) <==> Reported(after, addr, v, x)
      {
        RangeReportsTheSameByte(calls, ids, w, diff, id, addr, v, x);
      }
    }
  }

  lemma RangeReportsTheSameByte(calls: Calls, ids: seq<CallId>, w: bool, diff: Differences, id: CallId,
                                addr: Addresses, v: bool, x: Byte)
    requires ids != [] && Adjacent(calls, ids, w, diff) && id !in calls && Respects(addr, diff)
    ensures var range := Call(calls[ids[0]].ptr, SumSizes(calls, ids), w);
            Reported(calls, addr, v, x) <==> Reported((calls - Elements(ids))[id := range], addr, v, x)
  {
    var range := Call(calls[ids[0]].ptr, SumSizes(calls, ids), w);
    var after := (calls - Elements(ids))[id := range];
    AdjacentIsOneRange(calls, ids, w, diff, addr, x);
    if Reported(calls, addr, v, x) {
      var c :| c in calls && Reports(calls[c], addr, v, x);
      if c in ids {
        var i :| 0 <= i < |ids| && ids[i] == c;
        assert SomeReports(calls, ids, addr, w, x);
        assert Reports(after[id], addr, v, x);
      } else {
        assert c in after && Reports(after[c], addr, v, x);
      }
    }
    if Reported(after, addr, v, x) {
      var c :| c in after && Reports(after[c], addr, v, x);
      if c == id {
        assert SomeReports(calls, ids, addr, w, x);
        var i :| 0 <= i < |ids| && Reports(calls[ids[i]], addr, w, x);
        assert ids[i] in calls;
      } else {
        assert c in calls && Reports(calls[c], addr, v, x);
      }
    }
  }

  lemma SameReportsTransitive(a: Calls, b: Calls, c: Calls, diff: Differences)
    requires SameReports(a, b, diff) && SameReports(b, c, diff)
    ensures SameReports(a, c, diff)
  {
    forall addr: Addresses | Respects(addr, diff)
      ensures SameUnder(a, c, addr)
    {
      assert SameUnder(a, b, addr) && SameUnder(b, c, addr);
      forall w, x
        ensures Reported(a, addr, w, x) <==> Reported(c, addr, w, x)
      {
        assert Reported(a, addr, w, x) <==> Reported(b, addr, w, x);
      }
    }
  }

  /** One kind of access of one base pointer: its pointers, in the order the sort left them. */
  datatype Group = Group(write: bool, ptrs: seq<Ptr>)

  /** The pointers that are written and those that are read through one base pointer. */
  datatype BasePointer = BasePointer(writePtrs: seq<Ptr>, readPtrs: seq<Ptr>)

  ghost predicate Different<T>(s: seq<T>, i: nat, j: nat) {
    i < j < |s| ==> s[i] != s[j]
  }

  ghost predicate Distinct<T>(s: seq<T>) {
    forall i: nat, j: nat {:trigger Different(s, i, j)} :: Different(s, i, j)
  }

  lemma NotBefore<T>(s: seq<T>, k: nat, i: nat)
    requires Distinct(s) && k <= i < |s|
    ensures s[i] !in s[..k]
  {
    forall j: nat | j < k
      ensures s[..k][j] != s[i]
    {
      assert Different(s, j, i);
    }
  }

  class Window {
    var live: Calls
    var next: CallId
    var removed: nat
    var added: nat

    ghost predicate Valid()
      reads this
    {
      forall id :: id in live ==> id < next && live[id].size > 0
    }

    /** Since the window was as given, the same bytes are reported, and every range call that was
        added stands for at least two calls that were removed. */
    ghost predicate Combined(was: Calls, wasRemoved: nat, wasAdded: nat, diff: Differences)
      reads this
    {
      && Valid()
      && SameReports(was, live, diff)
      && |live| == |was| - (removed - wasRemoved) + (added - wasAdded)
      && removed - wasRemoved >= 2 * (added - wasAdded) >= 0
    }

    constructor (calls: Calls, free: CallId)
      requires forall id :: id in calls ==> id < free && calls[id].size > 0
      ensures Valid() && live == calls && removed == 0 && added == 0
    {
      live, next, removed, added := calls, free, 0, 0;
    }

    /** The calls on pointer p, as collected before anything is replaced. */
    function CallsOn(p: Ptr, w: bool): set<CallId>
      reads this
    {
      AtPlace(live, p, w)
    }

    method RemoveCall(id: CallId)
      requires Valid() && id in live
      modifies this
      ensures Valid() && next == old(next) && added == old(added) && removed == old(removed) + 1
      ensures live == old(live) - {id} && |live| == |old(live)| - 1
    {
      RemoveOne(live, id);
      live := live - {id};
      removed := removed + 1;
    }

    method RemoveCalls(ids: seq<CallId>) returns (sumOldSizes: nat)
      requires Valid() && Distinct(ids) && forall id :: id in ids ==> id in live
      modifies this
      ensures Valid() && live == old(live) - Elements(ids) && next == old(next) && added == old(added)
      ensures |live| == |old(live)| - |ids| && removed == old(removed) + |ids|
      ensures sumOldSizes == SumSizes(old(live), ids)
    {
      sumOldSizes := 0;
      ghost var before, gone := live, {};
      for i := 0 to |ids|
        invariant Valid() && next == old(next) && added == old(added) && removed == old(removed) + i
        invariant gone == Elements(ids[..i]) && live == before - gone && |live| == |before| - i
        invariant sumOldSizes == SumSizes(before, ids[..i])
      {
        RemoveNext(before, ids, i);
        sumOldSizes := sumOldSizes + live[ids[i]].size;
        RemoveCall(ids[i]);
        MinusMinus(before, gone, ids[i]);
        gone := gone + {ids[i]};
      }
      assert ids[..|ids|] == ids;
    }

    /** Replaces the calls ids by one range call; the sum of their sizes is the range's length. */
    method ReplaceRange(start: Ptr, rangeSize: nat, ids: seq<CallId>, w: bool, ghost diff: Differences)
      requires Valid() && ids != [] && Adjacent(live, ids, w, diff)
      requires start == live[ids[0]].ptr && rangeSize == SumSizes(live, ids)
      modifies this
      ensures Valid() && next == old(next) + 1
      ensures live == (old(live) - Elements(ids))[old(next) := Call(start, rangeSize, w)]
      ensures SameReports(old(live), live, diff)
      ensures removed == old(removed) + |ids| && added == old(added) + 1
      ensures |live| == |old(live)| - |ids| + 1
    {
      RangeReportsTheSame(live, ids, w, diff, next);
      assert rangeSize > 0 by {
        SumIsPositive(live, ids);
      }
      var newCall := Call(start, rangeSize, w);
      added := added + 1;
      var sumOldSizes := RemoveCalls(ids);
      assert sumOldSizes == rangeSize;
      assert |live[next := newCall]| == |live| + 1 by {
        AddOne(live, next, newCall);
      }
      live := live[next := newCall];
      next := next + 1;
    }

    /** A pending run of two or more calls is replaced; a single call stays. */
    method Flush(start: Ptr, accSize: nat, ids: seq<CallId>, w: bool, ghost diff: Differences)
      requires Valid() && ids != [] && Adjacent(live, ids, w, diff)
      requires start == live[ids[0]].ptr && accSize == SumSizes(live, ids)
      modifies this
      ensures Combined(old(live), old(removed), old(added), diff)
      ensures forall id :: id in old(live) && id !in ids ==> id in live && live[id] == old(live)[id]
      ensures IsReplaced(old(live), live, ids, old(next), added - old(added))
      ensures if |ids| < 2 then live == old(live) && next == old(next)
              else live == (old(live) - Elements(ids))[old(next) := Call(start, accSize, w)] && next == old(next) + 1
    {
      if 2 <= |ids| {
        ReplaceRange(start, accSize, ids, w, diff);
      }
    }

    /** Extends the pending run by the current call if that starts where the run ends; flushes the
        run if not, or if there is no further pointer.  The current call then starts a new run. */
    method Visit(start: Ptr, accSize: nat, calls: seq<CallId>, callCur: CallId, isLast: bool, w: bool, diff: Differences)
      returns (start': Ptr, accSize': nat, calls': seq<CallId>, ghost run: seq<CallId>)
      requires Valid() && calls != [] && Adjacent(live, calls, w, diff)
      requires start == live[calls[0]].ptr && accSize == SumSizes(live, calls)
      requires callCur in live && live[callCur].write == w
      requires callCur in calls ==>
                 |calls| == 1 && diff(live[callCur].ptr, live[callCur].ptr) != Constant(live[callCur].size)
      modifies this
      ensures Combined(old(live), old(removed), old(added), diff) && old(next) <= next
      ensures isLast || (start', accSize', calls') == if |run| > 1 then (start, accSize, calls) else (old(live)[callCur].ptr, 0, [])
      ensures Visits(old(live), live, calls, callCur, run, isLast, old(next), added - old(added), diff)
    {
      start', accSize', calls', run := start, accSize, calls, [callCur];
      ghost var before, closed := live, [callCur];
      var last, curPtr := live[calls[|calls| - 1]], live[callCur].ptr;
      if diff(curPtr, last.ptr) == Constant(last.size) {
        run := calls + [callCur];
        if isLast {
          AdjacentSnoc(live, calls, callCur, w, diff);
          calls' := calls + [callCur];
          accSize' := accSize + live[callCur].size;
          LongerRun(live, calls, callCur, start, accSize, w, diff);
          Flush(start, accSize', calls', w, diff);
          start', accSize', calls', closed := curPtr, 0, [], run;
        }
      } else {
        Flush(start, accSize, calls, w, diff);
        start', accSize', calls', closed := curPtr, 0, [], calls;
      }
      VisitCloses(before, live, calls, callCur, run, isLast, closed, old(next), added - old(added), diff);
    }

    lemma CombinedTransitive(was: Calls, r: nat, a: nat, mid: Calls, r': nat, a': nat, diff: Differences)
      requires Combined(mid, r', a', diff) && SameReports(was, mid, diff)
      requires |mid| == |was| - (r' - r) + (a' - a) && r' - r >= 2 * (a' - a) >= 0
      ensures Combined(was, r, a, diff)
    {
      SameReportsTransitive(was, mid, live, diff);
    }

    /** One round of the walk: the current call joins the pending run, and pointer i becomes
        current.  The walk is given up at a pointer that does not have exactly one call. */
    method NextPointer(g: Group, ptrValues: map<Ptr, set<CallId>>, i: nat, start: Ptr, accSize: nat,
                       calls: seq<CallId>, callCur: CallId, ghost run: seq<CallId>, ghost begin: Progress, diff: Differences)
      returns (giveUp: bool, start': Ptr, accSize': nat, calls': seq<CallId>, callCur': CallId, ghost run': seq<CallId>)
      requires Valid() && Distinct(g.ptrs) && forall p :: diff(p, p) == Constant(0)
      requires i < |g.ptrs| && ptrValues.Keys == Elements(g.ptrs) && Ahead(live, g, ptrValues, i)
      requires Pending(live, g, ptrValues, i, start, accSize, calls, callCur, run, diff)
      requires AreCollected(ptrValues, begin.live, g) && Reaches(begin, g, i, Progress(live, run, next, added), diff)
      modifies this
      ensures Combined(old(live), old(removed), old(added), diff)
      ensures giveUp || Ahead(live, g, ptrValues, i + 1)
      ensures giveUp || i + 1 == |g.ptrs| || Pending(live, g, ptrValues, i + 1, start', accSize', calls', callCur', run', diff)
      ensures giveUp <==> |ptrValues[g.ptrs[i]]| != 1
      ensures if giveUp then !HasOrder(begin.live, g) else Reaches(begin, g, i + 1, Progress(live, run', next, added), diff)
      ensures added == old(added) ==> live == old(live)
    {
      giveUp, start', callCur', run' := false, start, callCur, run;
      ghost var s := Progress(live, run, next, added);
      PendingIsRun(live, g, ptrValues, i, start, accSize, calls, callCur, run, diff);
      accSize' := accSize + live[callCur].size;
      calls' := calls + [callCur];
      var curPtr := g.ptrs[i];
      if |ptrValues[curPtr]| != 1 {
        giveUp := true;
        ReachesNext(begin, g, i, s, ptrValues, callCur, true, s, diff);
        return;
      }
      callCur' := TheCall(ptrValues[curPtr]);
      CurrentIsNew(live, g, ptrValues, i, start, accSize, calls, callCur, run, callCur', diff);
      start', accSize', calls', run' := Advance(g, ptrValues, i, start, accSize', calls', callCur', diff);
      ReachesNext(begin, g, i, s, ptrValues, callCur', false, Progress(live, run', next, added), diff);
    }

    /** The call on pointer i is visited; the run that is pending then is ready for pointer i + 1. */
    method Advance(g: Group, ghost ptrValues: map<Ptr, set<CallId>>, i: nat, start: Ptr, accSize: nat, calls: seq<CallId>,
                   callCur: CallId, diff: Differences)
      returns (start': Ptr, accSize': nat, calls': seq<CallId>, ghost run: seq<CallId>)
      requires Valid() && Distinct(g.ptrs) && i < |g.ptrs| && ptrValues.Keys == Elements(g.ptrs)
      requires Ahead(live, g, ptrValues, i)
      requires calls != [] && Adjacent(live, calls, g.write, diff) && OnFirst(live, g, calls, Visited(i))
      requires start == live[calls[0]].ptr && accSize == SumSizes(live, calls)
      requires ptrValues[g.ptrs[i]] == {callCur} && callCur in live
      requires live[callCur] == Call(g.ptrs[i], live[callCur].size, g.write)
      requires callCur in calls ==>
                 |calls| == 1 && diff(live[callCur].ptr, live[callCur].ptr) != Constant(live[callCur].size)
      modifies this
      ensures Combined(old(live), old(removed), old(added), diff)
      ensures Ahead(live, g, ptrValues, i + 1)
      ensures i + 1 == |g.ptrs| || Pending(live, g, ptrValues, i + 1, start', accSize', calls', callCur, run, diff)
      ensures Visits(old(live), live, calls, callCur, run, i == |g.ptrs| - 1, old(next), added - old(added), diff)
      ensures old(next) <= next
    {
      ghost var before := live;
      start', accSize', calls', run := Visit(start, accSize, calls, callCur, i == |g.ptrs| - 1, g.write, diff);
      VisitKeeps(before, live, calls, callCur, run, i == |g.ptrs| - 1, old(next), added - old(added), start, accSize, g.write, diff);
      AheadStays(before, live, g, ptrValues, calls, callCur, i);
      if i + 1 < |g.ptrs| {
        PendingNext(before, live, g, ptrValues, i, calls, callCur, run, start', accSize', calls', diff);
      }
    }

    /** Walks over the pointers of one group in the given order and replaces each maximal run of
        adjacent ones.  Whatever the order, and also when the walk is given up early, the window
        reports the same bytes as before.  When nothing is replaced, nothing could be. */
    method RangeReplaceArray(g: Group, diff: Differences)
      requires Valid() && Distinct(g.ptrs) && forall p :: diff(p, p) == Constant(0)
      modifies this
      ensures Combined(old(live), old(removed), old(added), diff)
      ensures removed == old(removed) ==> live == old(live) && Settled(live, g, diff)
      ensures GroupCombined(old(live), live, g, added - old(added), diff)
    {
      if |g.ptrs| < 2 {
        FewCalls(live, g, diff);
        return;
      }
      var ptrValues := map p | p in g.ptrs :: CallsOn(p, g.write);
      var startPtr := g.ptrs[0];
      if |ptrValues[startPtr]| != 1 {
        assert !SingleCall(live, g, 0);
        assert forall cs {:trigger InOrder(live, g, cs)} :: InOrder(live, g, cs) ==> OnlyCall(live, g, cs, 0);
        return;
      }
      var callCur := TheCall(ptrValues[startPtr]);
      Walk(g, ptrValues, startPtr, callCur, diff);
      if removed == old(removed) {
        NothingLeft(live, g, added - old(added), diff);
      }
    }

    /** The loop of the walk, from the first pointer on. */
    method Walk(g: Group, ptrValues: map<Ptr, set<CallId>>, first: Ptr, firstCall: CallId, diff: Differences)
      requires Valid() && Distinct(g.ptrs) && forall p :: diff(p, p) == Constant(0)
      requires |g.ptrs| >= 2 && ptrValues.Keys == Elements(g.ptrs) && AreCollected(ptrValues, live, g)
      requires Ahead(live, g, ptrValues, 0)
      requires Pending(live, g, ptrValues, 0, first, 0, [], firstCall, [firstCall], diff)
      modifies this
      ensures Combined(old(live), old(removed), old(added), diff)
      ensures removed == old(removed) ==> live == old(live)
      ensures GroupCombined(old(live), live, g, added - old(added), diff)
    {
      var startPtr, accSize, callCur := first, 0, firstCall;
      var calls: seq<CallId> := [];
      ghost var run := [callCur];  // the pending run: calls, and the current call at its end
      ghost var begin := Progress(live, run, next, added);
      var giveUp := false;
      var i := 0;
      ReachesBegin(begin, g, ptrValues, firstCall, diff);
      while i < |g.ptrs| && !giveUp
        invariant i <= |g.ptrs|
        invariant Combined(old(live), old(removed), old(added), diff)
        invariant giveUp || Ahead(live, g, ptrValues, i)
        invariant giveUp || i == |g.ptrs| || Pending(live, g, ptrValues, i, startPtr, accSize, calls, callCur, run, diff)
        invariant removed == old(removed) ==> live == old(live)
        invariant giveUp ==> !HasOrder(old(live), g)
        invariant giveUp || Reaches(begin, g, i, Progress(live, run, next, added), diff)
        decreases |g.ptrs| - i
      {
        ghost var before, r, a := live, removed, added;
        giveUp, startPtr, accSize, calls, callCur, run :=
          NextPointer(g, ptrValues, i, startPtr, accSize, calls, callCur, run, begin, diff);
        CombinedTransitive(old(live), old(removed), old(added), before, r, a, diff);
        i := i + 1;
      }
      ReachesCombined(begin, g, firstCall, giveUp, Progress(live, run, next, added), diff);
    }

    /** Repeats the walk over all base pointers until a round changes nothing.  A round that changes
        something removes more calls than it adds, so this comes to an end, and then there is nothing
        left to combine. */
    method CombineUntilStable(grouping: Calls -> seq<BasePointer>, diff: Differences)
      requires Valid() && forall p :: diff(p, p) == Constant(0)
      requires forall calls, b :: b in grouping(calls) ==> Distinct(b.writePtrs) && Distinct(b.readPtrs)
      modifies this
      ensures Combined(old(live), old(removed), old(added), diff)
      ensures forall b :: b in grouping(live) ==>
                Settled(live, Group(true, b.writePtrs), diff) && Settled(live, Group(false, b.readPtrs), diff)
    {
      var hasChanged := true;
      while hasChanged
        invariant Combined(old(live), old(removed), old(added), diff)
        invariant !hasChanged ==> AllSettled(live, grouping(live), diff)
        decreases |live|, hasChanged
      {
        ghost var before, r, a := live, removed, added;
        hasChanged := OneRound(grouping(live), diff);
        CombinedTransitive(old(live), old(removed), old(added), before, r, a, diff);
      }
    }

    /** Goes through the base pointers and stops behind the first one for which something changes. */
    method OneRound(bases: seq<BasePointer>, diff: Differences) returns (hasChanged: bool)
      requires Valid() && forall p :: diff(p, p) == Constant(0)
      requires forall b :: b in bases ==> Distinct(b.writePtrs) && Distinct(b.readPtrs)
      modifies this
      ensures Combined(old(live), old(removed), old(added), diff)
      ensures hasChanged ==> |live| < |old(live)|
      ensures !hasChanged ==> live == old(live) && AllSettled(live, bases, diff)
    {
      hasChanged := false;
      var wasRemoved, wasAdded := removed, added;
      for k := 0 to |bases|
        invariant Combined(old(live), old(removed), old(added), diff)
        invariant !hasChanged && removed == old(removed) && added == old(added) && live == old(live)
        invariant AllSettled(live, bases[..k], diff)
      {
        RangeReplaceArray(Group(true, bases[k].writePtrs), diff);
        ghost var mid, midRemoved, midAdded := live, removed, added;
        RangeReplaceArray(Group(false, bases[k].readPtrs), diff);
        CombinedTransitive(old(live), old(removed), old(added), mid, midRemoved, midAdded, diff);
        if removed != wasRemoved || added != wasAdded {
          hasChanged := true;
          return;
        }
        assert bases[..k + 1] == bases[..k] + [bases[k]];
      }
      assert bases[..|bases|] == bases;
    }

    /** Of several calls on one pointer an arbitrary one is kept. */
    method ReplaceSame(ptrs: seq<Ptr>, w: bool)
      requires Valid()
      modifies this
      ensures Valid() && added == old(added) && |live| + removed == |old(live)| + old(removed)
      ensures Thinned(old(live), live, Elements(ptrs), w)
    {
      for i := 0 to |ptrs|
        invariant Valid() && added == old(added) && |live| + removed == |old(live)| + old(removed)
        invariant Thinned(old(live), live, Elements(ptrs[..i]), w)
      {
        assert Elements(ptrs[..i + 1]) == Elements(ptrs[..i]) + {ptrs[i]};
        var tsanCalls := CallsOn(ptrs[i], w);
        ghost var before := live;
        if |tsanCalls| >= 2 {
          var tsan :| tsan in tsanCalls;
          KeepOnly(tsanCalls, tsan);
          ThinStep(old(live), before, live, Elements(ptrs[..i]), ptrs[i], w, tsan);
        } else {
          ThinNothing(old(live), live, Elements(ptrs[..i]), ptrs[i], w);
        }
      }
      assert ptrs[..|ptrs|] == ptrs;
    }

    method KeepOnly(tsanCalls: set<CallId>, tsan: CallId)
      requires Valid() && tsan in tsanCalls && tsanCalls <= live.Keys
      modifies this
      ensures Valid() && added == old(added) && |live| + removed == |old(live)| + old(removed)
      ensures live == old(live) - (tsanCalls - {tsan})
    {
      var rest := tsanCalls - {tsan};
      ghost var before, wasRemoved, gone := live, removed, {};
      while rest != {}
        invariant Valid() && added == old(added) && |live| + removed == |before| + wasRemoved
        invariant gone <= tsanCalls - {tsan} && rest == tsanCalls - {tsan} - gone && live == before - gone
        decreases rest
      {
        var call :| call in rest;
        MinusMinus(before, gone, call);
        RemoveCall(call);
        rest, gone := rest - {call}, gone + {call};
      }
      assert gone == tsanCalls - {tsan};
    }
  }

  /** Before pointer i is visited, run is the pending run with the current call at its end. */
  ghost predicate Pending(live: Calls, g: Group, ptrValues: map<Ptr, set<CallId>>, i: nat, start: Ptr, accSize: nat,
                          calls: seq<CallId>, callCur: CallId, run: seq<CallId>, diff: Differences)
    requires i < |g.ptrs| && ptrValues.Keys == Elements(g.ptrs)
  {
    && run != [] && callCur == run[|run| - 1] && Adjacent(live, run, g.write, diff)
    && calls == run[..|run| - 1] && accSize == SumSizes(live, calls)
    && start == live[run[0]].ptr
    && OnFirst(live, g, run, Visited(i)) && ptrValues[g.ptrs[Visited(i) - 1]] == {callCur}
    && (i == 0 ==> run == [callCur])
  }

  /** The walk visits the first pointer twice: its call starts the first run. */
  function Visited(i: nat): nat { if i == 0 then 1 else i }

  // ---------------------------------------------------------------- what the walk does

  /** Two or more calls are replaced by one range call; nothing else happens. */
  ghost predicate IsReplaced(before: Calls, after: Calls, ids: seq<CallId>, free: CallId, added: int) {
    && (forall id :: id in ids ==> id in before) && added == (if |ids| >= 2 then 1 else 0)
    && (forall id :: id in before ==> (id in after <==> |ids| < 2 || id !in ids))
    && (forall id :: id in before && id in after ==> after[id] == before[id])
    && (forall id :: id in after ==> id in before || id == free) && (|ids| < 2 ==> after == before)
  }

  /** A visit of a call adds it to the pending run if it starts where the run ends.  If not, or if there is
      no further call, the run is replaced. */
  ghost predicate Visits(before: Calls, after: Calls, calls: seq<CallId>, cur: CallId, run: seq<CallId>, isLast: bool,
                         free: CallId, added: int, diff: Differences) {
    exists closed :: Closes(before, calls, cur, run, isLast, closed, diff) && IsReplaced(before, after, closed, free, added)
  }

  predicate Closes(before: Calls, calls: seq<CallId>, cur: CallId, run: seq<CallId>, isLast: bool, closed: seq<CallId>,
                   diff: Differences) {
    && calls != []
    && if Follows(before, calls[|calls| - 1], cur, diff) then
         run == calls + [cur] && closed == if isLast then run else [cur]
       else run == [cur] && closed == calls
  }

  lemma VisitCloses(before: Calls, after: Calls, calls: seq<CallId>, cur: CallId, run: seq<CallId>, isLast: bool,
                    closed: seq<CallId>, free: CallId, added: int, diff: Differences)
    requires Closes(before, calls, cur, run, isLast, closed, diff) && IsReplaced(before, after, closed, free, added)
    ensures Visits(before, after, calls, cur, run, isLast, free, added, diff)
  {
  }

  predicate CollectedAt(ptrValues: map<Ptr, set<CallId>>, was: Calls, g: Group, j: nat) {
    j < |g.ptrs| ==> g.ptrs[j] in ptrValues && ptrValues[g.ptrs[j]] == AtPlace(was, g.ptrs[j], g.write)
  }

  ghost predicate AreCollected(ptrValues: map<Ptr, set<CallId>>, was: Calls, g: Group) {
    forall j: nat {:trigger CollectedAt(ptrValues, was, g, j)} :: CollectedAt(ptrValues, was, g, j)
  }

  /** The group has exactly one call on each pointer; these are the calls. */
  ghost predicate InOrder(was: Calls, g: Group, cs: seq<CallId>) {
    |cs| == |g.ptrs| && forall j: nat {:trigger OnlyCall(was, g, cs, j)} :: j < |cs| ==> OnlyCall(was, g, cs, j)
  }

  predicate OnlyCall(was: Calls, g: Group, cs: seq<CallId>, j: nat)
    requires j < |g.ptrs| && j < |cs|
  {
    AtPlace(was, g.ptrs[j], g.write) == {cs[j]}
  }

  /** Call j starts where the one before it ends. */
  predicate Joins(was: Calls, cs: seq<CallId>, j: nat, diff: Differences) {
    0 < j < |cs| && Follows(was, cs[j - 1], cs[j], diff)
  }

  /** How many maximal runs of two or more calls end before k. */
  function NumRuns(was: Calls, cs: seq<CallId>, k: nat, diff: Differences): nat {
    if k == 0 then 0
    else NumRuns(was, cs, k - 1, diff) + if Joins(was, cs, k - 1, diff) && !Joins(was, cs, k, diff) then 1 else 0
  }

  /** Call j is not adjacent to its neighbours; exactly then it stays. */
  ghost predicate StaysIfAlone(was: Calls, live: Calls, cs: seq<CallId>, j: nat, diff: Differences)
    requires j < |cs|
  {
    && (cs[j] in live <==> !Joins(was, cs, j, diff) && !Joins(was, cs, j + 1, diff))
    && (cs[j] in live ==> cs[j] in was && live[cs[j]] == was[cs[j]])
  }

  /** Each maximal run has become one range call, and all other calls stay. */
  ghost predicate RunsReplaced(was: Calls, live: Calls, cs: seq<CallId>, added: int, diff: Differences) {
    && (forall j: nat {:trigger StaysIfAlone(was, live, cs, j, diff)} :: j < |cs| ==> StaysIfAlone(was, live, cs, j, diff))
    && added == NumRuns(was, cs, |cs|, diff)
  }

  ghost predicate StillThere(was: Calls, live: Calls, cs: seq<CallId>, j: nat)
    requires j < |cs|
  {
    cs[j] in was && cs[j] in live && live[cs[j]] == was[cs[j]]
  }

  /** The first n calls have been visited; those from s on are the pending run, which is maximal so far, and
      the runs before it have been replaced. */
  ghost predicate WalkedFrom(was: Calls, live: Calls, cs: seq<CallId>, run: seq<CallId>, s: nat, n: nat, free: CallId,
                             added: int, diff: Differences) {
    && s < n <= |cs| && run == cs[s..n] && (forall id :: id in was ==> id < free) && !Joins(was, cs, s, diff)
    && (forall j: nat {:trigger Joins(was, cs, j, diff)} :: s < j < n ==> Joins(was, cs, j, diff))
    && (forall j: nat {:trigger StaysIfAlone(was, live, cs, j, diff)} :: j < s ==> StaysIfAlone(was, live, cs, j, diff))
    && (forall j: nat {:trigger StillThere(was, live, cs, j)} :: s <= j < |cs| ==> StillThere(was, live, cs, j))
    && added == NumRuns(was, cs, s, diff)
  }

  ghost predicate Walked(was: Calls, live: Calls, cs: seq<CallId>, run: seq<CallId>, n: nat, free: CallId, added: int,
                         diff: Differences) {
    exists s: nat :: WalkedFrom(was, live, cs, run, s, n, free, added, diff)
  }

  /** If there is exactly one call on each pointer, all maximal runs are replaced, and nothing else. */
  ghost predicate GroupCombined(was: Calls, live: Calls, g: Group, added: int, diff: Differences) {
    forall cs {:trigger InOrder(was, g, cs)} :: InOrder(was, g, cs) ==> RunsReplaced(was, live, cs, added, diff)
  }

  lemma FewCalls(was: Calls, g: Group, diff: Differences)
    requires |g.ptrs| < 2
    ensures GroupCombined(was, was, g, 0, diff)
  {
    forall cs | InOrder(was, g, cs)
      ensures RunsReplaced(was, was, cs, 0, diff)
    {
      assert NumRuns(was, cs, 0, diff) == 0;
      if |cs| == 1 {
        assert OnlyCall(was, g, cs, 0) && cs[0] in AtPlace(was, g.ptrs[0], g.write);
      }
    }
  }

  /** The calls are those of the window, each on a pointer of its own. */
  ghost predicate AreCalls(was: Calls, cs: seq<CallId>) {
    && Distinct(cs)
    && (forall j: nat {:trigger StillThere(was, was, cs, j)} :: j < |cs| ==> StillThere(was, was, cs, j))
  }

  lemma OrderIsDistinct(was: Calls, g: Group, cs: seq<CallId>)
    requires InOrder(was, g, cs) && Distinct(g.ptrs)
    ensures AreCalls(was, cs)
  {
    forall j: nat | j < |cs|
      ensures StillThere(was, was, cs, j) && was[cs[j]].ptr == g.ptrs[j]
    {
      assert OnlyCall(was, g, cs, j) && cs[j] in AtPlace(was, g.ptrs[j], g.write);
    }
    forall i: nat, j: nat
      ensures Different(cs, i, j)
    {
      assert Different(g.ptrs, i, j);
      assert i < j < |cs| ==> StillThere(was, was, cs, i) && StillThere(was, was, cs, j);
    }
  }

  /** A walk that changes nothing has found nothing to combine. */
  lemma NothingLeft(live: Calls, g: Group, added: int, diff: Differences)
    requires GroupCombined(live, live, g, added, diff)
    ensures Settled(live, g, diff)
  {
    if forall j: nat :: j < |g.ptrs| ==> SingleCall(live, g, j) {
      var cs := OrderExists(live, g);
      forall j: nat | 0 < j < |g.ptrs|
        ensures !Combinable(live, g, j, diff)
      {
        assert StaysIfAlone(live, live, cs, j, diff) && OnlyCall(live, g, cs, j) && OnlyCall(live, g, cs, j - 1);
        assert cs[j] in AtPlace(live, g.ptrs[j], g.write);
      }
    }
  }

  lemma OrderExists(live: Calls, g: Group) returns (cs: seq<CallId>)
    requires forall j: nat :: j < |g.ptrs| ==> SingleCall(live, g, j)
    ensures InOrder(live, g, cs)
  {
    cs := [];
    while |cs| < |g.ptrs|
      invariant |cs| <= |g.ptrs| && forall j: nat {:trigger OnlyCall(live, g, cs, j)} :: j < |cs| ==> OnlyCall(live, g, cs, j)
      decreases |g.ptrs| - |cs|
    {
      assert SingleCall(live, g, |cs|);
      var c :| c in AtPlace(live, g.ptrs[|cs|], g.write);
      OnlyElement(AtPlace(live, g.ptrs[|cs|], g.write), c);
      assert forall j: nat :: j < |cs| ==> (OnlyCall(live, g, cs, j) ==> OnlyCall(live, g, cs + [c], j));
      cs := cs + [c];
    }
  }

  /** The next call joins the pending run. */
  lemma RunGrows(was: Calls, live: Calls, cs: seq<CallId>, run: seq<CallId>, s: nat, n: nat, free: CallId, added: int,
                 diff: Differences)
    requires WalkedFrom(was, live, cs, run, s, n, free, added, diff) && n < |cs| && Joins(was, cs, n, diff)
    ensures WalkedFrom(was, live, cs, run + [cs[n]], s, n + 1, free, added, diff)
  {
    assert cs[s..n + 1] == run + [cs[n]];
  }

  lemma {:induction false} NoRunEnds(was: Calls, cs: seq<CallId>, s: nat, m: nat, diff: Differences)
    requires s <= m && !Joins(was, cs, s, diff) && forall j: nat :: s < j <= m ==> Joins(was, cs, j, diff)
    ensures NumRuns(was, cs, m, diff) == NumRuns(was, cs, s, diff)
    decreases m
  {
    if s < m {
      NoRunEnds(was, cs, s, m - 1, diff);
    }
  }

  /** What holds when the run that ends at n has been replaced, if it has two or more calls. */
  ghost predicate ClosedAt(was: Calls, live: Calls, cs: seq<CallId>, n: nat, added: int, diff: Differences) {
    && n <= |cs| && !Joins(was, cs, n, diff) && added == NumRuns(was, cs, n, diff)
    && (forall j: nat {:trigger StaysIfAlone(was, live, cs, j, diff)} :: j < n ==> StaysIfAlone(was, live, cs, j, diff))
    && (forall j: nat {:trigger StillThere(was, live, cs, j)} :: n <= j < |cs| ==> StillThere(was, live, cs, j))
  }

  lemma RunIsClosed(was: Calls, before: Calls, after: Calls, cs: seq<CallId>, run: seq<CallId>, s: nat, n: nat, free: CallId,
                    added: int, more: int, diff: Differences)
    requires WalkedFrom(was, before, cs, run, s, n, free, added, diff) && !Joins(was, cs, n, diff)
    requires AreCalls(was, cs) && IsReplaced(before, after, run, free, more)
    ensures ClosedAt(was, after, cs, n, added + more, diff)
  {
    assert |run| == n - s;
    NoRunEnds(was, cs, s, n - 1, diff);
    forall j: nat | j < n
      ensures StaysIfAlone(was, after, cs, j, diff)
    {
      StaysAfter(was, before, after, cs, run, s, n, free, added, more, diff, j);
    }
    forall j: nat | n <= j < |cs|
      ensures StillThere(was, after, cs, j)
    {
      assert StillThere(was, before, cs, j);
      NotInRun(was, cs, run, s, n, j);
    }
  }

  lemma NotInRun(was: Calls, cs: seq<CallId>, run: seq<CallId>, s: nat, n: nat, j: nat)
    requires s <= n <= |cs| && run == cs[s..n] && AreCalls(was, cs) && j < |cs| && !(s <= j < n)
    ensures cs[j] !in run
  {
    forall i: nat | i < |run|
      ensures run[i] != cs[j]
    {
      assert run[i] == cs[s + i] && Different(cs, s + i, j) && Different(cs, j, s + i);
    }
  }

  lemma StaysAfter(was: Calls, before: Calls, after: Calls, cs: seq<CallId>, run: seq<CallId>, s: nat, n: nat, free: CallId,
                   added: int, more: int, diff: Differences, j: nat)
    requires WalkedFrom(was, before, cs, run, s, n, free, added, diff) && !Joins(was, cs, n, diff) && j < n
    requires AreCalls(was, cs) && IsReplaced(before, after, run, free, more)
    ensures StaysIfAlone(was, after, cs, j, diff)
  {
    if j < s {
      assert StaysIfAlone(was, before, cs, j, diff);
      NotInRun(was, cs, run, s, n, j);
    } else {
      assert StillThere(was, before, cs, j) && run[j - s] == cs[j];
      if |run| >= 2 {
        assert Joins(was, cs, if j == s then j + 1 else j, diff);
      }
    }
  }

  /** The next call starts a new run. */
  lemma RunStarts(was: Calls, live: Calls, cs: seq<CallId>, n: nat, free: CallId, added: int, diff: Differences)
    requires ClosedAt(was, live, cs, n, added, diff) && n < |cs| && forall id :: id in was ==> id < free
    ensures WalkedFrom(was, live, cs, [cs[n]], n, n + 1, free, added, diff)
  {
    assert cs[n..n + 1] == [cs[n]];
  }

  lemma JoinIsFollow(was: Calls, live: Calls, cs: seq<CallId>, run: seq<CallId>, s: nat, n: nat, free: CallId, added: int,
                     diff: Differences)
    requires WalkedFrom(was, live, cs, run, s, n, free, added, diff) && n < |cs|
    ensures Joins(was, cs, n, diff) <==> Follows(live, run[|run| - 1], cs[n], diff)
  {
    assert StillThere(was, live, cs, n - 1) && StillThere(was, live, cs, n);
  }

  /** A single call is not replaced. */
  lemma NothingReplaced(was: Calls, before: Calls, after: Calls, cs: seq<CallId>, run: seq<CallId>, s: nat, n: nat,
                        free: CallId, free': CallId, ids: seq<CallId>, added: int, more: int, diff: Differences)
    requires WalkedFrom(was, before, cs, run, s, n, free, added, diff) && free <= free'
    requires IsReplaced(before, after, ids, free, more) && |ids| < 2
    ensures WalkedFrom(was, after, cs, run, s, n, free', added + more, diff)
  {
    forall j: nat | j < s
      ensures StaysIfAlone(was, after, cs, j, diff)
    {
      assert StaysIfAlone(was, before, cs, j, diff);
    }
    forall j: nat | s <= j < |cs|
      ensures StillThere(was, after, cs, j)
    {
      assert StillThere(was, before, cs, j);
    }
  }

  /** Call n is visited. */
  lemma WalkStep(was: Calls, before: Calls, after: Calls, cs: seq<CallId>, pending: seq<CallId>, run: seq<CallId>,
                 closed: seq<CallId>, s: nat, n: nat, free: CallId, free': CallId, added: int, more: int, diff: Differences)
    requires WalkedFrom(was, before, cs, pending, s, n, free, added, diff) && n < |cs| && AreCalls(was, cs) && free <= free'
    requires Closes(before, pending, cs[n], run, n + 1 == |cs|, closed, diff) && IsReplaced(before, after, closed, free, more)
    ensures if n + 1 == |cs| then RunsReplaced(was, after, cs, added + more, diff)
            else Walked(was, after, cs, run, n + 1, free', added + more, diff)
  {
    JoinIsFollow(was, before, cs, pending, s, n, free, added, diff);
    if Joins(was, cs, n, diff) {
      RunGrows(was, before, cs, pending, s, n, free, added, diff);
      if n + 1 == |cs| {
        RunIsClosed(was, before, after, cs, run, s, n + 1, free, added, more, diff);
      } else {
        NothingReplaced(was, before, after, cs, run, s, n + 1, free, free', closed, added, more, diff);
      }
    } else {
      RunIsClosed(was, before, after, cs, pending, s, n, free, added, more, diff);
      RunStarts(was, after, cs, n, free', added + more, diff);
      if n + 1 == |cs| {
        assert StillThere(was, after, cs, n);
        RunIsClosed(was, after, after, cs, [cs[n]], n, n + 1, free', added + more, 0, diff);
      }
    }
  }

  ghost predicate HasOrder(was: Calls, g: Group) {
    exists cs :: InOrder(was, g, cs)
  }

  /** The calls, the pending run, the next free number and the number of range calls at a moment of the walk. */
  datatype Progress = Progress(live: Calls, run: seq<CallId>, free: CallId, added: int)

  /** A visit of the only call on pointer i. */
  ghost predicate IsVisit(was: Calls, g: Group, i: nat, s: Progress, cur: CallId, t: Progress, diff: Differences) {
    && i < |g.ptrs| && AtPlace(was, g.ptrs[i], g.write) == {cur} && s.free <= t.free
    && Visits(s.live, t.live, s.run, cur, t.run, i == |g.ptrs| - 1, s.free, t.added - s.added, diff)
  }

  ghost predicate StepAt(g: Group, path: seq<Progress>, k: nat, diff: Differences) {
    k + 1 < |path| && Leads(path[0].live, g, k, path[k], path[k + 1], diff)
  }

  ghost predicate Leads(was: Calls, g: Group, i: nat, s: Progress, t: Progress, diff: Differences) {
    exists cur :: IsVisit(was, g, i, s, cur, t, diff)
  }

  /** The first i visits lead along the path. */
  ghost predicate IsPath(begin: Progress, g: Group, i: nat, t: Progress, path: seq<Progress>, diff: Differences) {
    && |path| == i + 1 && path[0] == begin && path[i] == t
    && forall k: nat {:trigger StepAt(g, path, k, diff)} :: k < i ==> StepAt(g, path, k, diff)
  }

  /** The walk has come here after i visits. */
  ghost predicate Reaches(begin: Progress, g: Group, i: nat, t: Progress, diff: Differences) {
    exists path :: IsPath(begin, g, i, t, path, diff)
  }

  lemma ReachesBegin(begin: Progress, g: Group, ptrValues: map<Ptr, set<CallId>>, first: CallId, diff: Differences)
    requires g.ptrs != [] && AreCollected(ptrValues, begin.live, g)
    requires g.ptrs[0] in ptrValues && ptrValues[g.ptrs[0]] == {first}
    ensures Reaches(begin, g, 0, begin, diff) && AtPlace(begin.live, g.ptrs[0], g.write) == {first}
  {
    assert IsPath(begin, g, 0, begin, [begin], diff) && CollectedAt(ptrValues, begin.live, g, 0);
  }

  lemma ReachesNext(begin: Progress, g: Group, i: nat, s: Progress, ptrValues: map<Ptr, set<CallId>>, cur: CallId,
                    giveUp: bool, t: Progress, diff: Differences)
    requires i < |g.ptrs| && Reaches(begin, g, i, s, diff) && s.free <= t.free && AreCollected(ptrValues, begin.live, g)
    requires g.ptrs[i] in ptrValues && if giveUp then |ptrValues[g.ptrs[i]]| != 1 && t.live == s.live
                                       else ptrValues[g.ptrs[i]] == {cur}
    requires giveUp || Visits(s.live, t.live, s.run, cur, t.run, i == |g.ptrs| - 1, s.free, t.added - s.added, diff)
    ensures if giveUp then !HasOrder(begin.live, g) else Reaches(begin, g, i + 1, t, diff)
    ensures t.added == s.added ==> t.live == s.live
  {
    assert CollectedAt(ptrValues, begin.live, g, i);
    if giveUp {
      assert forall cs {:trigger InOrder(begin.live, g, cs)} :: InOrder(begin.live, g, cs) ==> OnlyCall(begin.live, g, cs, i);
    } else {
      var path :| IsPath(begin, g, i, s, path, diff);
      assert IsVisit(begin.live, g, i, s, cur, t, diff);
      LongerPath(begin, g, i, s, path, t, diff);
    }
  }

  lemma LongerPath(begin: Progress, g: Group, i: nat, s: Progress, path: seq<Progress>, t: Progress, diff: Differences)
    requires IsPath(begin, g, i, s, path, diff) && Leads(begin.live, g, i, s, t, diff)
    ensures IsPath(begin, g, i + 1, t, path + [t], diff)
  {
    var more := path + [t];
    forall k: nat | k < i + 1
      ensures StepAt(g, more, k, diff)
    {
      if k < i {
        assert StepAt(g, path, k, diff) && more[k] == path[k] && more[k + 1] == path[k + 1];
      }
    }
  }

  lemma ReachesCombined(begin: Progress, g: Group, first: CallId, giveUp: bool, t: Progress, diff: Differences)
    requires |g.ptrs| >= 2 && Distinct(g.ptrs) && diff(g.ptrs[0], g.ptrs[0]) == Constant(0)
    requires forall id :: id in begin.live ==> id < begin.free && begin.live[id].size > 0
    requires AtPlace(begin.live, g.ptrs[0], g.write) == {first} && begin.run == [first]
    requires if giveUp then !HasOrder(begin.live, g) else Reaches(begin, g, |g.ptrs|, t, diff)
    ensures GroupCombined(begin.live, t.live, g, t.added - begin.added, diff)
  {
    forall cs | InOrder(begin.live, g, cs)
      ensures RunsReplaced(begin.live, t.live, cs, t.added - begin.added, diff)
    {
      assert HasOrder(begin.live, g);
      OrderIsDistinct(begin.live, g, cs);
      OnlyCallIs(begin.live, g, cs, 0, first);
      assert first in AtPlace(begin.live, g.ptrs[0], g.write);
      var path :| IsPath(begin, g, |g.ptrs|, t, path, diff);
      PathIsRight(begin, g, cs, |g.ptrs|, t, path, diff, |g.ptrs|);
    }
  }

  lemma {:induction false} PathIsRight(begin: Progress, g: Group, cs: seq<CallId>, n: nat, t: Progress, path: seq<Progress>,
                                       diff: Differences, i: nat)
    requires InOrder(begin.live, g, cs) && AreCalls(begin.live, cs) && |cs| >= 2 && begin.run == [cs[0]]
    requires cs[0] in begin.live && begin.live[cs[0]].size > 0
    requires diff(begin.live[cs[0]].ptr, begin.live[cs[0]].ptr) == Constant(0)
    requires forall id :: id in begin.live ==> id < begin.free
    requires i <= n <= |cs| && IsPath(begin, g, n, t, path, diff)
    ensures IsDone(begin, cs, i, path[i], diff)
  {
    if i == 0 {
      WalkStarts(begin.live, cs, begin.free, diff);
    } else {
      PathIsRight(begin, g, cs, n, t, path, diff, i - 1);
      assert StepAt(g, path, i - 1, diff);
      var cur :| IsVisit(begin.live, g, i - 1, path[i - 1], cur, path[i], diff);
      VisitIsRight(begin, g, cs, i - 1, path[i - 1], cur, path[i], diff);
    }
  }

  lemma VisitIsRight(begin: Progress, g: Group, cs: seq<CallId>, i: nat, s: Progress, cur: CallId, t: Progress,
                     diff: Differences)
    requires InOrder(begin.live, g, cs) && AreCalls(begin.live, cs) && |cs| >= 2 && i < |cs|
    requires cs[0] in begin.live && begin.live[cs[0]].size > 0
    requires diff(begin.live[cs[0]].ptr, begin.live[cs[0]].ptr) == Constant(0)
    requires IsDone(begin, cs, i, s, diff) && i < |g.ptrs| && IsVisit(begin.live, g, i, s, cur, t, diff)
    ensures IsDone(begin, cs, i + 1, t, diff)
  {
    OnlyCallIs(begin.live, g, cs, i, cur);
    VisitGoesOn(begin, s, t, cs, i, diff);
  }

  lemma WalkStarts(was: Calls, cs: seq<CallId>, free: CallId, diff: Differences)
    requires cs != [] && (forall id :: id in was ==> id < free) && AreCalls(was, cs)
    ensures Walked(was, was, cs, [cs[0]], 1, free, 0, diff)
  {
    assert cs[0..1] == [cs[0]];
    assert WalkedFrom(was, was, cs, [cs[0]], 0, 1, free, 0, diff);
  }

  lemma OnlyCallIs(was: Calls, g: Group, cs: seq<CallId>, i: nat, cur: CallId)
    requires InOrder(was, g, cs) && i < |g.ptrs| && AtPlace(was, g.ptrs[i], g.write) == {cur}
    ensures cs[i] == cur
  {
    assert OnlyCall(was, g, cs, i);
    assert cs[i] in AtPlace(was, g.ptrs[i], g.write);
  }

  /** After i visits. */
  ghost predicate IsDone(begin: Progress, cs: seq<CallId>, i: nat, t: Progress, diff: Differences) {
    if i == |cs| then RunsReplaced(begin.live, t.live, cs, t.added - begin.added, diff)
    else Walked(begin.live, t.live, cs, t.run, Visited(i), t.free, t.added - begin.added, diff)
  }

  lemma VisitGoesOn(begin: Progress, s: Progress, t: Progress, cs: seq<CallId>, i: nat, diff: Differences)
    requires |cs| >= 2 && i < |cs| && AreCalls(begin.live, cs) && s.free <= t.free
    requires cs[0] in begin.live && begin.live[cs[0]].size > 0
    requires diff(begin.live[cs[0]].ptr, begin.live[cs[0]].ptr) == Constant(0)
    requires IsDone(begin, cs, i, s, diff)
    requires Visits(s.live, t.live, s.run, cs[i], t.run, i + 1 == |cs|, s.free, t.added - s.added, diff)
    ensures IsDone(begin, cs, i + 1, t, diff)
  {
    var k: nat :| WalkedFrom(begin.live, s.live, cs, s.run, k, Visited(i), s.free, s.added - begin.added, diff);
    var closed :| && Closes(s.live, s.run, cs[i], t.run, i + 1 == |cs|, closed, diff)
                  && IsReplaced(s.live, t.live, closed, s.free, t.added - s.added);
    if i == 0 {
      assert s.run == [cs[0]] && StillThere(begin.live, s.live, cs, 0);
      NothingReplaced(begin.live, s.live, t.live, cs, s.run, k, 1, s.free, t.free, closed, s.added - begin.added,
                      t.added - s.added, diff);
    } else {
      WalkStep(begin.live, s.live, t.live, cs, s.run, t.run, closed, k, i, s.free, t.free, s.added - begin.added,
               t.added - s.added, diff);
    }
  }

  // ---------------------------------------------------------------- nothing left to combine

  /** Call next starts where call last ends. */
  predicate Follows(live: Calls, last: CallId, next: CallId, diff: Differences) {
    last in live && next in live && diff(live[next].ptr, live[last].ptr) == Constant(live[last].size)
  }

  predicate SingleCall(live: Calls, g: Group, j: nat) {
    j < |g.ptrs| ==> |AtPlace(live, g.ptrs[j], g.write)| == 1
  }

  /** On consecutive pointers of the group there are two calls, one of which starts where the other
      ends. */
  ghost predicate Combinable(live: Calls, g: Group, j: nat, diff: Differences) {
    && 0 < j < |g.ptrs|
    && exists last, next :: && last in AtPlace(live, g.ptrs[j - 1], g.write)
                            && next in AtPlace(live, g.ptrs[j], g.write) && Follows(live, last, next, diff)
  }

  /** If each pointer of the group has exactly one call, no two neighbours can be combined. */
  ghost predicate Settled(live: Calls, g: Group, diff: Differences) {
    (forall j: nat :: j < |g.ptrs| ==> SingleCall(live, g, j)) ==> forall j: nat :: !Combinable(live, g, j, diff)
  }

  ghost predicate AllSettled(live: Calls, bases: seq<BasePointer>, diff: Differences) {
    forall b :: b in bases ==> Settled(live, Group(true, b.writePtrs), diff) && Settled(live, Group(false, b.readPtrs), diff)
  }

  ghost predicate RunOf(before: Calls, live: Calls, run: seq<CallId>, calls: seq<CallId>, callCur: CallId) {
    forall id :: id in run ==> id in before && id in live && live[id] == before[id] && (id in calls || id == callCur)
  }

  /** Only calls of the run and the current call may be gone. */
  ghost predicate RestKept(before: Calls, live: Calls, calls: seq<CallId>, callCur: CallId) {
    forall id :: id in before && id !in calls && id != callCur ==> id in live && live[id] == before[id]
  }

  /** The pending run after a visit: it ends with the current call, which is not counted yet. */
  ghost predicate NewRun(before: Calls, live: Calls, calls: seq<CallId>, callCur: CallId, run: seq<CallId>,
                         start': Ptr, accSize': nat, calls': seq<CallId>, w: bool, diff: Differences) {
    && RunOf(before, live, run, calls, callCur)
    && run != [] && Adjacent(live, run, w, diff) && run[|run| - 1] == callCur
    && calls' == run[..|run| - 1] && accSize' == SumSizes(live, calls') && start' == live[run[0]].ptr
  }

  lemma LongerRun(live: Calls, calls: seq<CallId>, callCur: CallId, start: Ptr, accSize: nat, w: bool, diff: Differences)
    requires calls != [] && Adjacent(live, calls, w, diff) && Adjacent(live, calls + [callCur], w, diff)
    requires start == live[calls[0]].ptr && accSize == SumSizes(live, calls)
    ensures NewRun(live, live, calls, callCur, calls + [callCur], start, accSize, calls, w, diff)
    ensures SumSizes(live, calls + [callCur]) == accSize + live[callCur].size
  {
    assert (calls + [callCur])[..|calls|] == calls;
  }

  lemma NewRunStarts(before: Calls, live: Calls, calls: seq<CallId>, callCur: CallId, w: bool, diff: Differences)
    requires callCur in before && callCur in live && live[callCur] == before[callCur] && live[callCur].write == w
    ensures NewRun(before, live, calls, callCur, [callCur], live[callCur].ptr, 0, [], w, diff)
  {
  }

  /** Whatever a visit does, the calls outside the run stay, and the new run is ready. */
  lemma VisitKeeps(before: Calls, live: Calls, calls: seq<CallId>, callCur: CallId, run: seq<CallId>, isLast: bool,
                   free: CallId, added: int, start: Ptr, accSize: nat, w: bool, diff: Differences)
    requires calls != [] && Adjacent(before, calls, w, diff) && start == before[calls[0]].ptr && accSize == SumSizes(before, calls)
    requires callCur in before && before[callCur].write == w
    requires callCur in calls ==>
               |calls| == 1 && diff(before[callCur].ptr, before[callCur].ptr) != Constant(before[callCur].size)
    requires Visits(before, live, calls, callCur, run, isLast, free, added, diff)
    ensures RestKept(before, live, calls, callCur)
    ensures isLast || if |run| > 1 then NewRun(before, live, calls, callCur, run, start, accSize, calls, w, diff)
                      else NewRun(before, live, calls, callCur, run, before[callCur].ptr, 0, [], w, diff)
  {
    var closed :| Closes(before, calls, callCur, run, isLast, closed, diff) && IsReplaced(before, live, closed, free, added);
    if Follows(before, calls[|calls| - 1], callCur, diff) {
      if !isLast {
        AdjacentSnoc(before, calls, callCur, w, diff);
        LongerRun(before, calls, callCur, start, accSize, w, diff);
      }
    } else {
      assert callCur in live && live[callCur] == before[callCur];
      NewRunStarts(before, live, calls, callCur, w, diff);
    }
  }

  lemma AheadStays(before: Calls, live: Calls, g: Group, ptrValues: map<Ptr, set<CallId>>, run: seq<CallId>,
                   cur: CallId, i: nat)
    requires Distinct(g.ptrs) && i < |g.ptrs| && Ahead(before, g, ptrValues, i)
    requires cur in before && before[cur].ptr == g.ptrs[i]
    requires OnFirst(before, g, run, Visited(i)) && RestKept(before, live, run, cur)
    ensures Ahead(live, g, ptrValues, i + 1)
  {
    forall j: nat | i + 1 <= j < |g.ptrs|
      ensures AheadAt(live, g, ptrValues, j)
    {
      NotBefore(g.ptrs, Visited(i), j);
      assert Different(g.ptrs, i, j);
      assert AheadAt(before, g, ptrValues, j);
    }
  }

  ghost predicate AheadAt(live: Calls, g: Group, ptrValues: map<Ptr, set<CallId>>, j: nat)
    requires j < |g.ptrs|
  {
    g.ptrs[j] in ptrValues ==> forall id :: id in ptrValues[g.ptrs[j]] ==>
      id in live && live[id].ptr == g.ptrs[j] && live[id].write == g.write
  }

  /** The calls still to be visited, from pointer i on. */
  ghost predicate Ahead(live: Calls, g: Group, ptrValues: map<Ptr, set<CallId>>, i: nat) {
    forall j: nat {:trigger AheadAt(live, g, ptrValues, j)} :: i <= j < |g.ptrs| ==> AheadAt(live, g, ptrValues, j)
  }

  /** The calls of a run are on the first k pointers of the group. */
  ghost predicate OnFirst(live: Calls, g: Group, run: seq<CallId>, k: nat)
    requires k <= |g.ptrs|
  {
    forall id :: id in run ==> id in live && live[id].ptr in g.ptrs[..k]
  }

  lemma PendingIsRun(live: Calls, g: Group, ptrValues: map<Ptr, set<CallId>>, i: nat, start: Ptr, accSize: nat,
                     calls: seq<CallId>, callCur: CallId, run: seq<CallId>, diff: Differences)
    requires i < |g.ptrs| && ptrValues.Keys == Elements(g.ptrs)
    requires Pending(live, g, ptrValues, i, start, accSize, calls, callCur, run, diff)
    ensures callCur in live && calls + [callCur] == run && accSize + live[callCur].size == SumSizes(live, run)
  {
    SumSnoc(live, run);
  }

  /** The call on pointer i is not in the pending run, but for the first pointer, where it is the run. */
  lemma CurrentIsNew(live: Calls, g: Group, ptrValues: map<Ptr, set<CallId>>, i: nat, start: Ptr, accSize: nat,
                     calls: seq<CallId>, callCur: CallId, run: seq<CallId>, cur: CallId, diff: Differences)
    requires Distinct(g.ptrs) && i < |g.ptrs| && ptrValues.Keys == Elements(g.ptrs) && Ahead(live, g, ptrValues, i)
    requires Pending(live, g, ptrValues, i, start, accSize, calls, callCur, run, diff)
    requires ptrValues[g.ptrs[i]] == {cur} && diff(g.ptrs[i], g.ptrs[i]) == Constant(0)
    requires forall id :: id in live ==> live[id].size > 0
    ensures cur in live && live[cur].ptr == g.ptrs[i] && live[cur].write == g.write
    ensures cur in run ==> |run| == 1 && diff(live[cur].ptr, live[cur].ptr) != Constant(live[cur].size)
  {
    NotBefore(g.ptrs, i, i);
    assert AheadAt(live, g, ptrValues, i);
  }

  lemma PendingNext(before: Calls, live: Calls, g: Group, ptrValues: map<Ptr, set<CallId>>, i: nat, run: seq<CallId>,
                    cur: CallId, run': seq<CallId>, start': Ptr, accSize': nat, calls': seq<CallId>, diff: Differences)
    requires i + 1 < |g.ptrs| && ptrValues.Keys == Elements(g.ptrs) && ptrValues[g.ptrs[i]] == {cur}
    requires cur in before && before[cur].ptr == g.ptrs[i] && OnFirst(before, g, run, Visited(i))
    requires NewRun(before, live, run, cur, run', start', accSize', calls', g.write, diff)
    ensures Pending(live, g, ptrValues, i + 1, start', accSize', calls', cur, run', diff)
  {
    BehindGrows(before, live, g, run, run', cur, i);
  }

  lemma AdjacentSnoc(calls: Calls, run: seq<CallId>, id: CallId, w: bool, diff: Differences)
    requires run != [] && Adjacent(calls, run, w, diff) && id in calls && id !in run && calls[id].write == w
    requires var last := calls[run[|run| - 1]]; diff(calls[id].ptr, last.ptr) == Constant(last.size)
    ensures Adjacent(calls, run + [id], w, diff)
  {
    var more := run + [id];
    forall i: nat, j: nat
      ensures Different(more, i, j)
    {
      assert Different(run, i, j);
    }
    forall i | 0 < i < |more|
      ensures NextTo(calls, more, i, diff)
    {
      if i < |run| {
        assert NextTo(calls, run, i, diff);
      }
    }
  }

  lemma BehindGrows(before: Calls, live: Calls, g: Group, run: seq<CallId>, run': seq<CallId>, cur: CallId, i: nat)
    requires i < |g.ptrs|
    requires cur in before && before[cur].ptr == g.ptrs[i]
    requires OnFirst(before, g, run, Visited(i)) && RunOf(before, live, run', run, cur)
    ensures OnFirst(live, g, run', i + 1)
  {
    forall id | id in run'
      ensures live[id].ptr in g.ptrs[..i + 1]
    {
      if id in run {
        var j :| 0 <= j < |g.ptrs[..Visited(i)]| && g.ptrs[j] == live[id].ptr;
        assert g.ptrs[..i + 1][j] == g.ptrs[j];
      } else {
        assert g.ptrs[..i + 1][i] == g.ptrs[i];
      }
    }
  }

  lemma RemoveNext(m: Calls, ids: seq<CallId>, i: nat)
    requires i < |ids| && Distinct(ids) && forall id :: id in ids ==> id in m
    ensures ids[i] in m && ids[i] !in Elements(ids[..i]) && Elements(ids[..i + 1]) == Elements(ids[..i]) + {ids[i]}
    ensures SumSizes(m, ids[..i + 1]) == SumSizes(m, ids[..i]) + m[ids[i]].size
  {
    NotBefore(ids, i, i);
    assert ids[..i + 1][..i] == ids[..i];
    assert ids[i] in ids;
    assert ids[..i + 1] == ids[..i] + [ids[i]];
  }

  lemma AddOne(m: Calls, id: CallId, c: Call)
    requires id !in m
    ensures |m[id := c]| == |m| + 1
  {
    assert m[id := c].Keys == m.Keys + {id};
  }

  method TheCall(calls: set<CallId>) returns (call: CallId)
    requires |calls| == 1
    ensures calls == {call}
  {
    call :| call in calls;
    OnlyElement(calls, call);
  }

  lemma SumSnoc(calls: Calls, ids: seq<CallId>)
    requires ids != [] && forall id :: id in ids ==> id in calls
    ensures SumSizes(calls, ids) == SumSizes(calls, ids[..|ids| - 1]) + calls[ids[|ids| - 1]].size
  {
  }

  lemma {:induction false} SumIsPositive(calls: Calls, ids: seq<CallId>)
    requires forall id :: id in ids ==> id in calls && calls[id].size > 0
    ensures SumSizes(calls, ids) >= |ids|
  {
    if ids != [] {
      SumIsPositive(calls, ids[..|ids| - 1]);
    }
  }

  lemma RemoveOne(m: Calls, id: CallId)
    requires id in m
    ensures |m - {id}| == |m| - 1
  {
    assert (m - {id}).Keys == m.Keys - {id};
  }

  lemma MinusMinus(m: Calls, gone: set<CallId>, id: CallId)
    ensures m - gone - {id} == m - (gone + {id})
  {
  }

  // ---------------------------------------------------------------- several calls on one pointer

  function AtPlace(calls: Calls, p: Ptr, w: bool): set<CallId> {
    set id | id in calls && calls[id].ptr == p && calls[id].write == w
  }

  /** b holds one element of a, if there is one. */
  ghost predicate OneOf(a: set<CallId>, b: set<CallId>) {
    b <= a && (a != {} ==> exists k :: b == {k})
  }

  /** Of the calls on each of the given pointers one is left; the others are untouched. */
  ghost predicate Thinned(was: Calls, live: Calls, ptrs: set<Ptr>, w: bool) {
    && (forall id :: id in live ==> id in was && live[id] == was[id])
    && (forall p, v :: if v == w && p in ptrs then OneOf(AtPlace(was, p, v), AtPlace(live, p, v))
                       else AtPlace(was, p, v) == AtPlace(live, p, v))
  }

  lemma ThinStep(was: Calls, before: Calls, live: Calls, done: set<Ptr>, p: Ptr, w: bool, tsan: CallId)
    requires Thinned(was, before, done, w)
    requires tsan in AtPlace(before, p, w) && live == before - (AtPlace(before, p, w) - {tsan})
    ensures Thinned(was, live, done + {p}, w)
  {
    forall q, v
      ensures AtPlace(live, q, v) == if q == p && v == w then {tsan} else AtPlace(before, q, v)
    {
    }
  }

  lemma ThinNothing(was: Calls, live: Calls, done: set<Ptr>, p: Ptr, w: bool)
    requires Thinned(was, live, done, w) && |AtPlace(live, p, w)| < 2
    ensures Thinned(was, live, done + {p}, w)
  {
    if k :| k in AtPlace(live, p, w) {
      AtMostOne(AtPlace(live, p, w));
      assert AtPlace(live, p, w) == {k};
    }
  }

  /** If the calls on each pointer have one size, nothing that was reported is lost. */
  lemma ThinnedReportsTheSame(was: Calls, live: Calls, ptrs: set<Ptr>, w: bool, addr: Addresses)
    requires Thinned(was, live, ptrs, w)
    requires forall j, k :: j in was && k in was && was[j].ptr == was[k].ptr && was[j].write == was[k].write ==> was[j].size == was[k].size
    ensures SameUnder(was, live, addr)
  {
    forall v, x
      ensures Reported(was, addr, v, x) <==> Reported(live, addr, v, x)
    {
      if Reported(was, addr, v, x) {
        var id :| id in was && Reports(was[id], addr, v, x);
        assert id in AtPlace(was, was[id].ptr, v);
        var k :| k in AtPlace(live, was[id].ptr, v);
        assert Reports(live[k], addr, v, x);
      }
    }
  }

  /** The calls of a window that are on pointer p. */
  function GroupOf(calls: Calls, p: Ptr, w: bool): Calls {
    map id | id in AtPlace(calls, p, w) :: calls[id]
  }

  predicate OneSize(calls: Calls) {
    forall j, k :: j in calls && k in calls ==> calls[j].size == calls[k].size
  }

  /** Keeping an arbitrary one of the calls on a pointer is right exactly when they all have the
      same size, which the code does not test: its assertion compares a call with itself. */
  lemma KeepOneIff(calls: Calls, p: Ptr, w: bool)
    ensures var g := GroupOf(calls, p, w);
            OneSize(g) <==> forall kept, addr: Addresses :: kept in g ==> SameUnder(g, map[kept := g[kept]], addr)
  {
    var g := GroupOf(calls, p, w);
    if OneSize(g) {
      forall kept, addr: Addresses | kept in g
        ensures SameUnder(g, map[kept := g[kept]], addr)
      {
        var one := map[kept := g[kept]];
        forall v, x
          ensures Reported(g, addr, v, x) <==> Reported(one, addr, v, x)
        {
          if Reported(g, addr, v, x) {
            assert Reports(one[kept], addr, v, x);
          }
        }
      }
    } else {
      var j, k :| j in g && k in g && g[j].size < g[k].size;
      var addr: Addresses := _ => 0;
      var one := map[j := g[j]];
      assert Reports(g[k], addr, w, g[j].size);
      assert Reported(g, addr, w, g[j].size) && !Reported(one, addr, w, g[j].size);
      assert !SameUnder(g, one, addr);
    }
  }

  // ---------------------------------------------------------------- running a combined window

  /** The events of thread t's run through a window: what these calls report, and the accesses `rest`
      of whatever else the window executes. */
  ghost predicate Performs(events: Trace, calls: Calls, rest: iset<(bool, Byte)>, addr: Addresses, t: Tid) {
    && AccessesOf(events, t)
    && forall w, x :: Touched(events, w, x) <==> Reported(calls, addr, w, x) || (w, x) in rest
  }

  /** Running the combined window instead of the original one is a replacement that keeps every
      verdict, wherever in the window the calls stand. */
  lemma CombinedWindowIsReplaceable(before: Calls, after: Calls, diff: Differences, rest: iset<(bool, Byte)>,
                                    addr: Addresses, t: Tid, events: Trace, events': Trace)
    requires SameReports(before, after, diff) && Respects(addr, diff)
    requires Performs(events, before, rest, addr, t) && Performs(events', after, rest, addr, t)
    ensures Replaceable(Piece(events, events'), t)
  {
    assert SameUnder(before, after, addr);
    forall w, x
      ensures Touched(events, w, x) <==> Touched(events', w, x)
    {
      assert Reported(before, addr, w, x) <==> Reported(after, addr, w, x);
    }
  }

  // ---------------------------------------------------------------- windows with pthread_create

  /** The scan for a window does not stop at pthread_create, which is on the list of thread functions
      that are taken to have no influence.  These are the calls of one adjacent run, in the order of
      execution, and the creations between. */
  datatype Item = Report(bytes: set<Byte>) | Spawn(child: Tid)

  function Event(it: Item, t: Tid, w: bool): HappensBefore.Event {
    match it
    case Report(bytes) => Access(t, w, bytes)
    case Spawn(c) => Fork(t, c)
  }

  function Separate(items: seq<Item>, t: Tid, w: bool): Trace {
    seq(|items|, i requires 0 <= i < |items| => Event(items[i], t, w))
  }

  function AllBytes(items: seq<Item>): set<Byte> {
    set i, b | 0 <= i < |items| && items[i].Report? && b in items[i].bytes :: b
  }

  function Spawns(items: seq<Item>, t: Tid): Trace {
    if items == [] then []
    else Spawns(items[..|items| - 1], t) +
         if items[|items| - 1].Spawn? then [Fork(t, items[|items| - 1].child)] else []
  }

  /** One range call in the place of the k-th item, the call on the lowest address. */
  function Merged(items: seq<Item>, t: Tid, w: bool, k: nat): Trace
    requires k < |items|
  {
    Spawns(items[..k], t) + [Access(t, w, AllBytes(items))] + Spawns(items[k + 1..], t)
  }

  ghost predicate KeptInEveryContext(items: seq<Item>, t: Tid, w: bool, k: nat)
    requires k < |items|
  {
    forall pre: Trace, post: Trace :: WellForked(pre + Separate(items, t, w) + post) ==>
      SameVerdict(pre + Separate(items, t, w) + post, pre + Merged(items, t, w, k) + post)
  }

  /** Adjacent calls report different bytes, and every thread is created once. */
  predicate IsRun(items: seq<Item>, t: Tid) {
    && items != [] && items[0].Report? && items[|items| - 1].Report?
    && (forall i :: 0 <= i < |items| && items[i].Report? ==> items[i].bytes != {})
    && (forall i, j :: 0 <= i < j < |items| && items[i].Report? && items[j].Report? ==> items[i].bytes !! items[j].bytes)
    && FreshThreads(items, t)
  }

  predicate FreshThreads(items: seq<Item>, t: Tid) {
    && (forall i :: 0 <= i < |items| && items[i].Spawn? ==> items[i].child != t && items[i].child != MAIN)
    && (forall i, j :: 0 <= i < j < |items| && items[i].Spawn? && items[j].Spawn? ==> items[i].child != items[j].child)
  }

  predicate NoCreate(items: seq<Item>) {
    forall i :: 0 <= i < |items| ==> items[i].Report?
  }

  lemma {:induction false} SyncOnlyConcat(a: Trace, b: Trace)
    ensures SyncOnly(a + b) == SyncOnly(a) + SyncOnly(b)
  {
    if b == [] {
      assert a + b == a;
    } else {
      SyncOnlyConcat(a, b[..|b| - 1]);
      assert (a + b)[..|a + b| - 1] == a + b[..|b| - 1];
    }
  }

  lemma {:induction false} AccessesHaveNoSync(a: Trace)
    requires forall e :: e in a ==> e.Access?
    ensures SyncOnly(a) == []
  {
    if a != [] {
      assert a[|a| - 1] in a;
      AccessesHaveNoSync(a[..|a| - 1]);
    }
  }

  lemma {:induction false} NoSpawns(items: seq<Item>, t: Tid)
    requires NoCreate(items)
    ensures Spawns(items, t) == []
  {
    if items != [] {
      NoSpawns(items[..|items| - 1], t);
    }
  }

  lemma {:induction false} SpawnIsThere(items: seq<Item>, t: Tid, i: nat) returns (k: nat)
    requires i < |items| && items[i].Spawn?
    ensures k < |Spawns(items, t)| && Spawns(items, t)[k] == Fork(t, items[i].child)
  {
    if i == |items| - 1 {
      k := |Spawns(items[..i], t)|;
    } else {
      k := SpawnIsThere(items[..|items| - 1], t, i);
    }
  }

  lemma {:induction false} SpawnsAreForks(items: seq<Item>, t: Tid)
    ensures forall e :: e in Spawns(items, t) ==>
                          e.Fork? && e.tid == t && exists i :: 0 <= i < |items| && items[i] == Spawn(e.child)
  {
    if items != [] {
      var pre := items[..|items| - 1];
      SpawnsAreForks(pre, t);
      forall e | e in Spawns(items, t)
        ensures e.Fork? && e.tid == t && exists i :: 0 <= i < |items| && items[i] == Spawn(e.child)
      {
        if e in Spawns(pre, t) {
          var i :| 0 <= i < |pre| && pre[i] == Spawn(e.child);
          assert items[i] == Spawn(e.child);
        } else {
          assert items[|items| - 1] == Spawn(e.child);
        }
      }
    }
  }

  /** Without a creation in between, merging is a replacement inside one segment. */
  lemma WithoutCreateKept(items: seq<Item>, t: Tid, w: bool, k: nat)
    requires k < |items| && NoCreate(items)
    ensures forall pre: Trace, post: Trace ::
              SameVerdict(pre + Separate(items, t, w) + post, pre + Merged(items, t, w, k) + post)
  {
    var s, m := Separate(items, t, w), Merged(items, t, w, k);
    NoSpawns(items[..k], t);
    NoSpawns(items[k + 1..], t);
    assert m == [Access(t, w, AllBytes(items))];
    SameBytesWhenMerged(items, t, w, m);
    assert AccessesOf(s, t) && AccessesOf(m, t);
    AccessesHaveNoSync(s);
    AccessesHaveNoSync(m);
    forall pre: Trace, post: Trace
      ensures SameVerdict(pre + s + post, pre + m + post)
    {
      SyncOnlyConcat(pre, s);
      SyncOnlyConcat(pre, m);
      SyncOnlyConcat(pre + s, post);
      SyncOnlyConcat(pre + m, post);
      forall x, u, v, l
        ensures Covers(pre + s + post, x, u, v, l) <==> Covers(pre + m + post, x, u, v, l)
      {
        MiddleReplaced(pre, s, m, post, t, x, u, v, l);
      }
      RegroupingKeepsVerdict(pre + s + post, pre + m + post);
    }
  }

  lemma SameBytesWhenMerged(items: seq<Item>, t: Tid, w: bool, m: Trace)
    requires m == [Access(t, w, AllBytes(items))]
    ensures SameBytes(Separate(items, t, w), m)
  {
    var s := Separate(items, t, w);
    forall v, x
      ensures Touched(s, v, x) <==> Touched(m, v, x)
    {
      if Touched(s, v, x) {
        var e :| e in s && e.Access? && e.write == v && x in e.bytes;
        assert m[0] in m;
      }
      if Touched(m, v, x) {
        var i :| 0 <= i < |items| && items[i].Report? && x in items[i].bytes;
        assert s[i] in s;
      }
    }
  }

  lemma MiddleReplaced(pre: Trace, s: Trace, m: Trace, post: Trace, t: Tid, x: Byte, u: Tid, w: bool, k: nat)
    requires AccessesOf(s, t) && AccessesOf(m, t) && SameBytes(s, m)
    ensures Covers(pre + s + post, x, u, w, k) <==> Covers(pre + m + post, x, u, w, k)
  {
    AccessesOfOne(s, t, x, u, w, if k < Segment(pre, u) then 0 else k - Segment(pre, u));
    AccessesOfOne(m, t, x, u, w, if k < Segment(pre, u) then 0 else k - Segment(pre, u));
    CoversConcat(pre, s, x, u, w, k);
    CoversConcat(pre, m, x, u, w, k);
    SegmentOfConcat(pre, s, u);
    SegmentOfConcat(pre, m, u);
    CoversConcat(pre + s, post, x, u, w, k);
    CoversConcat(pre + m, post, x, u, w, k);
  }

  lemma {:induction false} AccessesOfOne(a: Trace, t: Tid, x: Byte, u: Tid, w: bool, k: nat)
    requires AccessesOf(a, t)
    ensures Segment(a, u) == 0
    ensures Covers(a, x, u, w, k) <==> u == t && k == 0 && Touched(a, w, x)
  {
    if u == t {
      AccessesStayInSegment(a, x, t, w, k);
    } else if a != [] {
      var pre, e := a[..|a| - 1], a[|a| - 1];
      assert e in a && forall f :: f in pre ==> f in a;
      AccessesOfOne(pre, t, x, u, w, k);
      assert a == pre + [e];
      CoversSnoc(pre, e, x, u, w, k);
    }
  }

  // ---------------------------------------------------------------- a creation in between

  /** What thread t does in a run: accesses and creations only. */
  predicate OnlyForksAndAccesses(mid: Trace, t: Tid) {
    forall i :: 0 <= i < |mid| ==> mid[i].tid == t && (mid[i].Fork? || mid[i].Access?)
  }

  /** How thread t has come to run. */
  function Birth(t: Tid): Trace {
    if t == MAIN then [] else [Fork(MAIN, t)]
  }

  /** An access made after the last creation of thread c is unordered with what c does. */
  lemma AccessAfterFork(mid: Trace, t: Tid, w: bool, c: Tid, x: Byte, a: nat)
    requires OnlyForksAndAccesses(mid, t) && c != t && c != MAIN
    requires a < |mid| && mid[a].Access? && mid[a].write == w && x in mid[a].bytes
    requires forall i :: 0 <= i < |mid| && mid[i].Fork? && mid[i].child == c ==> i < a
    ensures Race(Birth(t) + mid + [Access(c, true, {x})], x, t, w, c, true)
  {
    var d, n := |Birth(t)|, |Birth(t)| + |mid|;
    var tr := Birth(t) + mid + [Access(c, true, {x})];
    assert forall m :: d <= m < n ==> tr[m] == mid[m - d];
    assert !HB(tr, d + a, n) && !HB(tr, n, d + a);
    assert RacePair(tr, d + a, n, x, t, w, c, true);
  }

  /** Accesses made before the creation of thread c are ordered before all that c does. */
  lemma AccessBeforeFork(mid: Trace, t: Tid, w: bool, c: Tid, x: Byte, f: nat)
    requires OnlyForksAndAccesses(mid, t) && c != t
    requires f < |mid| && mid[f] == Fork(t, c)
    requires forall i :: 0 <= i < |mid| && mid[i].Access? && x in mid[i].bytes ==> i < f
    ensures !Race(Birth(t) + mid + [Access(c, true, {x})], x, t, w, c, true)
  {
    var d, n := |Birth(t)|, |Birth(t)| + |mid|;
    var tr := Birth(t) + mid + [Access(c, true, {x})];
    assert forall m :: d <= m < n ==> tr[m] == mid[m - d];
    forall p: nat, q: nat | AccessAt(tr, p, x, t, w) && AccessAt(tr, q, x, c, true)
      ensures q < |tr| && HB(tr, p, q)
    {
      assert q == n;
      assert HB(tr, p, p) && Edge(tr[p], tr[d + f]);
      assert HB(tr, p, d + f) && Edge(tr[d + f], tr[n]);
    }
  }

  lemma MergedShape(items: seq<Item>, t: Tid, w: bool, k: nat)
    requires k < |items|
    ensures var m, a := Merged(items, t, w, k), |Spawns(items[..k], t)|;
            && OnlyForksAndAccesses(m, t) && a < |m| && m[a] == Access(t, w, AllBytes(items))
            && forall i :: 0 <= i < |m| && m[i].Access? ==> i == a
  {
    var m, a := Merged(items, t, w, k), |Spawns(items[..k], t)|;
    SpawnsAreForks(items[..k], t);
    SpawnsAreForks(items[k + 1..], t);
    forall i | 0 <= i < |m| && i != a
      ensures m[i].Fork? && m[i].tid == t
    {
      assert m[i] in if i < a then Spawns(items[..k], t) else Spawns(items[k + 1..], t);
    }
  }

  lemma ReportsBehind(items: seq<Item>, i: nat)
    requires i < |items|
    ensures forall j :: i < j < |items| && items[j].Report? ==> items[j].bytes <= AllBytes(items[i + 1..])
  {
    forall j, x | i < j < |items| && items[j].Report? && x in items[j].bytes
      ensures x in AllBytes(items[i + 1..])
    {
      assert items[i + 1..][j - i - 1] == items[j] && x in items[i + 1..][j - i - 1].bytes;
    }
  }

  /** A created thread races with a call behind its creation, but not with a range call that ran before
      it was created. */
  lemma WithCreateLost(items: seq<Item>, t: Tid, w: bool, k: nat, i: nat, x: Byte)
    requires FreshThreads(items, t) && k < i < |items| && items[i].Spawn? && x in AllBytes(items[i + 1..])
    ensures var c := items[i].child; var post := [Access(c, true, {x})];
            && Race(Birth(t) + Separate(items, t, w) + post, x, t, w, c, true)
            && !Race(Birth(t) + Merged(items, t, w, k) + post, x, t, w, c, true)
  {
    var c := items[i].child;
    var a :| 0 <= a < |items[i + 1..]| && items[i + 1..][a].Report? && x in items[i + 1..][a].bytes;
    AccessAfterFork(Separate(items, t, w), t, w, c, x, i + 1 + a);
    MergedShape(items, t, w, k);
    var f := SpawnIsThere(items[k + 1..], t, i - k - 1);
    AccessBeforeFork(Merged(items, t, w, k), t, w, c, x, |Spawns(items[..k], t)| + 1 + f);
  }

  /** A created thread is ordered behind the calls ahead of its creation, but races with a range call
      that runs after it was created. */
  lemma WithCreateAdded(items: seq<Item>, t: Tid, w: bool, k: nat, i: nat, x: Byte)
    requires FreshThreads(items, t) && i < k < |items| && items[i].Spawn?
    requires x in AllBytes(items) && x !in AllBytes(items[i + 1..])
    ensures var c := items[i].child; var post := [Access(c, true, {x})];
            && !Race(Birth(t) + Separate(items, t, w) + post, x, t, w, c, true)
            && Race(Birth(t) + Merged(items, t, w, k) + post, x, t, w, c, true)
  {
    var c, s, m, a := items[i].child, Separate(items, t, w), Merged(items, t, w, k), |Spawns(items[..k], t)|;
    ReportsBehind(items, i);
    AccessBeforeFork(s, t, w, c, x, i);
    MergedShape(items, t, w, k);
    SpawnsAreForks(items[k + 1..], t);
    assert Fork(t, c) !in Spawns(items[k + 1..], t);
    assert forall j :: a < j < |m| ==> m[j] == Spawns(items[k + 1..], t)[j - a - 1];
    AccessAfterFork(m, t, w, c, x, a);
  }

  lemma BirthIsWellForked(t: Tid)
    ensures WellForked(Birth(t)) && Live(Birth(t), t)
    ensures Forked(Birth(t)) == (if t == MAIN then {} else {t}) && Joined(Birth(t)) == {}
  {
    if t != MAIN {
      EmitExtends([], Fork(MAIN, t));
      assert [] + [Fork(MAIN, t)] == [Fork(MAIN, t)];
    }
  }

  predicate IsSpawned(items: seq<Item>, c: Tid) {
    exists i :: 0 <= i < |items| && items[i] == Spawn(c)
  }

  /** The run itself can happen, and the threads that it creates are then running. */
  lemma {:induction false} RunIsWellForked(items: seq<Item>, t: Tid, w: bool)
    requires FreshThreads(items, t)
    ensures WellForked(Birth(t) + Separate(items, t, w)) && Joined(Birth(t) + Separate(items, t, w)) == {}
    ensures forall c :: c in Forked(Birth(t) + Separate(items, t, w)) <==> IsSpawned(items, c) || (c == t && t != MAIN)
  {
    BirthIsWellForked(t);
    if items == [] {
      assert Birth(t) + Separate(items, t, w) == Birth(t);
    } else {
      var pre, it := items[..|items| - 1], items[|items| - 1];
      var tr := Birth(t) + Separate(pre, t, w);
      RunIsWellForked(pre, t, w);
      EmitExtends(tr, Event(it, t, w));
      assert Birth(t) + Separate(items, t, w) == tr + [Event(it, t, w)];
      forall c
        ensures IsSpawned(items, c) <==> IsSpawned(pre, c) || it == Spawn(c)
      {
        SpawnedSnoc(items, c);
      }
    }
  }

  lemma SpawnedSnoc(items: seq<Item>, c: Tid)
    requires items != []
    ensures IsSpawned(items, c) <==> IsSpawned(items[..|items| - 1], c) || items[|items| - 1] == Spawn(c)
  {
    var pre := items[..|items| - 1];
    if IsSpawned(pre, c) {
      var i :| 0 <= i < |pre| && pre[i] == Spawn(c);
      assert items[i] == Spawn(c);
    }
  }

  // ---------------------------------------------------------------- when a creation does no harm

  /** A creation ahead of the range call does no harm if all bytes are reported again behind it, one
      behind the range call if nothing is reported after it. */
  predicate CreateIsHarmless(items: seq<Item>, k: nat, i: nat)
    requires i < |items|
  {
    items[i].Spawn? ==> if i < k then AllBytes(items) <= AllBytes(items[i + 1..]) else AllBytes(items[i + 1..]) == {}
  }

  predicate CreatesAreHarmless(items: seq<Item>, k: nat) {
    forall i {:trigger CreateIsHarmless(items, k, i)} :: 0 <= i < |items| ==> CreateIsHarmless(items, k, i)
  }

  predicate ReportsSomething(items: seq<Item>) {
    forall i :: 0 <= i < |items| && items[i].Report? ==> items[i].bytes != {}
  }

  lemma {:induction false} SpawnsConcat(a: seq<Item>, b: seq<Item>, t: Tid)
    ensures Spawns(a + b, t) == Spawns(a, t) + Spawns(b, t)
  {
    if b == [] {
      assert a + b == a;
    } else {
      SpawnsConcat(a, b[..|b| - 1], t);
      assert (a + b)[..|a + b| - 1] == a + b[..|b| - 1];
    }
  }

  lemma {:induction false} OnlySpawns(items: seq<Item>, t: Tid, w: bool)
    requires forall i :: 0 <= i < |items| ==> items[i].Spawn?
    ensures Spawns(items, t) == Separate(items, t, w)
  {
    if items != [] {
      OnlySpawns(items[..|items| - 1], t, w);
    }
  }

  /** The positions of the reports, in a trace in which the items begin at n. */
  function ReportsFrom(items: seq<Item>, n: nat): set<nat> {
    set i | 0 <= i < |items| && items[i].Report? :: n + i
  }

  lemma {:induction false} DropReports(pre: Trace, items: seq<Item>, t: Tid, w: bool, drop: set<nat>)
    requires forall i :: |pre| <= i < |pre| + |items| ==> (i in drop <==> items[i - |pre|].Report?)
    requires Dropped(pre, drop) == pre
    ensures Dropped(pre + Separate(items, t, w), drop) == pre + Spawns(items, t)
  {
    var tr := pre + Separate(items, t, w);
    if items == [] {
      assert tr == pre;
    } else {
      var few, it := items[..|items| - 1], items[|items| - 1];
      DropReports(pre, few, t, w, drop);
      assert tr[..|tr| - 1] == pre + Separate(few, t, w);
      assert tr[|tr| - 1] == Event(it, t, w);
    }
  }

  lemma ReportIsRepeated(pre: Trace, items: seq<Item>, t: Tid, w: bool, bytes: set<Byte>, rest: Trace, i: nat)
    requires FreshThreads(items, t) && AllBytes(items) <= bytes && rest != [] && rest[0] == Access(t, w, bytes)
    requires i < |items| && items[i].Report?
    ensures RepeatedBy(pre + Separate(items, t, w) + rest, |pre| + i, |pre| + |items|)
  {
    var s := Separate(items, t, w);
    var tr, n := pre + s + rest, |pre|;
    forall x | x in items[i].bytes
      ensures x in AllBytes(items)
    {
    }
    forall m | n <= m < n + |items|
      ensures tr[m] == Event(items[m - n], t, w)
    {
      assert tr[m] == s[m - n];
    }
  }

  lemma ReportsAreDropped(pre: Trace, items: seq<Item>, t: Tid, w: bool, rest: Trace)
    ensures Dropped(pre + Separate(items, t, w) + rest, ReportsFrom(items, |pre|)) == pre + Spawns(items, t) + rest
  {
    var drop := ReportsFrom(items, |pre|);
    DroppedKeeps([], pre, drop);
    assert [] + pre == pre;
    DropReports(pre, items, t, w, drop);
    DroppedKeeps(pre + Separate(items, t, w), rest, drop);
  }

  /** Calls need not be reported where a later call of the thread reports all their bytes. */
  lemma RepeatedAreDropped(pre: Trace, items: seq<Item>, t: Tid, w: bool, bytes: set<Byte>, rest: Trace)
    requires FreshThreads(items, t) && AllBytes(items) <= bytes && rest != [] && rest[0] == Access(t, w, bytes)
    ensures SameVerdict(pre + Separate(items, t, w) + rest, pre + Spawns(items, t) + rest)
  {
    var tr, drop := pre + Separate(items, t, w) + rest, ReportsFrom(items, |pre|);
    ReportsAreDropped(pre, items, t, w, rest);
    forall j | j in drop
      ensures exists k :: k !in drop && RepeatedBy(tr, j, k)
    {
      ReportIsRepeated(pre, items, t, w, bytes, rest, j - |pre|);
    }
    DroppingRepeatedKeepsVerdict(tr, drop);
  }

  /** The calls around item k between which no thread is created. */
  lemma Around(items: seq<Item>, k: nat) returns (lo: nat, hi: nat)
    requires k < |items| && items[k].Report?
    ensures lo <= k < hi <= |items| && (forall i :: lo <= i < hi ==> items[i].Report?)
    ensures (lo > 0 ==> items[lo - 1].Spawn?) && (hi < |items| ==> items[hi].Spawn?)
  {
    lo, hi := k, k + 1;
    while lo > 0 && items[lo - 1].Report?
      invariant lo <= k && forall i :: lo <= i < hi ==> items[i].Report?
    {
      lo := lo - 1;
    }
    while hi < |items| && items[hi].Report?
      invariant k < hi <= |items| && (forall i :: lo <= i < hi ==> items[i].Report?)
    {
      hi := hi + 1;
    }
  }

  /** Then the calls around the range call report everything, and there are none behind them. */
  lemma AroundReportsAll(items: seq<Item>, k: nat, lo: nat, hi: nat)
    requires CreatesAreHarmless(items, k) && ReportsSomething(items)
    requires lo <= k < hi <= |items| && (lo > 0 ==> items[lo - 1].Spawn?) && (hi < |items| ==> items[hi].Spawn?)
    ensures AllBytes(items[lo..hi]) == AllBytes(items) && forall i :: hi <= i < |items| ==> items[i].Spawn?
  {
    if hi < |items| {
      assert CreateIsHarmless(items, k, hi);
      ReportsBehind(items, hi);
    }
    forall x | x in AllBytes(items)
      ensures x in AllBytes(items[lo..hi])
    {
      assert lo > 0 ==> CreateIsHarmless(items, k, lo - 1);
      assert x in AllBytes(items[lo..]);
      var i :| 0 <= i < |items[lo..]| && items[lo..][i].Report? && x in items[lo..][i].bytes;
      assert items[lo..hi][i] == items[lo..][i];
    }
    forall x | x in AllBytes(items[lo..hi])
      ensures x in AllBytes(items)
    {
      var i :| 0 <= i < hi - lo && items[lo..hi][i].Report? && x in items[lo..hi][i].bytes;
      assert items[lo + i] == items[lo..hi][i];
    }
  }

  lemma HarmlessIsKept(items: seq<Item>, t: Tid, w: bool, k: nat, pre: Trace, post: Trace)
    requires FreshThreads(items, t) && ReportsSomething(items) && k < |items| && items[k].Report?
    requires CreatesAreHarmless(items, k)
    ensures SameVerdict(pre + Separate(items, t, w) + post, pre + Merged(items, t, w, k) + post)
  {
    var lo, hi := Around(items, k);
    AroundReportsAll(items, k, lo, hi);
    SplitSeparate(items, t, w, lo, hi);
    SplitMerged(items, t, w, k, lo, hi);
    var f, m, b := Separate(items[..lo], t, w), Separate(items[lo..hi], t, w), Separate(items[hi..], t, w);
    var a, n := [Access(t, w, AllBytes(items))], Spawns(items[..lo], t);
    MiddleIsMerged(items[lo..hi], t, w, pre + f, b + post);
    assert FreshThreads(items[..lo], t);
    FrontReports(items, lo);
    RepeatedAreDropped(pre, items[..lo], t, w, AllBytes(items), a + (b + post));
    Regroup(pre, f, m, b, post);
    Regroup(pre, f, a, b, post);
    Regroup(pre, n, a, b, post);
  }

  lemma Regroup(a: Trace, b: Trace, c: Trace, d: Trace, e: Trace)
    ensures a + (b + c + d) + e == (a + b) + c + (d + e) == a + b + (c + (d + e))
  {
  }

  lemma FrontReports(items: seq<Item>, lo: nat)
    requires lo <= |items|
    ensures AllBytes(items[..lo]) <= AllBytes(items)
  {
    forall x | x in AllBytes(items[..lo])
      ensures x in AllBytes(items)
    {
      var i :| 0 <= i < lo && items[..lo][i].Report? && x in items[..lo][i].bytes;
      assert items[i] == items[..lo][i];
    }
  }

  lemma MiddleIsMerged(mid: seq<Item>, t: Tid, w: bool, pre: Trace, post: Trace)
    requires mid != [] && NoCreate(mid)
    ensures SameVerdict(pre + Separate(mid, t, w) + post, pre + [Access(t, w, AllBytes(mid))] + post)
  {
    WithoutCreateKept(mid, t, w, 0);
    NoSpawns(mid[..0], t);
    NoSpawns(mid[1..], t);
    assert Merged(mid, t, w, 0) == [Access(t, w, AllBytes(mid))];
  }

  lemma SplitSeparate(items: seq<Item>, t: Tid, w: bool, lo: nat, hi: nat)
    requires lo <= hi <= |items|
    ensures Separate(items, t, w) == Separate(items[..lo], t, w) + Separate(items[lo..hi], t, w) + Separate(items[hi..], t, w)
  {
  }

  lemma SplitMerged(items: seq<Item>, t: Tid, w: bool, k: nat, lo: nat, hi: nat)
    requires lo <= k < hi <= |items| && (forall i :: lo <= i < hi ==> items[i].Report?)
    requires forall i :: hi <= i < |items| ==> items[i].Spawn?
    ensures Merged(items, t, w, k) == Spawns(items[..lo], t) + [Access(t, w, AllBytes(items))] + Separate(items[hi..], t, w)
  {
    assert items[..k] == items[..lo] + items[lo..k];
    assert items[k + 1..] == items[k + 1..hi] + items[hi..];
    NoSpawnsAround(items[..lo], items[lo..k], t);
    NoSpawnsAround(items[k + 1..hi], items[hi..], t);
    OnlySpawns(items[hi..], t, w);
  }

  lemma NoSpawnsAround(a: seq<Item>, b: seq<Item>, t: Tid)
    ensures (forall i :: 0 <= i < |b| ==> b[i].Report?) ==> Spawns(a + b, t) == Spawns(a, t)
    ensures (forall i :: 0 <= i < |a| ==> a[i].Report?) ==> Spawns(a + b, t) == Spawns(b, t)
  {
    SpawnsConcat(a, b, t);
    if forall i :: 0 <= i < |a| ==> a[i].Report? {
      NoSpawns(a, t);
    }
    if forall i :: 0 <= i < |b| ==> b[i].Report? {
      NoSpawns(b, t);
    }
  }

  /** One range call at the place of any of the calls, in place of all of them, keeps every verdict in
      every context exactly when the creations between them do no harm. */
  lemma MergedIsKeptIff(items: seq<Item>, t: Tid, w: bool, k: nat)
    requires FreshThreads(items, t) && ReportsSomething(items) && k < |items| && items[k].Report?
    ensures KeptInEveryContext(items, t, w, k) <==> CreatesAreHarmless(items, k)
  {
    if CreatesAreHarmless(items, k) {
      forall pre: Trace, post: Trace
        ensures SameVerdict(pre + Separate(items, t, w) + post, pre + Merged(items, t, w, k) + post)
      {
        HarmlessIsKept(items, t, w, k, pre, post);
      }
    } else {
      var i :| 0 <= i < |items| && !CreateIsHarmless(items, k, i);
      HarmIsSeen(items, t, w, k, i);
    }
  }

  lemma HarmIsSeen(items: seq<Item>, t: Tid, w: bool, k: nat, i: nat)
    requires FreshThreads(items, t) && k < |items| && items[k].Report? && i < |items| && !CreateIsHarmless(items, k, i)
    ensures !KeptInEveryContext(items, t, w, k)
  {
    var x;
    if i < k {
      x :| x in AllBytes(items) && x !in AllBytes(items[i + 1..]);
      WithCreateAdded(items, t, w, k, i, x);
    } else {
      x := SomeElement(AllBytes(items[i + 1..]));
      WithCreateLost(items, t, w, k, i, x);
    }
    var tr, e := Birth(t) + Separate(items, t, w), Access(items[i].child, true, {x});
    RunIsWellForked(items, t, w);
    assert IsSpawned(items, e.tid);
    EmitExtends(tr, e);
    assert WellForked(tr + [e]);
    assert !SameVerdict(tr + [e], Birth(t) + Merged(items, t, w, k) + [e]);
  }

  lemma FirstIsNotBehind(items: seq<Item>, t: Tid, i: nat, x: Byte)
    requires IsRun(items, t) && i < |items| && x in items[0].bytes
    ensures x !in AllBytes(items[i + 1..])
  {
    var behind := items[i + 1..];
    forall j | 0 <= j < |behind| && behind[j].Report?
      ensures x !in behind[j].bytes
    {
      assert behind[j] == items[i + 1 + j];
    }
  }

  /** Adjacent calls report different bytes: merging them, at whichever place, is right exactly when no
      thread is created between the first and the last. */
  lemma MergeAcrossCreateIff(items: seq<Item>, t: Tid, w: bool, k: nat)
    requires IsRun(items, t) && k < |items| && items[k].Report?
    ensures KeptInEveryContext(items, t, w, k) <==> NoCreate(items)
  {
    MergedIsKeptIff(items, t, w, k);
    forall i | 0 <= i < |items| && items[i].Spawn?
      ensures !CreateIsHarmless(items, k, i)
    {
      ReportsBehind(items, i);
      var x := SomeElement(items[0].bytes);
      var y := SomeElement(items[|items| - 1].bytes);
      FirstIsNotBehind(items, t, i, x);
      assert x in AllBytes(items) && y in AllBytes(items[i + 1..]);
    }
    if NoCreate(items) {
      forall i | 0 <= i < |items|
        ensures CreateIsHarmless(items, k, i)
      {
      }
    } else {
      var i :| 0 <= i < |items| && items[i].Spawn?;
      assert !CreateIsHarmless(items, k, i);
    }
  }

  /** Calls on one pointer. */
  predicate IsRepeat(items: seq<Item>, bytes: set<Byte>, t: Tid) {
    && items != [] && items[0].Report? && items[|items| - 1].Report? && bytes != {} && FreshThreads(items, t)
    && forall i :: 0 <= i < |items| && items[i].Report? ==> items[i].bytes == bytes
  }

  lemma RepeatedBytes(items: seq<Item>, bytes: set<Byte>, t: Tid, i: nat)
    requires IsRepeat(items, bytes, t) && i < |items|
    ensures AllBytes(items[i..]) == bytes
  {
    var last := |items| - 1;
    assert items[i..][last - i] == items[last];
    forall x | x in AllBytes(items[i..])
      ensures x in bytes
    {
      var j :| 0 <= j < |items| - i && items[i..][j].Report? && x in items[i..][j].bytes;
      assert items[i + j] == items[i..][j];
    }
    forall x | x in bytes
      ensures x in AllBytes(items[i..])
    {
      assert x in items[i..][last - i].bytes;
    }
  }

  /** Of several calls on one pointer, keeping only the k-th is right exactly when no thread is created
      between it and the last one. */
  lemma RepeatAcrossCreateIff(items: seq<Item>, bytes: set<Byte>, t: Tid, w: bool, k: nat)
    requires IsRepeat(items, bytes, t) && k < |items| && items[k].Report?
    ensures KeptInEveryContext(items, t, w, k) <==> forall i :: k < i < |items| ==> items[i].Report?
  {
    MergedIsKeptIff(items, t, w, k);
    forall i | 0 <= i < |items|
      ensures CreateIsHarmless(items, k, i) <==> items[i].Report? || i < k
    {
      RepeatedBytes(items, bytes, t, 0);
      assert items[0..] == items;
      if items[i].Spawn? {
        RepeatedBytes(items, bytes, t, i + 1);
      }
    }
    assert forall i :: k < i < |items| && items[i].Spawn? ==> !CreateIsHarmless(items, k, i);
  }
}
