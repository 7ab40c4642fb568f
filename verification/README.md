# Verification of the program-skeleton slicer and its ThreadSanitizer passes

The repository is an LLVM plugin in two parts.  The first part slices a program down to a skeleton that
still makes its observed calls, for instance the instrumentation calls of ThreadSanitizer (TSAN).  The
second part removes or merges TSAN calls.  In both parts correctness means that a smaller program observes
the same things.  This project models the algorithms and proves that, or proves the exact condition under
which it is true.

## The modules

**The detector.** `HappensBefore` defines events of threads, happens-before as a relation, and a
vector-clock machine, and proves that the two agree on every pair of events of every trace.  `Verdict` says
what the detector reports on a trace, and gives the three ways to change the accesses of a trace without
changing that: regrouping accesses inside segments without synchronisation, dropping accesses that take part
in no race, and dropping those that the thread repeats before it is ordered behind anything new.  `Segments`
lifts regrouping to code that is replaced piece by piece; `ForkJoin` and `LockDiscipline` lift dropping to
accesses made while no other thread exists or under one lock.

**The TSAN passes**, each proved against that detector: `TsanCombine` (merging the calls of a basic block),
`ThreadCounter`, `GuardCondition` and `MainCreates` (the guard by a thread counter, when it is right, and how to
read that off a program), `CriticalRegion` and `OutsideRegion` (calls inside critical regions, and outside),
`SequentialRemoval` and `SequentialRun` (functions that OpenMP never runs in parallel), `LoopOptimize` (the
search for calls that may influence happens-before, and the ranges of the loop pass).

**The slicer.** `Program` is a small instruction language with blocks, phis, calls, loads and stores, and its
runs.  `TaintRules` says what a visit of a value finds and what it makes due again, for any order of visits, and
`TaintAnalysis` is the worklist that makes such visits and decides what is included.  `VisitOrder` is about all
orders: what every run ends with, and a condition on the input under which all runs end with the same.
`LateCalls` is about programs that do not meet it, `SingleCall` a family for which the condition is exact, and
`OverlookedCall` a program on which the result depends on the order.  `Pruning` cuts the copies of functions
down to what is included.  `Correspondence` and `SliceSimulation` prove that the pruned program observes the
same calls if its loads read nothing stale; `CallOrder` and `SliceMemory` prove that they do not, because a store
is left out only if no load can come after it; `AnalysedSlice` puts everything together.  `PointerKinds` proves
for objects and pointers into them that the alias classes are right, and `SliceExample` is a program that meets
all conditions.

**The analyses behind it.** `PtrInfo` and `MemberIndex` are the unification-based alias information,
`FunctionAnalysis` the searches over the call graph (exceptions, pointers written), `TemplateNames` the
scanner that strips template arguments.

The objects whose methods update their fields are classes here as well: the window of calls being merged,
the two searches with mutable marks, the analyses and the pointer infos.  Their methods are proved against
specification functions, or against relations between the old and the new state.

## What the proofs say about the code

- The search for a window of TSAN calls does not stop at `pthread_create`, which is on the whitelist of
  `loop_optimize.cpp:385-389`.  Merging calls across a creation loses a race, or adds one, depending on where
  the call on the lowest address stands.  One call in the place of several is right in every context if and only
  if each creation ahead of it has everything reported again behind it, and nothing is reported behind a creation
  after it (`TsanCombine.MergedIsKeptIff`).  For calls on adjacent addresses that means that no thread is created
  between them (`TsanCombine.MergeAcrossCreateIff`); of several calls on one pointer the k-th can be the one that
  is kept exactly if no thread is created behind it (`TsanCombine.RepeatAcrossCreateIff`).
- The comment at `precalculations.cpp:37-39` says that the order of visits should make no difference.  Calls are
  visited again when their function is included (`precalculations.cpp:952-973`) and when it records that it reads
  or writes a new pointer (`precalculation_function_analysis.h:90-107`), but not when a load is found, and the
  call sites of its callers are not visited again either (the remark at `precalculation_function_analysis.cpp:231`).
  A call that is visited before a load that comes after it is found can stay left out although it passes the
  test with what is known at the end (`OverlookedCall.OrderMatters`).  All runs, in whatever order, find the same
  if every call that only its own test includes passes it as soon as its functions are included and have recorded
  their pointers, which is a condition on the rules and the given values (`VisitOrder.TimelyRunsAgree`); in
  particular if no test adds anything to what is found without tests (`VisitOrder.NothingToAdd`).  If a call is
  late, there are two orders with different results (`LateCalls.LateCallIsOverlooked`, and inside one round
  `LateCalls.RoundDecides`); with one call to test the condition is exact (`SingleCall.OrderMakesNoDifferenceIff`).
  Where it holds, slicing is right (`AnalysedSlice.AnalysedSliceIsRight`, `PointerKinds.KindedSliceIsRight`).
- `tsan_combine.cpp:645` is meant to assert that the calls on one pointer have one size, and compares a call
  with itself.  Keeping one of them is right if and only if they do (`TsanCombine.KeepOneIff`).
- The post-dominance clause of `critical_region_cleanup.cpp:87-89` accepts instructions behind a region, and
  pairing a begin with the first end of the same location can pair it with the end of another region
  (`CriticalRegion.ClausesAcceptOutside`).  An instruction is inside on every path if and only if its next
  region event can be an end, or if it is not executed (`CriticalRegion.AlwaysInsideIff`); the dominance
  clause is right for a begin and an end that belong together (`CriticalRegion.ForwardClauseIsInside`), and
  then the whole pass is (`CriticalRegion.RemovedCallsKeepVerdict`).  Removing calls is right in every run if and
  only if each of them is inside on every path (`OutsideRegion.RemovalIsRightIff`).
- The pass for sequential functions puts back the work of `memset` and `memcpy` when it removes their intercepted
  versions, but removes the calls of all other intercepted functions (`openmp_sequential_removal.cpp:133-138`).  A
  function does the same as before if and only if it contains no others (`SequentialRemoval.CleanedDoesTheSameIff`,
  with a lost `memmove` in `SequentialRemoval.MemmoveIsLost`).
- The thread counter counts calls of `pthread_create` with a known callee only.  A program that creates a
  thread through a function pointer loses races (`ThreadCounter.UncountedCreateLosesRace`).  The guard is right
  for every placement of accesses into a program if and only if a zero counter always means that no created
  thread is unjoined (`GuardCondition.GuardIsRightIff`).  If only the main function creates and joins threads, one
  walk through its body decides that (`MainCreates.GuardIsRightByText`).
- The test whether a store comes after all loads passes over call sites that may do both.  It is right if and
  only if no such site lies on a loop (`CallOrder.NeverLoadedIff`, with a program in which it is wrong in
  `CallOrder.LoopReloads`).
- `ptr_info.cpp:358` tests the last index for being non-zero where the comment speaks of a wildcard.  A path
  that ends in a wildcard does not widen a narrower wildcard that is already there
  (`MemberIndex.AddedIsRelevantIff`).  Handing a member over can then lose a path
  (`PtrInfo.WildcardLosesPath`); it is kept if and only if the key that is found is not the narrower one
  (`PtrInfo.PathIsKeptIff`).  Where all indices are known no merge loses a path; that members stay members needs
  no condition.
- The analysis of exceptions never clears functions that call each other in a cycle, although it takes care
  of a function that calls itself (`FunctionAnalysis.MutualRecursionIsNotCleared`).
- A `<` without partner in a function name returns the text before it twice, for instance for the operators
  that the special case at `precalculation_function_analysis.cpp:59-64` is meant for
  (`TemplateNames.StrippedIff`, `TemplateNames.OperatorIsDoubled`).
- The range of a loop chunk reports more than the accesses where accesses of consecutive iterations overlap
  (`LoopOptimize.RangeIsExactIff`).

## Model

| member | source | states |
|---|---|---|
| HappensBefore.ClocksAreExact | use-cases/thread-sanitizer/Readme.md:41-43 | the detector that all passes are measured against: for any two events of any trace, the vector clocks order them exactly when a chain of program order, release-acquire, fork and join edges does |
| HappensBefore.HBTransitive | use-cases/thread-sanitizer/Readme.md:41-43 | happens-before composes, although it is defined by its last edge only |
| HappensBefore.ClocksAreStrict | use-cases/thread-sanitizer/Readme.md:41-43 | in every reachable detector state no thread and no lock knows the current epoch of another thread |
| Verdict.UnorderedIsConcurrent | use-cases/thread-sanitizer/Readme.md:41-43 | two accesses of different threads are unordered exactly when neither clock covers the other, whichever came first in the trace |
| Verdict.RegroupingKeepsVerdict | use-cases/thread-sanitizer/pass/tsan_combine.cpp:740-780 | two traces with the same synchronisation and the same bytes in every segment of every thread have the same racy bytes and thread pairs, under any interleaving |
| Verdict.DroppingKeepsVerdict | use-cases/thread-sanitizer/pass/critical_region_cleanup.cpp:57-63 | leaving out accesses that are ordered with all conflicting ones neither loses nor adds a race, although all later positions shift |
| Verdict.DroppingRepeatedKeepsVerdict | use-cases/thread-sanitizer/pass/tsan_combine.cpp:629-650 | leaving out accesses that their thread repeats later, before it acquires a lock or joins a thread, keeps the verdict, although they may be part of races |
| Segments.RewritingKeepsVerdict | use-cases/thread-sanitizer/pass/tsan_combine.cpp:740-801 | any number of threads may execute rewritten blocks any number of times: if each replaced piece has only accesses and keeps their bytes, the verdict stays |
| TsanCombine.AdjacentIsOneRange | use-cases/thread-sanitizer/pass/tsan_combine.cpp:599-625 | calls that each start where the previous one ends report together one interval, of the sum of their sizes, for all addresses with the known differences |
| TsanCombine.RangeReportsTheSame | use-cases/thread-sanitizer/pass/tsan_combine.cpp:538-557 | replacing such calls by one range call reports the same bytes, for all addresses that respect the known differences |
| TsanCombine.Window.RemoveCalls | use-cases/thread-sanitizer/pass/tsan_combine.cpp:549-556 | no call is removed twice, exactly the given ones go, and the sum that is asserted to be the range length is the sum of their sizes |
| TsanCombine.Window.ReplaceRange | use-cases/thread-sanitizer/pass/tsan_combine.cpp:538-557 | the new window is the old one without the calls and with a range of their total size; it reports the same bytes; the counts of calls fit |
| TsanCombine.Window.Flush | use-cases/thread-sanitizer/pass/tsan_combine.cpp:587-597 | a run of two or more calls is replaced by one range call of their total size, a single call stays, nothing else changes, the reported bytes stay |
| TsanCombine.Window.Visit | use-cases/thread-sanitizer/pass/tsan_combine.cpp:593-625 | the current call joins the pending run exactly if it starts where the run ends; a run that ends is replaced; calls outside the run are untouched |
| TsanCombine.Window.NextPointer | use-cases/thread-sanitizer/pass/tsan_combine.cpp:573-626 | one round of the walk keeps the pending run and the calls ahead of it disjoint and alive, and gives up exactly at pointers without a unique call |
| TsanCombine.Window.RangeReplaceArray | use-cases/thread-sanitizer/pass/tsan_combine.cpp:437-627 | for every order that the sort may produce and every early return the same bytes are reported; with one call on each pointer exactly the calls with an adjacent neighbour are gone, and one range call is added for each maximal run; if nothing is replaced, then the group has no adjacent neighbours or a pointer without a unique call |
| TsanCombine.PathIsRight | use-cases/thread-sanitizer/pass/tsan_combine.cpp:573-626 | along any sequence of visits of the calls, all maximal runs that have ended are replaced, the pending one is maximal so far, and the other calls stay |
| TsanCombine.Window.OneRound | use-cases/thread-sanitizer/pass/tsan_combine.cpp:661-708 | a round that changes something lowers the number of calls; one that does not leaves every group without anything to combine |
| TsanCombine.Window.CombineUntilStable | use-cases/thread-sanitizer/pass/tsan_combine.cpp:790-799 | repeating until nothing changes terminates, reports the same bytes, removes at least two calls for each one it adds, and ends with nothing left to combine |
| TsanCombine.Window.ReplaceSame | use-cases/thread-sanitizer/pass/tsan_combine.cpp:629-650 | of the calls on each pointer exactly one is left, all other calls stay, and each removed call is counted |
| TsanCombine.ThinnedReportsTheSame | use-cases/thread-sanitizer/pass/tsan_combine.cpp:638-648 | if the calls on each pointer have one size, keeping one of them reports the same bytes |
| TsanCombine.KeepOneIff | use-cases/thread-sanitizer/pass/tsan_combine.cpp:638-648 | keeping an arbitrary one of the calls on a pointer is right if and only if they have one size |
| TsanCombine.CombinedWindowIsReplaceable | use-cases/thread-sanitizer/pass/tsan_combine.cpp:740-780 | executing the combined window instead of the original one, with whatever other accesses both execute, is a replacement in the sense of Segments, so the verdict stays |
| TsanCombine.WithoutCreateKept | use-cases/thread-sanitizer/pass/tsan_combine.cpp:749-769 | merging a run of reads or writes with no thread creation in between, at the place of any of its calls, keeps the verdict in every surrounding trace |
| TsanCombine.WithCreateLost | use-cases/thread-sanitizer/pass/loop_optimize.cpp:385-399 | if the range call stands before a creation, the created thread races with any call behind the creation but not with the range call |
| TsanCombine.WithCreateAdded | use-cases/thread-sanitizer/pass/tsan_combine.cpp:538-547 | if the range call stands behind a creation, the created thread races with the range call on bytes that were only reported ahead of the creation, but not with the calls there |
| TsanCombine.MergedIsKeptIff | use-cases/thread-sanitizer/pass/tsan_combine.cpp:749-769 | for calls on any addresses with creations between them: one call with all their bytes, at the place of any of them, keeps the verdict in every surrounding trace if and only if every creation ahead of it is followed by reports of all bytes, and no creation behind it by any report |
| TsanCombine.MergeAcrossCreateIff | use-cases/thread-sanitizer/pass/tsan_combine.cpp:538-547 | for reads and for writes, and wherever in the run the call on the lowest address stands, merging keeps the verdict in every surrounding trace of threads if and only if no thread is created inside the run |
| TsanCombine.RepeatAcrossCreateIff | use-cases/thread-sanitizer/pass/tsan_combine.cpp:629-650 | of several calls on one pointer of one size, keeping only the k-th keeps the verdict in every surrounding trace if and only if no thread is created behind it |
| ForkJoin.SomeoneKnows | use-cases/thread-sanitizer/pass/pthread_mitigation.cpp:66-82 | at any time each past event is known to some thread that has not been joined, through joins by any thread |
| ForkJoin.AloneIsAfterAll | use-cases/thread-sanitizer/pass/pthread_mitigation.cpp:52-58 | an event at a time when every created thread has been joined is one of the main thread and ordered after everything before |
| ForkJoin.AloneIsBeforeAll | use-cases/thread-sanitizer/pass/pthread_mitigation.cpp:52-58 | and it is ordered before everything after it |
| ForkJoin.AloneDropKeepsVerdict | use-cases/thread-sanitizer/pass/pthread_mitigation.cpp:46-64 | skipping accesses made at such times changes no verdict |
| ThreadCounter.CollectParallelCalls | use-cases/thread-sanitizer/pass/pthread_mitigation.cpp:31-44 | exactly the direct calls of thread functions are collected |
| ThreadCounter.WrapParallelCalls | use-cases/thread-sanitizer/pass/pthread_mitigation.cpp:84-96 | the loop over a guarded body gives the wrapped body, whose positions WrappedShape and OnlyCountingIsAdded describe |
| ThreadCounter.WrappedShape | use-cases/thread-sanitizer/pass/pthread_mitigation.cpp:66-96 | in any wrapped body an increment stands before each direct create and nowhere else, a decrement behind each direct join and nowhere else |
| ThreadCounter.OnlyCountingIsAdded | use-cases/thread-sanitizer/pass/pthread_mitigation.cpp:46-96 | without increments and decrements the wrapped body executes the calls of the original one, in order, with the kind and the bytes of each access, and all accesses are guarded |
| ThreadCounter.RunsTheProgram | use-cases/thread-sanitizer/pass/pthread_mitigation.cpp:46-96 | in every run of the wrapped program under every schedule, the events of each thread are those of its calls in the original program, from the first one on, in order |
| ThreadCounter.WrapNonOpenmpTsanCalls | use-cases/thread-sanitizer/pass/pthread_mitigation.cpp:98-142 | all functions are wrapped, or none is changed, depending on whether there is a main function, a thread call and a TSAN access; in both cases the code executes exactly the calls of the program |
| ThreadCounter.ZeroMeansAllJoined | use-cases/thread-sanitizer/pass/pthread_mitigation.cpp:66-82 | if all creations are direct, in every state of every schedule of the wrapped program a zero counter means that every created thread has been joined, with 64-bit wrap-around modelled |
| ThreadCounter.HiddenOnlyWhenAlone | use-cases/thread-sanitizer/pass/pthread_mitigation.cpp:46-64 | if all creations are direct, the guard skips an access only at a time when no created thread is unjoined |
| ThreadCounter.GuardKeepsVerdict | use-cases/thread-sanitizer/pass/pthread_mitigation.cpp:46-96 | if all creations are direct, in every run the guarded program reports the same races as the unguarded one |
| ThreadCounter.UncountedCreateLosesRace | use-cases/thread-sanitizer/pass/pthread_mitigation.cpp:34-37 | a program to which the pass applies and which loses its race, because a thread is created through a pointer |
| GuardCondition.GuardIsRightIff | use-cases/thread-sanitizer/pass/pthread_mitigation.cpp:46-96 | for every program without accesses: the guard keeps the verdict for all ways to put accesses into it and all schedules if and only if a zero counter, seen by a thread where an access can stand, always means that no created thread is unjoined |
| GuardCondition.DirectCreatesSuffice | use-cases/thread-sanitizer/pass/pthread_mitigation.cpp:31-44 | direct creations meet this condition while fewer than 2^64 are in flight |
| GuardCondition.IndirectCreateFails | use-cases/thread-sanitizer/pass/pthread_mitigation.cpp:34-37 | no program meets it whose main function begins by creating a thread through a pointer |
| MainCreates.MainDecidesIff | use-cases/thread-sanitizer/pass/pthread_mitigation.cpp:66-96 | if only the main function creates and joins threads, a zero counter means that no thread is unjoined, under all schedules, if and only if it does so along the code of the main function alone, as far as that can be executed |
| MainCreates.GuardIsRightByText | use-cases/thread-sanitizer/pass/pthread_mitigation.cpp:46-96 | for such programs one walk through the main function decides whether the guard is right for all placements of accesses and all schedules, whether creations are direct or not |
| LockDiscipline.OneHolder | use-cases/thread-sanitizer/pass/critical_region_cleanup.cpp:18-63 | a lock that is acquired only when free has one holder at any time |
| LockDiscipline.GuardedAreOrdered | use-cases/thread-sanitizer/pass/critical_region_cleanup.cpp:18-63 | accesses of two threads that both hold one lock are ordered |
| LockDiscipline.ProtectedDropKeepsVerdict | use-cases/thread-sanitizer/pass/critical_region_cleanup.cpp:57-63 | leaving out accesses to data that one lock always protects changes no verdict, also with a different lock for each variable |
| CriticalRegion.AlwaysInsideIff | use-cases/thread-sanitizer/pass/critical_region_cleanup.cpp:79-92 | if from inside a region an end can always be reached, an instruction is inside on every path if and only if it is unreachable or an end can be reached from it without another begin or end |
| CriticalRegion.ForwardClauseIff | use-cases/thread-sanitizer/pass/critical_region_cleanup.cpp:84-86 | the four dominance tests together mean that begin, instruction and end are different, every path to the instruction passes the begin, and every path to the end passes the instruction |
| CriticalRegion.BackwardClauseIff | use-cases/thread-sanitizer/pass/critical_region_cleanup.cpp:87-89 | the four post-dominance tests mean that the instruction comes after the begin and also after the end on every way to the exit |
| CriticalRegion.ForwardClauseIsInside | use-cases/thread-sanitizer/pass/critical_region_cleanup.cpp:84-86 | the dominance clause, for a begin and an end that belong together, implies that the lock is held on every path |
| CriticalRegion.OnePairIsMatched | use-cases/thread-sanitizer/pass/critical_region_cleanup.cpp:157-168 | a function with a single end of the name has no wrong pair |
| CriticalRegion.ClausesAcceptOutside | use-cases/thread-sanitizer/pass/critical_region_cleanup.cpp:84-89 | a well-formed function whose regions close, and in which the dominance clause with a wrong pair, and the post-dominance clause even with the right pair, accept an access outside |
| CriticalRegion.RemovalKeepsVerdict | use-cases/thread-sanitizer/pass/critical_region_cleanup.cpp:18-63 | if all accesses to a variable are made at sites inside regions of one name, removing them changes no verdict in any run |
| CriticalRegion.PairUp | use-cases/thread-sanitizer/pass/critical_region_cleanup.cpp:157-168 | each begin is paired with the first end of its location in layout order, and with no other |
| CriticalRegion.NamesAround | use-cases/thread-sanitizer/pass/critical_region_cleanup.cpp:183-194 | the names collected for a call are exactly those with a pair that the dominance or post-dominance test puts around it |
| CriticalRegion.GroupTsanToCrit | use-cases/thread-sanitizer/pass/critical_region_cleanup.cpp:94-199 | the map holds exactly the calls with a region that these tests put around them, each with exactly the names of these regions |
| CriticalRegion.RemoveTsanUsagesToVar | use-cases/thread-sanitizer/pass/critical_region_cleanup.cpp:18-63 | the calls on a variable are removed all or none, and exactly if one name is common to all of them |
| CriticalRegion.RemovedCallsKeepVerdict | use-cases/thread-sanitizer/pass/critical_region_cleanup.cpp:18-63 | the whole pass: removing the calls on a variable by the map that the grouping gives changes no verdict in any run, if for one of the names that they have in common begins and ends were paired right and the post-dominance clause was not needed |
| OutsideRegion.RemovalIsRightIff | use-cases/thread-sanitizer/pass/critical_region_cleanup.cpp:18-63 | removing the calls at some sites keeps the verdict in every run in which the regions exclude each other if and only if each site is inside on every path; from a path on which it is outside two threads make a race that is lost |
| SequentialRemoval.Removal.CollectAllParallelFunctions | use-cases/thread-sanitizer/pass/openmp_sequential_removal.cpp:71-120 | the search terminates on every call graph, marks only functions that may run in parallel, and follows completely whatever it newly marks or sees |
| SequentialRemoval.Removal.FollowInstruction | use-cases/thread-sanitizer/pass/openmp_sequential_removal.cpp:97-117 | every function that one call leads to is marked, or seen if no parallel region is involved |
| SequentialRemoval.Removal.FollowArguments | use-cases/thread-sanitizer/pass/openmp_sequential_removal.cpp:106-110 | every function among the arguments of a thread call is followed, as parallel if the OpenMP runtime is called |
| SequentialRemoval.Removal.MarkAll | use-cases/thread-sanitizer/pass/openmp_sequential_removal.cpp:187-193 | the marked set is exactly the set of defined functions to which a chain of calls from a root leads through the OpenMP runtime, although the sets are shared between roots |
| SequentialRemoval.CheckModule | use-cases/thread-sanitizer/pass/openmp_sequential_removal.cpp:39-67 | accepts exactly programs with a main function that use no thread library but OpenMP |
| SequentialRemoval.CollectAndCleanup | use-cases/thread-sanitizer/pass/openmp_sequential_removal.cpp:149-179 | every unmarked function loses its TSAN calls, no other function changes, and each removed call is counted once; a function does what it did before if and only if memset and memcpy are the only intercepted functions in it |
| SequentialRemoval.CleanBody | use-cases/thread-sanitizer/pass/openmp_sequential_removal.cpp:122-177 | no TSAN call is left, and what the body executes, in order and with repetitions, is the same if and only if memset and memcpy are the only intercepted functions |
| SequentialRemoval.CleanedDoesTheSameIff | use-cases/thread-sanitizer/pass/openmp_sequential_removal.cpp:122-147 | the same for the cleaned body as a function of the body: the work of any other intercepted function is lost |
| SequentialRemoval.MemmoveIsLost | use-cases/thread-sanitizer/pass/openmp_sequential_removal.cpp:133-138 | a body with an intercepted memmove, of which nothing is left |
| SequentialRemoval.RemoveAllSingleThreadRegions | use-cases/thread-sanitizer/pass/openmp_sequential_removal.cpp:181-199 | the whole pass: other programs are not changed; in a program that uses OpenMP only, exactly the functions to which no chain of calls leads through the runtime lose their calls |
| SequentialRun.Reachable | use-cases/thread-sanitizer/pass/openmp_sequential_removal.cpp:95-119 | in every reachable state of the machine of call stacks, frames inside regions are functions that may run in parallel, and every unjoined worker is awaited by an older thread |
| SequentialRun.MainIsInRegion | use-cases/thread-sanitizer/pass/openmp_sequential_removal.cpp:78-84 | while any worker is unjoined, even of a nested region, the main thread is inside a region |
| SequentialRun.UnmarkedRunsAlone | use-cases/thread-sanitizer/pass/openmp_sequential_removal.cpp:149-160 | in every reachable state an unmarked function is executed by the main thread only, at a time when all workers have been joined |
| SequentialRun.MarkedMayRunInParallel | use-cases/thread-sanitizer/pass/openmp_sequential_removal.cpp:71-120 | the marks are not too many: for every function that main reaches through the runtime there is a run in which a worker executes it while not all created threads have been joined |
| SequentialRun.QuietIsExact | use-cases/thread-sanitizer/pass/openmp_sequential_removal.cpp:149-179 | the accesses that are no longer reported in a run are exactly those made by a thread while it executes a function that loses its calls |
| SequentialRun.RemovalKeepsVerdict | use-cases/thread-sanitizer/pass/openmp_sequential_removal.cpp:149-193 | removing the calls of unmarked functions changes no verdict in any run |
| CallOrder.GetAllTransitiveInsts | lib/precompute/compiler/precalculations.cpp:2204-2230 | the result is exactly the set of instructions that may, through calls, end up at a given one |
| CallOrder.StoreHappensAfterAllLoads | lib/precompute/compiler/precalculations.cpp:2232-2257 | true exactly if in no function an instruction that may run a load can be reached from a different one that may run the store |
| CallOrder.TwoMoments | lib/precompute/compiler/precalculations.cpp:2204-2257 | of any two moments of a run, either the later stack extends the earlier one, or the stacks share their frames up to one that has moved on inside its function |
| CallOrder.NoLoadAfter | lib/precompute/compiler/precalculations.cpp:2232-2257 | a store that passes the test is never followed by a load in any run, unless a site that may do both can reach itself |
| CallOrder.PathIsRun | lib/precompute/compiler/precalculations.cpp:2250-2252 | in a program graph all of which can be reached and left, every path that the test looks for is part of a run in which a load follows the store, across any chains of calls |
| CallOrder.NeverLoadedIff | lib/precompute/compiler/precalculations.cpp:2241-2256 | in such a graph no load ever follows the store if and only if the test says so and no shared site lies on a loop |
| CallOrder.LoopReloads | lib/precompute/compiler/precalculations.cpp:2244-2247 | such a graph with a call, for which the test says that no load follows, and one does |
| Pruning.FunctionCopy.ReplaceCallsInCopy | lib/precompute/compiler/Precompute_insertion.cpp:318-346 | exactly the included calls change: their included arguments stay at their positions and the others become null |
| Pruning.FunctionCopy.EraseAll | lib/precompute/compiler/Precompute_insertion.cpp:471-495 | erasing the gathered instructions one by one, in any order, erases exactly these; an erased terminator becomes a return of null |
| Pruning.FunctionCopy.PruneFunctionCopy | lib/precompute/compiler/Precompute_insertion.cpp:436-495 | what is erased are exactly the instructions that are not included, except for unconditional branches |
| Pruning.PrunedIsSliced | lib/precompute/compiler/Precompute_insertion.cpp:436-495 | nulling arguments and then erasing gives the block of included instructions, in their order |
| Pruning.SliceCopy | lib/precompute/compiler/Precompute_insertion.cpp:589-598 | the two passes over a copy give the sliced function: the included instructions, and no others, with the arguments of calls as above |
| Correspondence.SliceUsesIncluded | lib/precompute/compiler/Precompute_insertion.cpp:336-346 | if the marks are closed, no phi, instruction or terminator of the slice uses a value whose instruction has been erased |
| Correspondence.SliceIsComplete | lib/precompute/compiler/Precompute_insertion.cpp:436-498 | the slice consists of the copied functions with all their blocks, its calls go to functions of the slice and its branches to blocks of theirs |
| SliceSimulation.DroppedLeadsNowhere | lib/precompute/compiler/Precompute_insertion.cpp:472-483 | from a terminator that is turned into a return no included instruction can be reached, along any path |
| SliceSimulation.InstStep | lib/precompute/compiler/Precompute_insertion.cpp:436-495 | one instruction of the program is matched by one or no step of the slice, with stacks, memory and observed calls in correspondence |
| SliceSimulation.TermStep | lib/precompute/compiler/Precompute_insertion.cpp:472-483 | the same for branches and returns, including the slice returning early |
| SliceSimulation.RunsStayRelated | lib/precompute/compiler/Precompute_insertion.cpp:436-495 | after every finite run of the program there is a run of the slice in a corresponding state |
| SliceSimulation.SliceObservesTheSame | lib/precompute/compiler/Precompute_insertion.cpp:436-498 | if the marks are closed and the slice's loads read nothing stale, each run of the program is matched by one of the slice with the same observed calls and arguments, and the slice ends when the program ends |
| SliceMemory.RunIsWalk | lib/precompute/compiler/precalculations.cpp:2201-2257 | the stacks of every run of the instruction language are a walk of the control-flow graph that the analysis looks at |
| SliceMemory.NoStaleLoad | lib/precompute/compiler/precalculations.cpp:2172-2199 | a load in replicated frames does not follow a store to its class that was left out, also if the store is below a call that was left out |
| SliceMemory.LoadIsFresh | lib/precompute/compiler/precalculations.cpp:2172-2199 | at every moment the next load of the slice reads an address last written by a store that the slice has executed |
| SliceMemory.SliceIsRight | lib/precompute/compiler/precalculations.cpp:2172-2257 | with that, leaving out unimportant stores and calls is not observed |
| TaintAnalysis.PrecalculationAnalysis.InsertFunctionToInclude | lib/precompute/compiler/precalculations.cpp:952-973 | the function and its call sites are added, exactly the call sites are to be visited again, all rules that held still hold, and nothing is added that is not forced |
| TaintAnalysis.PrecalculationAnalysis.IncludeValueInPrecompute | lib/precompute/compiler/precalculations.cpp:1777-1810 | the recursion terminates; afterwards the value, what it needs and the control flow to it are included, transitively, and nothing that is not forced; exactly the new values and the calls of new functions are to be visited again |
| TaintAnalysis.PrecalculationAnalysis.InsertNecessaryControlFlow | lib/precompute/compiler/precalculations.cpp:1984-2039 | the terminators of all predecessors are included, or the function for an entry block |
| TaintAnalysis.PrecalculationAnalysis.InsertTaintedValue | lib/precompute/compiler/precalculations.cpp:1837-1930 | exactly one edge is added; the value is to be visited again if the edge is new, and is included if its user is |
| TaintAnalysis.PrecalculationAnalysis.VisitPointers | lib/precompute/compiler/ptr_info.cpp:408-416 | accesses are recorded with infos and with functions, and infos are merged; visited again are exactly the pointers whose info has recorded more (a new load or a new store) or was merged, the calls of functions that have recorded something new, and what the pointer was followed to |
| TaintAnalysis.PrecalculationAnalysis.VisitStores | lib/precompute/compiler/precalculations.cpp:563-592 | when a pointer is visited, the stores through it are tested against all loads of its class, and the important ones are included, with nothing that is not forced |
| TaintAnalysis.PrecalculationAnalysis.VisitVal | lib/precompute/compiler/precalculations.cpp:406-548 | a visit finds exactly what the rules of the value demand, with the tests of a store and of a call in their own visit; exactly the values for which there is a reason are to be visited again |
| TaintAnalysis.PrecalculationAnalysis.VisitWithStores | lib/precompute/compiler/precalculations.cpp:563-592 | the visit of a pointer visits the stores through it that are due, each by such a step |
| TaintAnalysis.PrecalculationAnalysis.VisitRound | lib/precompute/compiler/precalculations.cpp:283-285 | a round visits each value that was due at its beginning, in any order, and apart from these only stores of visited pointers |
| TaintAnalysis.PrecalculationAnalysis.FindAllTaintedVals | lib/precompute/compiler/precalculations.cpp:267-286 | the worklist terminates, although classes of pointers grow and values are visited again for all reasons that the source has, and what it does is a complete sequence of rounds |
| TaintAnalysis.PrecalculationAnalysis.Analyze | lib/precompute/compiler/precalculations.cpp:216-254 | the analysis includes the given values and functions with all that this entails, and no more, and then makes a complete sequence of rounds |
| TaintRules.RoundProgress | lib/precompute/compiler/precalculations.cpp:267-286 | a round that finds nothing new leaves fewer values due, which is why the worklist ends |
| VisitOrder.OutcomeIsClosed | lib/precompute/compiler/precalculations.cpp:267-286 | every complete sequence of visits, in any order, in which at least the reasons of Must lead to new visits and whatever else is visited again, ends with facts that meet all rules but the test of calls, for the loads and aliases known at the end; they lie between what is found without tests of calls and what is found with all of them |
| VisitOrder.LeastIsClosed | lib/precompute/compiler/precalculations.cpp:267-286 | for any sets of visited values and tested calls the facts that all closed ones have in common are closed themselves, so there are least ones |
| VisitOrder.TimelyRunsAgree | lib/precompute/compiler/precalculations.cpp:37-39 | if every call that is included only by its test passes it once its functions are included and have recorded their pointers, whichever values have been visited, then all complete runs in all orders find the same, and none overlooks a call |
| VisitOrder.NothingToAdd | lib/precompute/compiler/precalculations.cpp:37-39 | this holds in particular if no call passes the test with what is found without tests of calls |
| LateCalls.LateCallIsOverlooked | lib/precompute/compiler/precalculations.cpp:1241-1311 | if some values can be visited so that the test of a call fails with them, nothing found later is a reason to visit it again, and the test passes with the rest, then there are two complete runs, one that includes the call and one that does not |
| LateCalls.RoundDecides | lib/precompute/compiler/precalculations.cpp:267-286 | the same inside the rounds of the worklist: if that is so for the values due in one round, the order of this round decides whether the call is included |
| SingleCall.OrderMakesNoDifferenceIff | lib/precompute/compiler/precalculations.cpp:37-39 | for programs with one call to test: all complete runs find the same if and only if the call is included anyway, or never passes the test, or is timely |
| OverlookedCall.OrderMatters | lib/precompute/compiler/precalculations.cpp:1241-1311 | two sequences of rounds on one program with different results: a call that is visited before a later load in the same round stays left out, although it passes the test at the end and calls are visited again when their function records a store |
| AnalysedSlice.AnalysisIsClosed | lib/precompute/compiler/precalculations.cpp:1777-2039 | what the worklist ends with meets every closure condition that the simulation needs |
| AnalysedSlice.LeftOutIsUnimportant | lib/precompute/compiler/precalculations.cpp:326-353 | a store, or a call that the test would not include at the end, that is not included comes after all loads of its class that are known at the end, also those found, or found to be aliases, after its last visit |
| AnalysedSlice.ChainIsUnimportant | lib/precompute/compiler/precalculations.cpp:952-973 | along every chain of calls that leads to a store, each call is included or after all loads: an included callee has its calls tested, and a call of something unimportant is unimportant |
| AnalysedSlice.DropsAreOk | lib/precompute/compiler/precalculations.cpp:1339-1374 | all that is left out passes the test for stores, with the loads and aliases known at the end |
| AnalysedSlice.AnalysedSliceIsRight | lib/precompute/compiler/precalculations.cpp:216-254 | end to end, from conditions on the program, the rules and the given values only: after any complete run of the analysis, in any order, slicing with what it found preserves the sequence of observed calls and arguments of every run of the program |
| PointerKinds.RunFits | lib/precompute/compiler/ptr_info.cpp:24-53 | if values keep their alias class wherever they flow, through registers, calls, phis and memory, then in every run every pointer points into an object of its class |
| PointerKinds.KindedRespects | lib/precompute/compiler/ptr_info.cpp:57-176 | so loads and stores of different classes touch different memory, in every run in which pointers stay in their objects and null is not dereferenced |
| PointerKinds.KindedSliceIsRight | lib/precompute/compiler/precalculations.cpp:216-254 | end to end with the soundness of the classes proved: slicing preserves what is observed |
| SliceExample.ExampleIsSliced | lib/precompute/compiler/Precompute_insertion.cpp:436-498 | a program with two functions for which all conditions of this hold together: a call, a store in the callee and a load are kept, another store is dropped |
| MemberIndex.IsMemberMatching | lib/precompute/compiler/ptr_info.cpp:198-220 | symmetric in its arguments, with missing indices read as zero |
| MemberIndex.MatchingIff | lib/precompute/compiler/ptr_info.cpp:198-220 | two paths match if and only if some member is named by both |
| MemberIndex.Nested | lib/precompute/compiler/ptr_info.cpp:198-220 | of two paths that match, one names all members that the other names |
| MemberIndex.AddKeepsDisjoint | lib/precompute/compiler/ptr_info.cpp:350-395 | the keys of a member map stay pairwise without a common member |
| MemberIndex.RelevantGrows | lib/precompute/compiler/ptr_info.cpp:350-395 | no member that was relevant ceases to be when a path is added |
| MemberIndex.AddedIsRelevantIff | lib/precompute/compiler/ptr_info.cpp:357-395 | the members of the added path are relevant afterwards if and only if it does not meet a longer wildcard path |
| MemberIndex.LostPath | lib/precompute/compiler/ptr_info.cpp:357-395 | in that case some single member of the added path is named by no key |
| PtrInfo.PtrUsageInfo.Resolve | lib/precompute/compiler/ptr_info.cpp:600-616 | following the forwarding pointers ends, at the live info of the class |
| PtrInfo.PtrUsageInfo.SetIsUsedDirectly | lib/precompute/compiler/ptr_info.cpp:24-53 | afterwards the info points to the given one, merged with an earlier target; all aliases, flags, targets and members known before stay known; nothing is assumed that is not forced |
| PtrInfo.PtrUsageInfo.MergeWith | lib/precompute/compiler/ptr_info.cpp:57-176 | the mutual recursion terminates, forwarding stays acyclic, both infos are the same afterwards, nothing known is lost, and every division into classes that explains the state before, and has both in one class, explains the state after; if nothing is known behind the merged pointer, it only forwards |
| PtrInfo.PtrUsageInfo.MergeRoots | lib/precompute/compiler/ptr_info.cpp:78-175 | the same for two live infos, also when the recursion merges away the one that is being worked on |
| PtrInfo.PtrUsageInfo.Absorb | lib/precompute/compiler/ptr_info.cpp:87-128 | exactly one class is redirected to the other, flags and accesses are united, nothing else changes, and there is one live info less |
| PtrInfo.PtrUsageInfo.HandOverTargets | lib/precompute/compiler/ptr_info.cpp:135-169 | the target and the members of the merged info become those of the class, wherever that is by then |
| PtrInfo.PtrUsageInfo.HandOverMembers | lib/precompute/compiler/ptr_info.cpp:139-169 | every member is handed over, under its path if all indices are known, and members handed over earlier stay |
| PtrInfo.PtrUsageInfo.FindInfoForGepIdx | lib/precompute/compiler/ptr_info.cpp:465-479 | finds a key that matches if and only if there is one |
| PtrInfo.PtrUsageInfo.AddImportantMember | lib/precompute/compiler/ptr_info.cpp:222-256 | the result is a member afterwards, or merged with the info where derived pointers are relevant; nothing known is lost and nothing is assumed that is not forced |
| PtrInfo.PtrUsageInfo.AddImportantMemberAt | lib/precompute/compiler/ptr_info.cpp:332-406 | the result is a member, merged with what was there; the keys stay disjoint; nothing known is lost and nothing is assumed that is not forced; as long as the merged members have none themselves, the new map is known exactly |
| PtrInfo.PtrUsageInfo.MergeAtKey | lib/precompute/compiler/ptr_info.cpp:389-394 | the keys stay and the result is merged with the member at the key that was found |
| PtrInfo.PathIsKeptIff | lib/precompute/compiler/ptr_info.cpp:357-395 | a path that is handed over names the member afterwards if and only if the key that was found is not a longer path that ends in a wildcard like the new one |
| PtrInfo.WildcardLosesPath | lib/precompute/compiler/ptr_info.cpp:357-395 | an info with a member at [0, *] gets one at [*]: it is a member afterwards, but the path [5] does not lead to it |
| PtrInfo.PtrUsageInfo.Replace | lib/precompute/compiler/ptr_info.cpp:363-387 | all matching members are replaced by one entry and merged with it |
| PtrInfo.PtrUsageInfo.SetDerivedPtrIsRelevant | lib/precompute/compiler/ptr_info.cpp:418-451 | the target and all members have become aliases of the info itself; nothing is assumed that is not forced |
| PtrInfo.PtrUsageInfo.SetIsAccessed | lib/precompute/compiler/ptr_info.cpp:540-591 | the flag is set, the access and the calls that lead to it are registered with the class; nothing else changes; for every info the flags say whether there are loads and stores, which all operations keep |
| PtrInfo.RegisteredIsExact | lib/precompute/compiler/ptr_info.cpp:552-563 | the registered accesses stay closed under callers, and are exactly the old ones and all calls that may lead to the new one |
| PtrInfo.MergeGrows | lib/precompute/compiler/ptr_info.cpp:57-176 | absorbing one class and handing over what it points to keeps all aliases, flags, targets and members |
| PtrInfo.MergeKeepsPaths | lib/precompute/compiler/ptr_info.cpp:139-169 | and all paths of members, where all indices are known |
| PtrInfo.EditGrows | lib/precompute/compiler/ptr_info.cpp:363-387 | replacing matching members by one that they are merged with loses no member |
| PtrInfo.TargetsAreMerged | lib/precompute/compiler/ptr_info.cpp:135-138 | if two infos are the same, so are the infos they pointed to before |
| PtrInfo.MembersAreMerged | lib/precompute/compiler/ptr_info.cpp:142-169 | and their members at the same constant path, unless one is an alias of the infos themselves |
| PtrInfo.AliasesAreExplained | lib/precompute/compiler/ptr_info.cpp:600-616 | infos that compare equal are in one class of every division that explains what is known, so no two infos alias without a reason |
| FunctionAnalysis.ExceptionAnalysis.AnalyzeCanExcept | lib/precompute/compiler/precalculation_function_analysis.cpp:158-228 | terminates although functions are analysed repeatedly; a cleared function is never un-cleared; the assertion at line 212 holds; the verdict is exact wherever the search started |
| FunctionAnalysis.ExceptionAnalysis.AnalyzeTargets | lib/precompute/compiler/precalculation_function_analysis.cpp:201-219 | stops exactly if the function cannot be cleared, also when the callee is still being analysed |
| FunctionAnalysis.ExceptionAnalysis.AnalyzeFunctions | lib/precompute/compiler/precalculations.cpp:131-133 | in whatever order functions are analysed, exactly those that cannot throw are cleared |
| FunctionAnalysis.NoThrowIff | lib/precompute/compiler/precalculation_function_analysis.cpp:158-228 | a function is cleared within n calls if and only if every chain of calls to other functions ends within n and meets no unknown function |
| FunctionAnalysis.CycleIsNotCleared | lib/precompute/compiler/precalculation_function_analysis.cpp:206-218 | two functions that need each other are never cleared |
| FunctionAnalysis.MutualRecursionIsNotCleared | lib/precompute/compiler/precalculation_function_analysis.cpp:206-218 | two functions that do nothing but call each other are taken to throw |
| FunctionAnalysis.Collector.Visit | lib/precompute/compiler/precalculation_function_analysis.cpp:269-285 | what has been collected belongs to visited functions, and all targets of all calls of newly visited ones have been visited |
| FunctionAnalysis.GetPtrWrittenRecursive | lib/precompute/compiler/precalculation_function_analysis.cpp:287-294 | a pointer is in the result if and only if some chain of calls leads to a function with a body that writes it, on cyclic call graphs as well |
| TemplateNames.GetNameWithoutTemplates | lib/precompute/compiler/precalculation_function_analysis.cpp:33-71 | the restarting scan terminates on every string, and equals a recursive reading of the string |
| TemplateNames.CutIsBalanced | lib/precompute/compiler/precalculation_function_analysis.cpp:41-58 | what is cut out with a bracket is the shortest piece with as many closing as opening brackets; if there is no such piece nothing is cut out |
| TemplateNames.StrippedIff | lib/precompute/compiler/precalculation_function_analysis.cpp:58-68 | the result is the text outside matched brackets if and only if each bracket without partner is met with no text pending |
| TemplateNames.AllMatchedIff | lib/precompute/compiler/precalculation_function_analysis.cpp:58-68 | every bracket has a partner if and only if none is left after cutting |
| TemplateNames.Idempotent | lib/precompute/compiler/precalculation_function_analysis.cpp:32-71 | if every bracket has a partner, a second application changes nothing |
| TemplateNames.OperatorIsDoubled | lib/precompute/compiler/precalculation_function_analysis.cpp:59-64 | a name that is returned twice |
| LoopOptimize.Search.FunctionMightInfluence | use-cases/thread-sanitizer/pass/loop_optimize.cpp:401-413 | a negative answer for a function that is still being visited is made good by the search that visits it |
| LoopOptimize.Search.InstructionMightInfluence | use-cases/thread-sanitizer/pass/loop_optimize.cpp:415-432 | the same for the possible targets of one instruction |
| LoopOptimize.MightInfluenceHappensBefore | use-cases/thread-sanitizer/pass/loop_optimize.cpp:391-432 | true if and only if the instruction may execute, through any chain of calls, a thread function that is not whitelisted |
| LoopOptimize.CreationIsOnList | use-cases/thread-sanitizer/pass/loop_optimize.cpp:385-399 | of the functions that order events, the one that creates threads is on the list, those that join, lock and unlock are not |
| LoopOptimize.ChunkIsInterval | use-cases/thread-sanitizer/pass/loop_optimize.cpp:305-332 | the accesses of a chunk fill an interval without gaps, for either sign of the step |
| LoopOptimize.RangeCovers | use-cases/thread-sanitizer/pass/loop_optimize.cpp:215-223 | the range covers every access of the chunk, and beyond them exactly the last (chunk - 1) * (size - step width) bytes |
| LoopOptimize.RangeIsGivenIff | use-cases/thread-sanitizer/pass/loop_optimize.cpp:308-311 | for all steps and sizes: a range is given exactly if the accesses of consecutive iterations leave no gap, and then it covers every iteration |
| LoopOptimize.RangeIsExactIff | use-cases/thread-sanitizer/pass/loop_optimize.cpp:305-332 | the range reports exactly the accesses if and only if the chunk is one iteration or the step width is the size |

## Left out

Contracts that say less than the source does or promises:

- ClocksAreExact: an ideal detector, without the bounded history of accesses that TSAN keeps.
- HBTransitive: the same ideal detector.
- ClocksAreStrict: the same ideal detector.
- UnorderedIsConcurrent: the same ideal detector.
- RangeReplaceArray: the filters by alignment and by the shape of the address computation decide only which pointers are grouped, and the groups are arbitrary here; 32-bit overflow of the accumulated size and wrap-around of addresses are not modelled.
- CombineUntilStable: runs one window to its end, while the source interleaves the rounds of all windows of a block; the struct variant is not modelled, because its bookkeeping keeps neither the covered bytes nor a superset.
- CombinedWindowIsReplaceable: what a window executes besides the calls is given as a set of accesses that both versions make.
- WrapParallelCalls: the result is named by the function Wrapped; WrappedShape, OnlyCountingIsAdded and RunsTheProgram say what that is.
- ZeroMeansAllJoined: for programs in which every creation is direct; GuardIsRightIff is about all programs.
- HiddenOnlyWhenAlone: for programs in which every creation is direct; GuardIsRightIff is about all programs.
- GuardKeepsVerdict: for programs in which every creation is direct and fewer than 2^64 creations are in flight; GuardIsRightIff is about all programs.
- AlwaysInsideIff: in functions in which an end can be reached from inside a region; where a region never ends, an access in it is inside but has no end ahead.
- ForwardClauseIsInside: for a begin and an end that belong together; for other pairs the promise is false (ClausesAcceptOutside).
- RemovalKeepsVerdict: in CriticalRegion, accesses through derived pointers that are not users of the variable are assumed to be at sites inside the regions, which the pass does not look at.
- RemovedCallsKeepVerdict: for pairs of one common name that belong together, and without the post-dominance clause; otherwise the promise is false (ClausesAcceptOutside).
- RemoveTsanUsagesToVar: an intercepted memory function that uses the variable is removed with its work, which is not modelled here; MemmoveIsLost shows the same for the other pass.
- MarkedMayRunInParallel: for functions that are reached from main; a function that is reached only from functions that are never called is marked, too.
- PathIsRun: needs that functions are started, instructions reached and functions left; NoLoadAfter does not.
- NeverLoadedIff: the direction that finds a run needs that functions are started, instructions reached and functions left; NoLoadAfter does not.
- ReplaceCallsInCopy: redirecting callees to their copies and replacing allocations are not modelled.
- SliceCopy: merging blocks and removing unreachable ones afterwards, copies of callees that are not copied, and the replacement of allocations are not modelled.
- LoadIsFresh: that accesses of different classes touch different memory is the hypothesis Respects; KindedRespects proves it for programs whose classes follow the flow of pointers.
- SliceIsRight: the same hypothesis.
- InsertFunctionToInclude: the functions all of whose call sites are included are given to the analysis, closed under callers, instead of being spread in passing.
- InsertNecessaryControlFlow: invokes and the paths of exceptions are not modelled.
- InsertTaintedValue: the reversed direction, in which a use of a pointer is tainted but not needed, is part of VisitPointers and records no edge.
- VisitPointers: which pointers share an info after a merge is a monotone relation here, and PtrInfo says what merging does; the source visits nothing again if a merge adds nothing to the receiving side, and a function that has recorded an alias of a pointer does not record it again. That is covered by OutcomeIsClosed, TimelyRunsAgree and AnalysedSliceIsRight, which ask for the reasons of Must only.
- VisitStores: a store that is due is visited after its pointer, from VisitWithStores, and not between the tests of two stores.
- VisitVal: the kinds of instructions differ only in the operands they demand and the pointers they concern; what a pointer is followed to does not depend on its class; whether a call's result is needed is read from the edges of the needs relation; values that are given for control flow only are visited like all others, while the source marks them as visited (`precalculations.cpp:240`).
- OutcomeIsClosed: without the test of calls, for which the promise is false without a condition (OrderMatters, TimelyRunsAgree).
- LeftOutIsUnimportant: of facts in which no call is overlooked; TimelyRunsAgree says when a run ends with such facts.
- AnalysedSliceIsRight: for every run of the program there is a run of the slice, so a slice may go on where the program loops forever in code that was removed; needs that the calls are timely, that no dropped store shares a site on a loop with a load (NeverLoadedIff), that functions have no unreachable blocks, and that the classes are right (Respects, which KindedSliceIsRight replaces).
- TimelyRunsAgree: sufficient in general; that it is exact is proved for programs with one call to test (OrderMakesNoDifferenceIff) and, for late calls, by two orders (LateCallIsOverlooked).
- LateCallIsOverlooked: the two runs visit again for exactly the reasons of Again; RoundDecides makes such runs in rounds.
- KindedRespects: the rules of the analysis are tied to the program by the numbering of the classes only; that the merging of infos yields a flow of classes like this is not derived from PtrInfo.
- KindedSliceIsRight: the same, and the conditions of AnalysedSliceIsRight.
- IsMemberMatching: the narrowing of one index to 32 bits is not modelled, so indices are 0 to 2^32 - 1.
- HandOverMembers: paths are kept where all indices are constant; otherwise PathIsKeptIff says which are, one member at a time.
- AddImportantMember: without the type of the access path and the padding that reconciles two types, and with a result that is not null.
- AddImportantMemberAt: the exact map is stated as long as the members that are merged have no members and targets themselves; otherwise only that members stay members, and keep their paths where all indices are constant.
- PathIsKeptIff: for one member that is handed over, before further merges.
- MergeKeepsPaths: for heaps in which every index is constant; otherwise the promise is false (WildcardLosesPath).
- MembersAreMerged: for heaps in which every index is constant.
- MergeWith: the flag for called pointers is left out, which is not handed over by a merge in the source either; so are the types of access paths; what is visited again is part of VisitPointers.
- MergeRoots: the same.

Parts of the repository that are not modelled:

- LLVM itself: dominators are path definitions, reachability and constant differences are arbitrary oracles, sorting is an arbitrary order.
- Invokes, landing pads and C++ exceptions in the slice, variadic functions, aggregates in registers, MPI handling and OpenMP regions in the slice.
- Indirect calls in the slice; in the other analyses a call has a set of possible targets.
- Casts of integers to pointers, and pointer arithmetic that leaves its object.
- Weak memory, the bounded access history of TSAN, failed creations and joins, detached threads.
- The run-once flag of the loop pass and its hoisting of invariant calls, so that nothing is claimed for the loop pass as a whole.
- Devirtualisation, virtual tables, the runtime library, the lists of library functions, the compiler wrapper and all scripts: they would add no hard property.
