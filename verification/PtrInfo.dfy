/**
Alias information of pointers.  Infos of pointers that may alias are merged: one of them forwards
to the other from then on.  What the merged infos point to is merged as well, and that may merge
away the very object that is being worked on.
*/
module PtrInfo {
  import opened MemberIndex
  import opened FiniteSets

  type Site = nat

  datatype Flags = Flags(usedDirectly: bool, readFrom: bool, writtenTo: bool, wholeRelevant: bool, derivedRelevant: bool,
                         loads: set<Site>, stores: set<Site>)

  const NO_FLAGS := Flags(false, false, false, false, false, {}, {})

  // ---------------------------------------------------------------- what infos mean

  /** An info: the one it is forwarded to in the end, and its contents if that is itself. */
  datatype View = View(root: PtrUsageInfo, flags: Flags, direct: PtrUsageInfo?, members: map<Path, PtrUsageInfo>)

  type Heap = map<PtrUsageInfo, View>

  ghost function Root(s: Heap, o: PtrUsageInfo): PtrUsageInfo {
    if o in s then s[o].root else o
  }

  ghost function DirectOf(s: Heap, o: PtrUsageInfo): PtrUsageInfo? {
    if Root(s, o) in s then s[Root(s, o)].direct else null
  }

  ghost function MembersOf(s: Heap, o: PtrUsageInfo): map<Path, PtrUsageInfo> {
    if Root(s, o) in s then s[Root(s, o)].members else map[]
  }

  ghost function FlagsOf(s: Heap, o: PtrUsageInfo): Flags {
    if Root(s, o) in s then s[Root(s, o)].flags else NO_FLAGS
  }

  ghost predicate Same(s: Heap, o: PtrUsageInfo, p: PtrUsageInfo) {
    Root(s, o) == Root(s, p)
  }

  /** What o points to directly aliases d. */
  ghost predicate PointsTo(s: Heap, o: PtrUsageInfo, d: PtrUsageInfo) {
    var x := DirectOf(s, o); x != null && Same(s, x, d)
  }

  /** Some member of o aliases m, or m has become an alias of o itself. */
  ghost predicate HasMember(s: Heap, o: PtrUsageInfo, m: PtrUsageInfo) {
    Same(s, o, m) || exists k :: k in MembersOf(s, o) && Same(s, MembersOf(s, o)[k], m)
  }

  /** The member of o at path k aliases m, or m has become an alias of o itself. */
  ghost predicate HasMemberAt(s: Heap, o: PtrUsageInfo, k: Path, m: PtrUsageInfo) {
    Same(s, o, m) || exists l :: l in MembersOf(s, o) && MatchFrom(l, k, 0) && Same(s, MembersOf(s, o)[l], m)
  }

  ghost predicate OnlyConstant(members: map<Path, PtrUsageInfo>) {
    forall k :: k in members ==> WILDCARD !in k
  }

  /** All indices are known. */
  ghost predicate Constant(s: Heap) {
    forall o {:trigger OnlyConstant(s[o].members)} :: o in s ==> OnlyConstant(s[o].members)
  }

  // ---------------------------------------------------------------- what is kept

  ghost predicate StaysAlias(s: Heap, t: Heap, o: PtrUsageInfo, p: PtrUsageInfo) {
    Same(s, o, p) ==> Same(t, o, p)
  }

  predicate FlagsKept(a: Flags, b: Flags) {
    && (a.usedDirectly ==> b.usedDirectly) && (a.readFrom ==> b.readFrom) && (a.writtenTo ==> b.writtenTo)
    && (a.wholeRelevant ==> b.wholeRelevant) && (a.derivedRelevant ==> b.derivedRelevant)
    && a.loads <= b.loads && a.stores <= b.stores
  }

  ghost predicate StaysFlagged(s: Heap, t: Heap, o: PtrUsageInfo) {
    FlagsKept(FlagsOf(s, o), FlagsOf(t, o)) && (Root(t, o) == o ==> Root(s, o) == o)
  }

  ghost predicate StaysTarget(s: Heap, t: Heap, o: PtrUsageInfo, d: PtrUsageInfo) {
    PointsTo(s, o, d) ==> PointsTo(t, o, d)
  }

  ghost predicate StaysMember(s: Heap, t: Heap, o: PtrUsageInfo, m: PtrUsageInfo) {
    HasMember(s, o, m) ==> HasMember(t, o, m)
  }

  ghost predicate StaysMemberAt(s: Heap, t: Heap, o: PtrUsageInfo, k: Path, m: PtrUsageInfo) {
    HasMemberAt(s, o, k, m) ==> HasMemberAt(t, o, k, m)
  }

  /** What is known about aliases, flags, targets and members stays known; no root comes into being. */
  ghost predicate Grown(s: Heap, t: Heap) {
    && s.Keys == t.Keys
    && (forall o, p {:trigger StaysAlias(s, t, o, p)} :: o in s && p in s ==> StaysAlias(s, t, o, p))
    && (forall o {:trigger StaysFlagged(s, t, o)} :: o in s ==> StaysFlagged(s, t, o))
    && (forall o, d {:trigger StaysTarget(s, t, o, d)} :: o in s && d in s ==> StaysTarget(s, t, o, d))
    && (forall o, m {:trigger StaysMember(s, t, o, m)} :: o in s && m in s ==> StaysMember(s, t, o, m))
  }

  /** With known indices the members also keep their paths. */
  ghost predicate PathsKept(s: Heap, t: Heap) {
    Constant(s) ==>
      Constant(t) &&
      forall o, k, m {:trigger StaysMemberAt(s, t, o, k, m)} :: o in s && m in s ==> StaysMemberAt(s, t, o, k, m)
  }

  lemma GrownTransitive(s: Heap, t: Heap, u: Heap)
    requires Grown(s, t) && Grown(t, u)
    ensures Grown(s, u)
  {
    forall o, p | o in s && p in s
      ensures StaysAlias(s, u, o, p) && StaysTarget(s, u, o, p) && StaysMember(s, u, o, p)
    {
      assert StaysAlias(s, t, o, p) && StaysTarget(s, t, o, p) && StaysMember(s, t, o, p);
      assert StaysAlias(t, u, o, p) && StaysTarget(t, u, o, p) && StaysMember(t, u, o, p);
    }
    forall o | o in s
      ensures StaysFlagged(s, u, o)
    {
      assert StaysFlagged(s, t, o) && StaysFlagged(t, u, o);
    }
  }

  lemma PathsTransitive(s: Heap, t: Heap, u: Heap)
    requires s.Keys == t.Keys && PathsKept(s, t) && PathsKept(t, u)
    ensures PathsKept(s, u)
  {
    if Constant(s) {
      forall o, k, m | o in s && m in s
        ensures StaysMemberAt(s, u, o, k, m)
      {
        assert StaysMemberAt(s, t, o, k, m) && StaysMemberAt(t, u, o, k, m);
      }
    }
  }

  lemma SameMember(t: Heap, o: PtrUsageInfo, x: PtrUsageInfo, p: PtrUsageInfo, m: PtrUsageInfo)
    requires Same(t, o, p) && Same(t, x, m)
    ensures HasMember(t, o, x) ==> HasMember(t, p, m)
    ensures forall k :: HasMemberAt(t, o, k, x) ==> HasMemberAt(t, p, k, m)
  {
    assert MembersOf(t, o) == MembersOf(t, p);
    if HasMember(t, o, x) && !Same(t, o, x) {
      var k :| k in MembersOf(t, o) && Same(t, MembersOf(t, o)[k], x);
      assert k in MembersOf(t, p) && Same(t, MembersOf(t, p)[k], m);
    }
  }

  ghost predicate InsideAt(s: Heap, o: PtrUsageInfo)
    requires o in s
  {
    && s[o].root in s && s[s[o].root].root == s[o].root
    && (s[o].direct != null ==> s[o].direct in s)
    && (forall k :: k in s[o].members ==> s[o].members[k] in s)
  }

  ghost predicate Inside(s: Heap) {
    forall o {:trigger InsideAt(s, o)} :: o in s ==> InsideAt(s, o)
  }

  /** The target and the members of o have become aliases of o. */
  ghost predicate Collapsed(s: Heap, t: Heap, o: PtrUsageInfo) {
    && (DirectOf(s, o) != null ==> Same(t, o, DirectOf(s, o)))
    && (forall k :: k in MembersOf(s, o) ==> Same(t, o, MembersOf(s, o)[k]))
  }

  lemma CollapsedSame(s: Heap, t: Heap, o: PtrUsageInfo, p: PtrUsageInfo)
    requires Same(s, o, p) && Same(t, o, p)
    ensures Collapsed(s, t, o) ==> Collapsed(s, t, p)
  {
    assert MembersOf(s, o) == MembersOf(s, p) && DirectOf(s, o) == DirectOf(s, p);
  }

  /** Only the contents of a have changed. */
  ghost predicate OnlyAt(s: Heap, t: Heap, a: PtrUsageInfo) {
    a in s && s.Keys == t.Keys && forall o {:trigger t[o]} :: o in s && o != a ==> t[o] == s[o]
  }

  /** Merged infos have merged targets: what a pointed to and what b pointed to have become the same. */
  lemma TargetsAreMerged(s: Heap, t: Heap, a: PtrUsageInfo, b: PtrUsageInfo, d: PtrUsageInfo, e: PtrUsageInfo)
    requires Grown(s, t) && a in s && b in s && d in s && e in s
    requires PointsTo(s, a, d) && PointsTo(s, b, e) && Same(t, a, b)
    ensures Same(t, d, e)
  {
    assert StaysTarget(s, t, a, d) && StaysTarget(s, t, b, e);
  }

  /** With known indices the same holds member by member, unless one has become an alias of a itself. */
  lemma MembersAreMerged(s: Heap, t: Heap, a: PtrUsageInfo, b: PtrUsageInfo, k: Path, m: PtrUsageInfo, n: PtrUsageInfo)
    requires Grown(s, t) && PathsKept(s, t) && Constant(s) && a in s && b in s && m in s && n in s && WILDCARD !in k
    requires HasMemberAt(s, a, k, m) && HasMemberAt(s, b, k, n) && Same(t, a, b) && Disjoint(MembersOf(t, a).Keys)
    ensures Same(t, m, n) || Same(t, a, m) || Same(t, a, n)
  {
    assert StaysMemberAt(s, t, a, k, m) && StaysMemberAt(s, t, b, k, n);
    if !Same(t, a, m) && !Same(t, a, n) {
      assert MembersOf(t, a) == MembersOf(t, b);
      var x :| x in MembersOf(t, a) && MatchFrom(x, k, 0) && Same(t, MembersOf(t, a)[x], m);
      var y :| y in MembersOf(t, a) && MatchFrom(y, k, 0) && Same(t, MembersOf(t, a)[y], n);
      MatchFromSwap(y, k, 0);
      MatchThrough(x, k, y);
    }
  }

  // ---------------------------------------------------------------- and nothing more is assumed

  type Class = nat

  /** A division of the infos into classes.  Each class has its flags, one class of targets, and for each
      path that it uses one class of members, which is the class itself if derived pointers are relevant. */
  datatype Classes = Classes(classOf: PtrUsageInfo -> Class, target: Class -> Class, uses: (Class, Path) -> bool,
                             member: (Class, Path) -> Class, flags: Class -> Flags)

  ghost predicate Consistent(c: Classes) {
    && (forall x, k, l {:trigger c.uses(x, k), c.uses(x, l)} :: c.uses(x, k) && c.uses(x, l) && MatchFrom(k, l, 0) ==>
          c.member(x, k) == c.member(x, l))
    && (forall x, k {:trigger c.uses(x, k)} :: c.flags(x).derivedRelevant && c.uses(x, k) ==> c.member(x, k) == x)
  }

  function ClassFlags(c: Classes, o: PtrUsageInfo): Flags {
    c.flags(c.classOf(o))
  }

  predicate IsTarget(c: Classes, o: PtrUsageInfo, d: PtrUsageInfo?) {
    d != null ==> c.classOf(d) == c.target(c.classOf(o))
  }

  predicate IsMember(c: Classes, o: PtrUsageInfo, k: Path, m: PtrUsageInfo) {
    c.uses(c.classOf(o), k) && c.classOf(m) == c.member(c.classOf(o), k)
  }

  predicate AreMembers(c: Classes, o: PtrUsageInfo, members: map<Path, PtrUsageInfo>) {
    forall k :: k in members ==> IsMember(c, o, k, members[k])
  }

  predicate MayHandOver(c: Classes, o: PtrUsageInfo, used: bool, direct: PtrUsageInfo?,
                        members: map<Path, PtrUsageInfo>) {
    (used ==> ClassFlags(c, o).usedDirectly) && IsTarget(c, o, direct) && AreMembers(c, o, members)
  }

  ghost predicate ExplainsAt(c: Classes, s: Heap, o: PtrUsageInfo)
    requires o in s
  {
    && c.classOf(s[o].root) == c.classOf(o) && IsTarget(c, o, s[o].direct) && AreMembers(c, o, s[o].members)
    && FlagsKept(s[o].flags, ClassFlags(c, o))
  }

  /** All that is known about aliases, targets and members agrees with the division. */
  ghost predicate Explains(c: Classes, s: Heap) {
    Consistent(c) && forall o {:trigger ExplainsAt(c, s, o)} :: o in s ==> ExplainsAt(c, s, o)
  }

  /** Infos that are known to alias are in one class of every division that explains what is known. */
  lemma AliasesAreExplained(c: Classes, s: Heap, o: PtrUsageInfo, p: PtrUsageInfo)
    requires o in s && p in s && Same(s, o, p)
    ensures Explains(c, s) ==> c.classOf(o) == c.classOf(p)
  {
    assert Explains(c, s) ==> ExplainsAt(c, s, o) && ExplainsAt(c, s, p);
  }

  /** The class may be collapsed: its members and its target are in the class itself. */
  ghost predicate MayCollapse(c: Classes, s: Heap, o: PtrUsageInfo) {
    && ClassFlags(c, o).derivedRelevant && ClassFlags(c, o).wholeRelevant
    && (DirectOf(s, o) != null ==> c.target(c.classOf(o)) == c.classOf(o))
  }

  lemma AbsorbedIsExplained(c: Classes, s: Heap, t: Heap, a: PtrUsageInfo, b: PtrUsageInfo)
    requires Absorbed(s, t, a, b) && Explains(c, s) && c.classOf(a) == c.classOf(b)
    ensures Explains(c, t) && MayHandOver(c, a, s[b].flags.usedDirectly, s[b].direct, s[b].members)
  {
    assert ExplainsAt(c, s, a) && ExplainsAt(c, s, b);
    forall o | o in t
      ensures ExplainsAt(c, t, o)
    {
      assert AbsorbedAt(s, t, a, b, o) && ExplainsAt(c, s, o);
    }
  }

  lemma UpdateIsExplained(c: Classes, s: Heap, t: Heap, a: PtrUsageInfo)
    requires OnlyAt(s, t, a) && t[a].root == s[a].root && t[a].members == s[a].members && Explains(c, s)
    requires t[a].direct == s[a].direct || IsTarget(c, a, t[a].direct)
    requires FlagsKept(t[a].flags, ClassFlags(c, a))
    ensures Explains(c, t)
  {
    forall o | o in t
      ensures ExplainsAt(c, t, o)
    {
      assert ExplainsAt(c, s, o) && ExplainsAt(c, s, a);
    }
  }

  lemma EditIsExplained(c: Classes, s: Heap, t: Heap, a: PtrUsageInfo, idx: Path, result: PtrUsageInfo)
    requires OnlyAt(s, t, a) && Explains(c, s) && IsMember(c, a, idx, result)
    requires t[a] == s[a].(members := (s[a].members - Matching(s[a].members.Keys, idx))[idx := result])
    ensures Explains(c, t)
  {
    forall o | o in t
      ensures ExplainsAt(c, t, o)
    {
      assert ExplainsAt(c, s, o) && ExplainsAt(c, s, a);
    }
  }

  /** Members at matching paths are in one class. */
  lemma MatchingIsExplained(c: Classes, s: Heap, a: PtrUsageInfo, idx: Path, result: PtrUsageInfo, k: Path)
    requires a in s && Explains(c, s) && IsMember(c, a, idx, result) && k in Matching(s[a].members.Keys, idx)
    ensures c.classOf(s[a].members[k]) == c.classOf(result)
  {
    assert ExplainsAt(c, s, a) && IsMember(c, a, k, s[a].members[k]);
  }

  lemma ReplaceIsExplained(c: Classes, s: Heap, t: Heap, a: PtrUsageInfo, idx: Path, result: PtrUsageInfo)
    requires OnlyAt(s, t, a) && Explains(c, s) && IsMember(c, a, idx, result)
    requires t[a] == s[a].(members := (s[a].members - Matching(s[a].members.Keys, idx))[idx := result])
    ensures Explains(c, t)
    ensures forall k :: k in Matching(s[a].members.Keys, idx) ==> c.classOf(s[a].members[k]) == c.classOf(result)
  {
    EditIsExplained(c, s, t, a, idx, result);
    forall k | k in Matching(s[a].members.Keys, idx)
      ensures c.classOf(s[a].members[k]) == c.classOf(result)
    {
      MatchingIsExplained(c, s, a, idx, result, k);
    }
  }

  /** What is in a class that may be collapsed. */
  lemma CollapseIsExplained(c: Classes, s: Heap, a: PtrUsageInfo)
    requires a in s && s[a].root == a && Explains(c, s) && MayCollapse(c, s, a)
    ensures s[a].direct != null ==> c.classOf(s[a].direct) == c.classOf(a)
    ensures forall k :: k in s[a].members ==> c.classOf(s[a].members[k]) == c.classOf(a)
  {
    assert ExplainsAt(c, s, a);
    forall k | k in s[a].members
      ensures c.classOf(s[a].members[k]) == c.classOf(a)
    {
      assert IsMember(c, a, k, s[a].members[k]);
    }
  }

  // ---------------------------------------------------------------- merging two roots

  function Union(a: Flags, b: Flags): Flags {
    a.(readFrom := a.readFrom || b.readFrom, writtenTo := a.writtenTo || b.writtenTo,
       wholeRelevant := a.wholeRelevant || b.wholeRelevant, derivedRelevant := a.derivedRelevant || b.derivedRelevant,
       loads := a.loads + b.loads, stores := a.stores + b.stores)
  }

  /** The flags say whether there are loads, and whether there are stores. */
  predicate FlagsTell(f: Flags) {
    (f.readFrom <==> f.loads != {}) && (f.writtenTo <==> f.stores != {})
  }

  function Used(f: Flags): Flags {
    f.(usedDirectly := true)
  }

  function Derived(f: Flags): Flags {
    f.(derivedRelevant := true, wholeRelevant := true)
  }

  function Accesses(f: Flags, isStore: bool): set<Site> {
    if isStore then f.stores else f.loads
  }

  function Accessed(f: Flags, isStore: bool): Flags {
    if isStore then f.(writtenTo := true) else f.(readFrom := true)
  }

  /** Nothing but the accesses has changed. */
  predicate OnlyAccesses(a: Flags, b: Flags, isStore: bool) {
    b == if isStore then a.(writtenTo := true, stores := b.stores) else a.(readFrom := true, loads := b.loads)
  }

  /** Nothing but flags and accesses of the class of o has changed. */
  ghost predicate OnlyFlags(s: Heap, t: Heap, o: PtrUsageInfo) {
    OnlyAt(s, t, Root(s, o)) && t[Root(s, o)] == s[Root(s, o)].(flags := t[Root(s, o)].flags)
  }

  function WithAccess(f: Flags, isStore: bool, x: Site): Flags {
    if isStore then f.(stores := f.stores + {x}) else f.(loads := f.loads + {x})
  }

  // ---------------------------------------------------------------- accesses and the calls that lead to them

  ghost predicate CallersInside(callers: map<Site, set<Site>>) {
    forall x :: x in callers ==> callers[x] <= callers.Keys
  }

  /** x leads to y through calls: each site of the chain is in a function that the following one calls. */
  ghost predicate CallChain(callers: map<Site, set<Site>>, c: seq<Site>) {
    if |c| <= 1 then c != [] else CallChain(callers, c[..|c| - 1]) && c[|c| - 2] in callers && c[|c| - 1] in callers[c[|c| - 2]]
  }

  ghost predicate MayLeadTo(callers: map<Site, set<Site>>, x: Site, access: Site) {
    exists c :: CallChain(callers, c) && c[0] == access && c[|c| - 1] == x
  }

  /** The class has the access, and all calls that may lead to it. */
  ghost predicate MayAccess(c: Classes, o: PtrUsageInfo, access: Site, isStore: bool, callers: map<Site, set<Site>>) {
    && (if isStore then ClassFlags(c, o).writtenTo else ClassFlags(c, o).readFrom)
    && forall x :: MayLeadTo(callers, x, access) ==> x in Accesses(ClassFlags(c, o), isStore)
  }

  ghost predicate ClosedUnderCallers(accesses: set<Site>, callers: map<Site, set<Site>>) {
    forall x :: x in accesses ==> x in callers && callers[x] <= accesses
  }

  /** Only calls that may lead to the access have been added. */
  ghost predicate Traced(before: set<Site>, after: set<Site>, access: Site, callers: map<Site, set<Site>>) {
    before <= after && forall x :: x in after && x !in before ==> MayLeadTo(callers, x, access)
  }

  /** The access is registered, with the calls that lead to it; what is new is closed under callers. */
  ghost predicate Registered(before: set<Site>, after: set<Site>, access: Site, callers: map<Site, set<Site>>) {
    && access in after && Traced(before, after, access, callers)
    && forall x :: x in after && x !in before ==> x in callers && callers[x] <= after
  }

  /** On the way: the callers of the access in `todo` are still to be registered. */
  ghost predicate RegisteredSome(before: set<Site>, after: set<Site>, access: Site, callers: map<Site, set<Site>>,
                                 todo: set<Site>) {
    && access in after && access in callers && Traced(before, after, access, callers)
    && (forall x :: x in callers[access] ==> x in after || x in todo)
    && forall x :: x in after && x !in before && x != access ==> x in callers && callers[x] <= after
  }

  lemma TracedOn(before: set<Site>, mid: set<Site>, after: set<Site>, access: Site, call: Site,
                 callers: map<Site, set<Site>>)
    requires access in callers && call in callers[access]
    requires Traced(before, mid, access, callers) && Traced(mid, after, call, callers)
    ensures Traced(before, after, access, callers)
  {
    forall x | x in after && x !in before
      ensures MayLeadTo(callers, x, access)
    {
      if x !in mid {
        var c :| CallChain(callers, c) && c[0] == call && c[|c| - 1] == x;
        ChainCons(callers, access, c);
        assert CallChain(callers, [access] + c);
      }
    }
  }

  lemma {:induction false} ChainCons(callers: map<Site, set<Site>>, x: Site, c: seq<Site>)
    requires CallChain(callers, c) && x in callers && c[0] in callers[x]
    ensures CallChain(callers, [x] + c)
  {
    var n := |c| - 1;
    if n == 0 {
      assert ([x] + c)[..1] == [x];
    } else {
      ChainCons(callers, x, c[..n]);
      assert ([x] + c)[..n + 1] == [x] + c[..n];
    }
  }

  /** Once closed under callers, the registered accesses are closed again and hold exactly the old
      ones and all calls that may lead to the new one. */
  lemma RegisteredIsExact(before: set<Site>, after: set<Site>, access: Site, callers: map<Site, set<Site>>)
    requires Registered(before, after, access, callers) && ClosedUnderCallers(before, callers)
    ensures ClosedUnderCallers(after, callers)
    ensures forall x :: x in after <==> x in before || MayLeadTo(callers, x, access)
  {
    forall x | MayLeadTo(callers, x, access)
      ensures x in after
    {
      var c :| CallChain(callers, c) && c[0] == access && c[|c| - 1] == x;
      ClosedChain(callers, c, after);
    }
  }

  lemma {:induction false} ClosedChain(callers: map<Site, set<Site>>, c: seq<Site>, accesses: set<Site>)
    requires CallChain(callers, c) && c[0] in accesses && ClosedUnderCallers(accesses, callers)
    ensures c[|c| - 1] in accesses
  {
    if |c| > 1 {
      ClosedChain(callers, c[..|c| - 1], accesses);
    }
  }

  ghost predicate AbsorbedAt(s: Heap, t: Heap, a: PtrUsageInfo, b: PtrUsageInfo, o: PtrUsageInfo)
    requires o in s && o in t
  {
    && t[o].root == (if s[o].root == b then a else s[o].root)
    && (s[o].root == o && o != a && o != b ==> t[o] == s[o])
    && (t[o].root != o ==> t[o].direct == null && t[o].members == map[])
    && (o != a ==> t[o].flags == s[o].flags)
  }

  /** Root b has been made to forward to root a, and its targets are still to be handed over. */
  ghost predicate Absorbed(s: Heap, t: Heap, a: PtrUsageInfo, b: PtrUsageInfo) {
    && s.Keys == t.Keys && a in s && b in s && a != b && s[a].root == a && s[b].root == b
    && t[a] == View(a, Union(s[a].flags, s[b].flags), s[a].direct, s[a].members)
    && (forall o {:trigger AbsorbedAt(s, t, a, b, o)} :: o in s ==> AbsorbedAt(s, t, a, b, o))
  }

  /** What is handed over to a on behalf of b. */
  ghost predicate HandedOver(b: View, t: Heap, a: PtrUsageInfo) {
    && (b.flags.usedDirectly ==> FlagsOf(t, a).usedDirectly)
    && (b.direct != null ==> PointsTo(t, a, b.direct))
    && (forall k :: k in b.members ==> HasMember(t, a, b.members[k]))
  }

  ghost predicate PathsHandedOver(b: View, t: Heap, a: PtrUsageInfo) {
    forall k :: k in b.members ==> HasMemberAt(t, a, k, b.members[k])
  }

  /** One merge, from before it started until everything has been handed over. */
  ghost predicate Merged(s: Heap, s1: Heap, t: Heap, a: PtrUsageInfo, b: PtrUsageInfo) {
    Inside(s) && Absorbed(s, s1, a, b) && Grown(s1, t) && HandedOver(s[b], t, a)
  }

  lemma AliasKept(s: Heap, s1: Heap, t: Heap, a: PtrUsageInfo, b: PtrUsageInfo, o: PtrUsageInfo, p: PtrUsageInfo)
    requires Merged(s, s1, t, a, b) && o in s && p in s
    ensures StaysAlias(s, t, o, p) && Same(t, a, b) && (Root(s, o) == b ==> Same(t, o, a))
  {
    assert AbsorbedAt(s, s1, a, b, o) && AbsorbedAt(s, s1, a, b, p) && AbsorbedAt(s, s1, a, b, a) && AbsorbedAt(s, s1, a, b, b);
    assert StaysAlias(s1, t, o, p) && StaysAlias(s1, t, a, b) && StaysAlias(s1, t, o, a);
  }

  /** Classes other than that of b are as they were. */
  lemma OthersSame(s: Heap, s1: Heap, a: PtrUsageInfo, b: PtrUsageInfo, o: PtrUsageInfo)
    requires Inside(s) && Absorbed(s, s1, a, b) && o in s && Root(s, o) != b
    ensures DirectOf(s1, o) == DirectOf(s, o) && MembersOf(s1, o) == MembersOf(s, o)
    ensures FlagsKept(FlagsOf(s, o), FlagsOf(s1, o))
    ensures Root(s1, o) == Root(s, o)
  {
    assert InsideAt(s, o);
    assert AbsorbedAt(s, s1, a, b, o) && AbsorbedAt(s, s1, a, b, Root(s, o));
  }

  lemma FlagKept(s: Heap, s1: Heap, t: Heap, a: PtrUsageInfo, b: PtrUsageInfo, o: PtrUsageInfo)
    requires Merged(s, s1, t, a, b) && o in s
    ensures StaysFlagged(s, t, o)
  {
    assert StaysFlagged(s1, t, o) && StaysFlagged(s1, t, a);
    assert AbsorbedAt(s, s1, a, b, o) && AbsorbedAt(s, s1, a, b, a);
    if Root(s, o) == b {
      AliasKept(s, s1, t, a, b, o, a);
    } else {
      OthersSame(s, s1, a, b, o);
    }
  }

  lemma TargetKept(s: Heap, s1: Heap, t: Heap, a: PtrUsageInfo, b: PtrUsageInfo, o: PtrUsageInfo, d: PtrUsageInfo)
    requires Merged(s, s1, t, a, b) && o in s && d in s
    ensures StaysTarget(s, t, o, d)
  {
    if PointsTo(s, o, d) {
      var x := DirectOf(s, o);
      assert InsideAt(s, o) && InsideAt(s, Root(s, o));
      AliasKept(s, s1, t, a, b, x, d);
      if Root(s, o) == b {
        AliasKept(s, s1, t, a, b, o, a);
      } else {
        OthersSame(s, s1, a, b, o);
        assert PointsTo(s1, o, x) && StaysTarget(s1, t, o, x);
      }
    }
  }

  lemma OneMemberKept(s: Heap, s1: Heap, t: Heap, a: PtrUsageInfo, b: PtrUsageInfo, o: PtrUsageInfo, k: Path)
    requires Merged(s, s1, t, a, b) && o in s && k in MembersOf(s, o)
    ensures MembersOf(s, o)[k] in s && HasMember(t, o, MembersOf(s, o)[k])
  {
    var x := MembersOf(s, o)[k];
    assert InsideAt(s, o) && InsideAt(s, Root(s, o));
    if Root(s, o) == b {
      AliasKept(s, s1, t, a, b, o, x);
      SameMember(t, a, x, o, x);
    } else {
      OthersSame(s, s1, a, b, o);
      assert HasMember(s1, o, x) && StaysMember(s1, t, o, x);
    }
  }

  lemma MemberKept(s: Heap, s1: Heap, t: Heap, a: PtrUsageInfo, b: PtrUsageInfo, o: PtrUsageInfo, m: PtrUsageInfo)
    requires Merged(s, s1, t, a, b) && o in s && m in s
    ensures StaysMember(s, t, o, m)
  {
    if Same(s, o, m) {
      AliasKept(s, s1, t, a, b, o, m);
    } else if HasMember(s, o, m) {
      var k :| k in MembersOf(s, o) && Same(s, MembersOf(s, o)[k], m);
      OneMemberKept(s, s1, t, a, b, o, k);
      AliasKept(s, s1, t, a, b, MembersOf(s, o)[k], m);
      SameMember(t, o, MembersOf(s, o)[k], o, m);
    }
  }

  /** Merging root b into root a, and then whatever both point to, loses nothing. */
  lemma MergeGrows(s: Heap, s1: Heap, t: Heap, a: PtrUsageInfo, b: PtrUsageInfo)
    requires Merged(s, s1, t, a, b)
    ensures Grown(s, t) && Same(t, a, b)
  {
    AliasKept(s, s1, t, a, b, a, b);
    forall o, p | o in s && p in s
      ensures StaysAlias(s, t, o, p) && StaysTarget(s, t, o, p) && StaysMember(s, t, o, p)
    {
      AliasKept(s, s1, t, a, b, o, p);
      TargetKept(s, s1, t, a, b, o, p);
      MemberKept(s, s1, t, a, b, o, p);
    }
    forall o | o in s
      ensures StaysFlagged(s, t, o)
    {
      FlagKept(s, s1, t, a, b, o);
    }
  }

  // ---------------------------------------------------------------- and the paths of members

  lemma MatchThrough(a: Path, l: Path, k: Path)
    requires WILDCARD !in l && MatchFrom(a, l, 0) && MatchFrom(l, k, 0)
    ensures MatchFrom(a, k, 0)
  {
    MatchFromSwap(a, l, 0);
    ConstantIsCovered(l, a);
    CoveredAliases(a, l, k);
  }

  lemma MemberThrough(t: Heap, o: PtrUsageInfo, l: Path, k: Path, x: PtrUsageInfo, m: PtrUsageInfo)
    requires HasMemberAt(t, o, l, x) && WILDCARD !in l && MatchFrom(l, k, 0) && Same(t, x, m)
    ensures HasMemberAt(t, o, k, m)
  {
    if !Same(t, o, x) {
      var l' :| l' in MembersOf(t, o) && MatchFrom(l', l, 0) && Same(t, MembersOf(t, o)[l'], x);
      MatchThrough(l', l, k);
    }
  }

  lemma {:induction false} MatchesItself(k: Path)
    ensures MatchFrom(k, k, 0)
  {
    var m := SomeMember(k);
    MatchingIff(k, k);
  }

  lemma ConstantMembers(s: Heap, o: PtrUsageInfo)
    requires Constant(s)
    ensures OnlyConstant(MembersOf(s, o))
  {
    if Root(s, o) in s {
      assert OnlyConstant(s[Root(s, o)].members);
    }
  }

  lemma PathKept(s: Heap, s1: Heap, t: Heap, a: PtrUsageInfo, b: PtrUsageInfo, o: PtrUsageInfo, l: Path)
    requires Merged(s, s1, t, a, b) && PathsKept(s1, t) && Constant(s1)
    requires PathsHandedOver(s[b], t, a) && o in s && l in MembersOf(s, o)
    ensures MembersOf(s, o)[l] in s && HasMemberAt(t, o, l, MembersOf(s, o)[l])
  {
    MatchesItself(l);
    var x := MembersOf(s, o)[l];
    assert InsideAt(s, o) && InsideAt(s, Root(s, o));
    if Root(s, o) == b {
      AliasKept(s, s1, t, a, b, o, x);
      SameMember(t, a, x, o, x);
    } else {
      OthersSame(s, s1, a, b, o);
      assert HasMemberAt(s1, o, l, x) && StaysMemberAt(s1, t, o, l, x);
    }
  }

  lemma AbsorbedConstant(s: Heap, s1: Heap, a: PtrUsageInfo, b: PtrUsageInfo)
    requires Inside(s) && Absorbed(s, s1, a, b) && Constant(s)
    ensures Constant(s1)
  {
    forall o | o in s1
      ensures OnlyConstant(s1[o].members)
    {
      assert AbsorbedAt(s, s1, a, b, o) && OnlyConstant(s[o].members);
    }
  }

  lemma MergeDone(s: Heap, s1: Heap, t: Heap, a: PtrUsageInfo, b: PtrUsageInfo)
    requires Merged(s, s1, t, a, b)
    requires OnlyConstant(s[b].members) ==> PathsKept(s1, t)
    requires OnlyConstant(s[b].members) && Constant(s1) ==> PathsHandedOver(s[b], t, a)
    ensures Grown(s, t) && PathsKept(s, t) && Same(t, a, b)
  {
    MergeGrows(s, s1, t, a, b);
    if Constant(s) {
      AbsorbedConstant(s, s1, a, b);
      assert OnlyConstant(s[b].members);
    }
    MergeKeepsPaths(s, s1, t, a, b);
  }

  lemma MergeKeepsPaths(s: Heap, s1: Heap, t: Heap, a: PtrUsageInfo, b: PtrUsageInfo)
    requires Merged(s, s1, t, a, b)
    requires Constant(s) ==> PathsKept(s1, t) && PathsHandedOver(s[b], t, a)
    ensures PathsKept(s, t)
  {
    if Constant(s) {
      AbsorbedConstant(s, s1, a, b);
      forall o, k, m | o in s && m in s
        ensures StaysMemberAt(s, t, o, k, m)
      {
        if Same(s, o, m) {
          AliasKept(s, s1, t, a, b, o, m);
        } else if HasMemberAt(s, o, k, m) {
          var l :| l in MembersOf(s, o) && MatchFrom(l, k, 0) && Same(s, MembersOf(s, o)[l], m);
          PathKept(s, s1, t, a, b, o, l);
          AliasKept(s, s1, t, a, b, MembersOf(s, o)[l], m);
          ConstantMembers(s, o);
          MemberThrough(t, o, l, k, MembersOf(s, o)[l], m);
        }
      }
    }
  }

  // ---------------------------------------------------------------- editing the members of a root

  /** What matches path idx has been replaced by one entry, and then merged with it. */
  ghost predicate Edited(s: Heap, s1: Heap, t: Heap, a: PtrUsageInfo, idx: Path, result: PtrUsageInfo) {
    && Inside(s) && OnlyAt(s, s1, a) && s[a].root == a && result in s
    && s1[a] == s[a].(members := (s[a].members - Matching(s[a].members.Keys, idx))[idx := result])
    && Grown(s1, t) && forall k :: k in Matching(s[a].members.Keys, idx) ==> Same(t, result, s[a].members[k])
  }

  lemma EditedMember(s: Heap, s1: Heap, t: Heap, a: PtrUsageInfo, idx: Path, result: PtrUsageInfo, o: PtrUsageInfo,
                     k: Path)
    requires Edited(s, s1, t, a, idx, result) && o in s && k in MembersOf(s, o)
    ensures MembersOf(s, o)[k] in s && HasMember(t, a, result) && HasMember(t, o, MembersOf(s, o)[k])
  {
    var x := MembersOf(s, o)[k];
    assert InsideAt(s, o) && InsideAt(s, Root(s, o));
    assert HasMember(s1, a, result) by {
      assert idx in MembersOf(s1, a);
    }
    assert StaysMember(s1, t, a, result) && StaysAlias(s1, t, o, a);
    if Root(s, o) == a && k in Matching(s[a].members.Keys, idx) {
      SameMember(t, a, result, o, x);
    } else {
      MatchesItself(idx);
      assert k in MembersOf(s1, o) && MembersOf(s1, o)[k] == x;
      assert HasMember(s1, o, x) && StaysMember(s1, t, o, x);
    }
  }

  lemma EditGrows(s: Heap, s1: Heap, t: Heap, a: PtrUsageInfo, idx: Path, result: PtrUsageInfo)
    requires Edited(s, s1, t, a, idx, result)
    ensures Grown(s, t) && HasMember(t, a, result)
  {
    assert HasMember(s1, a, result) by {
      assert idx in MembersOf(s1, a);
    }
    assert StaysMember(s1, t, a, result);
    forall o, p | o in s && p in s
      ensures StaysAlias(s, t, o, p) && StaysTarget(s, t, o, p) && StaysMember(s, t, o, p) && StaysFlagged(s, t, o)
    {
      assert StaysAlias(s1, t, o, p) && StaysTarget(s1, t, o, p) && StaysFlagged(s1, t, o);
      if HasMember(s, o, p) && !Same(s, o, p) {
        var k :| k in MembersOf(s, o) && Same(s, MembersOf(s, o)[k], p);
        EditedMember(s, s1, t, a, idx, result, o, k);
        assert StaysAlias(s1, t, MembersOf(s, o)[k], p);
        SameMember(t, o, MembersOf(s, o)[k], o, p);
      }
    }
  }

  lemma EditedPath(s: Heap, s1: Heap, t: Heap, a: PtrUsageInfo, idx: Path, result: PtrUsageInfo, o: PtrUsageInfo, l: Path)
    requires Edited(s, s1, t, a, idx, result) && PathsKept(s1, t) && Constant(s1) && WILDCARD !in idx
    requires o in s && l in MembersOf(s, o)
    ensures MembersOf(s, o)[l] in s && HasMemberAt(t, o, l, MembersOf(s, o)[l])
  {
    var x := MembersOf(s, o)[l];
    assert InsideAt(s, o) && InsideAt(s, Root(s, o));
    MatchesItself(l);
    MatchesItself(idx);
    EditedAt(s, s1, t, a, idx, result);
    assert StaysAlias(s1, t, o, a);
    if Root(s, o) == a && l in Matching(s[a].members.Keys, idx) {
      SameMember(t, a, result, o, x);
      MemberThrough(t, o, idx, l, x, x);
    } else {
      assert l in MembersOf(s1, o) && MembersOf(s1, o)[l] == x;
      assert HasMemberAt(s1, o, l, x) && StaysMemberAt(s1, t, o, l, x);
    }
  }

  lemma EditedAt(s: Heap, s1: Heap, t: Heap, a: PtrUsageInfo, idx: Path, result: PtrUsageInfo)
    requires Edited(s, s1, t, a, idx, result) && PathsKept(s1, t) && Constant(s1)
    ensures HasMemberAt(t, a, idx, result)
  {
    MatchesItself(idx);
    assert HasMemberAt(s1, a, idx, result) by {
      assert idx in MembersOf(s1, a);
    }
    assert StaysMemberAt(s1, t, a, idx, result);
  }

  lemma EditKeepsPaths(s: Heap, s1: Heap, t: Heap, a: PtrUsageInfo, idx: Path, result: PtrUsageInfo)
    requires Edited(s, s1, t, a, idx, result) && PathsKept(s1, t) && WILDCARD !in idx && Constant(s)
    ensures PathsKept(s, t) && HasMemberAt(t, a, idx, result)
  {
    assert Constant(s1) by {
      forall o | o in s1
        ensures OnlyConstant(s1[o].members)
      {
        assert OnlyConstant(s[o].members);
      }
    }
    EditedAt(s, s1, t, a, idx, result);
    forall o, k, m | o in s && m in s
      ensures StaysMemberAt(s, t, o, k, m)
    {
      assert StaysAlias(s1, t, o, m);
      if HasMemberAt(s, o, k, m) && !Same(s, o, m) {
        var l :| l in MembersOf(s, o) && MatchFrom(l, k, 0) && Same(s, MembersOf(s, o)[l], m);
        EditedPath(s, s1, t, a, idx, result, o, l);
        assert StaysAlias(s1, t, MembersOf(s, o)[l], m);
        ConstantMembers(s, o);
        MemberThrough(t, o, l, k, MembersOf(s, o)[l], m);
      }
    }
  }

  // ---------------------------------------------------------------- when a path is kept

  /** Nothing is known of what is behind the pointer. */
  ghost predicate Scalar(s: Heap, o: PtrUsageInfo) {
    !FlagsOf(s, o).usedDirectly && DirectOf(s, o) == null && MembersOf(s, o) == map[]
  }

  /** Merging b into a does nothing but make it forward. */
  ghost predicate OnlyForwards(s: Heap, t: Heap, a: PtrUsageInfo, b: PtrUsageInfo) {
    if Same(s, a, b) then t == s else Absorbed(s, t, Root(s, a), Root(s, b))
  }

  ghost predicate ScalarOrDone(s: Heap, result: PtrUsageInfo, m: PtrUsageInfo) {
    Same(s, result, m) || Scalar(s, m)
  }

  /** The live info a has no part in the merge. */
  ghost predicate IsApart(s: Heap, a: PtrUsageInfo, result: PtrUsageInfo, merged: set<PtrUsageInfo>) {
    Root(s, a) == a && !Same(s, a, result) && forall m :: m in merged ==> !Same(s, a, m)
  }

  ghost predicate StaysApart(s: Heap, t: Heap, a: PtrUsageInfo, result: PtrUsageInfo, merged: set<PtrUsageInfo>) {
    IsApart(s, a, result, merged) ==> a in s && a in t && t[a] == s[a] && IsApart(t, a, result, merged)
  }

  ghost predicate OthersStay(s: Heap, t: Heap, result: PtrUsageInfo, merged: set<PtrUsageInfo>) {
    forall a {:trigger StaysApart(s, t, a, result, merged)} :: a in s ==> StaysApart(s, t, a, result, merged)
  }

  ghost predicate AreScalar(s: Heap, result: PtrUsageInfo, merged: set<PtrUsageInfo>) {
    forall m :: m in merged ==> ScalarOrDone(s, result, m)
  }

  lemma OneForwards(s: Heap, t: Heap, result: PtrUsageInfo, m: PtrUsageInfo, merged: set<PtrUsageInfo>)
    requires Inside(s) && OnlyForwards(s, t, result, m) && m in merged && merged <= s.Keys && result in s
    requires AreScalar(s, result, merged)
    ensures OthersStay(s, t, result, merged) && AreScalar(t, result, merged)
  {
    if !Same(s, result, m) {
      var a, b := Root(s, result), Root(s, m);
      forall x | x in merged
        ensures ScalarOrDone(t, result, x)
      {
        assert InsideAt(s, x) && InsideAt(s, result);
        assert AbsorbedAt(s, t, a, b, x) && AbsorbedAt(s, t, a, b, result) && AbsorbedAt(s, t, a, b, Root(s, x));
      }
      forall o | o in s
        ensures StaysApart(s, t, o, result, merged)
      {
        if IsApart(s, o, result, merged) {
          ApartStays(s, t, o, result, m, merged);
        }
      }
    }
  }

  lemma ApartStays(s: Heap, t: Heap, o: PtrUsageInfo, result: PtrUsageInfo, m: PtrUsageInfo, merged: set<PtrUsageInfo>)
    requires Inside(s) && Absorbed(s, t, Root(s, result), Root(s, m)) && m in merged && merged <= s.Keys && result in s
    requires o in s && IsApart(s, o, result, merged)
    ensures t[o] == s[o] && IsApart(t, o, result, merged)
  {
    var a, b := Root(s, result), Root(s, m);
    assert AbsorbedAt(s, t, a, b, o) && AbsorbedAt(s, t, a, b, result);
    forall x | x in merged
      ensures !Same(t, o, x)
    {
      assert AbsorbedAt(s, t, a, b, x);
    }
  }

  lemma StayTransitive(s: Heap, t: Heap, u: Heap, result: PtrUsageInfo, merged: set<PtrUsageInfo>)
    requires s.Keys == t.Keys && OthersStay(s, t, result, merged) && OthersStay(t, u, result, merged) && t.Keys == u.Keys
    ensures OthersStay(s, u, result, merged)
  {
    forall a | a in s
      ensures StaysApart(s, u, a, result, merged)
    {
      assert StaysApart(s, t, a, result, merged) && StaysApart(t, u, a, result, merged);
    }
  }

  lemma ScalarStep(s: Heap, t: Heap, u: Heap, result: PtrUsageInfo, m: PtrUsageInfo, merged: set<PtrUsageInfo>)
    requires Inside(t) && OnlyForwards(t, u, result, m) && m in merged && merged <= t.Keys && result in t
    requires s.Keys == t.Keys && AreScalar(t, result, merged) && OthersStay(s, t, result, merged)
    ensures AreScalar(u, result, merged) && OthersStay(s, u, result, merged)
  {
    OneForwards(t, u, result, m, merged);
    StayTransitive(s, t, u, result, merged);
  }

  /** The member that is handed to root a, and those at matching paths, have no members themselves, and
      are not a. */
  ghost predicate ScalarMembers(s: Heap, a: PtrUsageInfo, idx: Path, result: PtrUsageInfo) {
    && Scalar(s, result) && !Same(s, a, result)
    && forall k :: k in Matching(MembersOf(s, a).Keys, idx) ==> Scalar(s, MembersOf(s, a)[k]) && !Same(s, a, MembersOf(s, a)[k])
  }

  /** The member has been added to root a, and nothing else has happened to a. */
  ghost predicate Added(s: Heap, t: Heap, a: PtrUsageInfo, idx: Path, found: Path, result: PtrUsageInfo) {
    && Root(t, a) == a && !Same(t, a, result) && IsFound(MembersOf(s, a).Keys, idx, found)
    && MembersOf(t, a) == MembersAfter(MembersOf(s, a), idx, found, result)
    && (Matching(MembersOf(s, a).Keys, idx) == {} ==> OnlyAt(s, t, a) && t[a] == s[a].(members := t[a].members))
    && var k := KeyOf(MembersOf(s, a).Keys, idx, found); k in MembersOf(t, a) && Same(t, MembersOf(t, a)[k], result)
  }

  /** The member is merged with the one that was found, which is kept at its key. */
  lemma FoundScalar(s: Heap, t: Heap, a: PtrUsageInfo, idx: Path, found: Path, result: PtrUsageInfo)
    requires Inside(s) && a in s && result in s && Root(s, a) == a && ScalarMembers(s, a, idx, result)
    requires found in Matching(MembersOf(s, a).Keys, idx) && !(Last(found) != WILDCARD && Last(idx) != 0)
    requires OnlyForwards(s, t, MembersOf(s, a)[found], result)
    ensures Added(s, t, a, idx, found, result)
  {
    var d := MembersOf(s, a)[found];
    assert InsideAt(s, a);
    if !Same(s, d, result) {
      assert AbsorbedAt(s, t, Root(s, d), Root(s, result), a) && AbsorbedAt(s, t, Root(s, d), Root(s, result), result);
      assert AbsorbedAt(s, t, Root(s, d), Root(s, result), d);
    }
  }

  /** The members at matching paths are replaced by the new one and merged with it. */
  lemma ReplacedScalars(s: Heap, s1: Heap, t: Heap, a: PtrUsageInfo, idx: Path, found: Path, result: PtrUsageInfo,
                        toMerge: set<PtrUsageInfo>)
    requires Inside(s) && result in s && OnlyAt(s, s1, a) && Root(s, a) == a && ScalarMembers(s, a, idx, result)
    requires s1[a] == s[a].(members := (s[a].members - Matching(s[a].members.Keys, idx))[idx := result])
    requires toMerge == set k | k in Matching(s[a].members.Keys, idx) :: s[a].members[k]
    requires Matching(s[a].members.Keys, idx) != {} ==>
               found in Matching(s[a].members.Keys, idx) && Last(found) != WILDCARD && Last(idx) != 0
    requires AreScalar(s1, result, toMerge) ==> OthersStay(s1, t, result, toMerge)
    requires toMerge == {} ==> t == s1
    ensures Added(s, t, a, idx, found, result)
  {
    assert InsideAt(s, a) && InsideAt(s, result);
    forall m | m in toMerge
      ensures ScalarOrDone(s1, result, m) && !Same(s1, a, m)
    {
      var k :| k in Matching(s[a].members.Keys, idx) && s[a].members[k] == m;
      assert InsideAt(s, m);
      assert Scalar(s, MembersOf(s, a)[k]);
    }
    assert IsApart(s1, a, result, toMerge) && StaysApart(s1, t, a, result, toMerge);
  }

  /** Every single member that path idx may name is found at a and is m. */
  ghost predicate IsAtPath(t: Heap, a: PtrUsageInfo, idx: Path, m: PtrUsageInfo) {
    forall p :: WILDCARD !in p && MatchFrom(idx, p, 0) ==> HasMemberAt(t, a, p, m)
  }

  /** A path that is handed over is kept exactly if the key that it is merged with is not a longer path
      that ends in a wildcard like the new one. */
  lemma PathIsKeptIff(s: Heap, t: Heap, a: PtrUsageInfo, idx: Path, found: Path, result: PtrUsageInfo)
    requires Added(s, t, a, idx, found, result) && IsPath(idx)
    requires Disjoint(MembersOf(s, a).Keys) && forall k :: k in MembersOf(s, a) ==> IsPath(k)
    ensures IsAtPath(t, a, idx, result) <==> !IsNarrower(MembersOf(s, a).Keys, idx, found)
  {
    var keys := MembersOf(s, a).Keys;
    if IsNarrower(keys, idx, found) {
      var p := LostPath(keys, idx, found);
      assert !HasMemberAt(t, a, p, result);
    } else {
      forall p | WILDCARD !in p && MatchFrom(idx, p, 0)
        ensures HasMemberAt(t, a, p, result)
      {
        MatchesItself(idx);
        if Matching(keys, idx) == {} || (Last(found) != WILDCARD && Last(idx) != 0) {
          assert idx in MembersOf(t, a);
        } else {
          FoundCovers(keys, idx, found);
          CoveredAliases(found, idx, p);
          assert found in MembersOf(t, a);
        }
      }
    }
  }

  // ---------------------------------------------------------------- the objects

  ghost predicate ValidInfo(world: set<PtrUsageInfo>, o: PtrUsageInfo)
    reads world
    requires o in world
  {
    && o.rep in world && o.rep.mergedWith == null && (o.mergedWith == null <==> o.rep == o)
    && (o.mergedWith == null ==> o.depth == 0)
    && (o.mergedWith != null ==> o.mergedWith in world && o.mergedWith.rep == o.rep && o.mergedWith.depth < o.depth)
    && (o.infoOfDirectUsage != null ==> o.infoOfDirectUsage in world && o.flags.usedDirectly)
    && (forall k :: k in o.importantMembers ==> IsPath(k) && o.importantMembers[k] in world)
    && Disjoint(o.importantMembers.Keys) && FlagsTell(o.flags)
  }

  /** Forwarding is acyclic and ends at a live info. */
  ghost predicate Valid(world: set<PtrUsageInfo>)
    reads world
  {
    forall o {:trigger ValidInfo(world, o)} :: o in world ==> ValidInfo(world, o)
  }

  ghost function ViewOf(o: PtrUsageInfo): View
    reads o
  {
    if o.mergedWith == null then View(o.rep, o.flags, o.infoOfDirectUsage, o.importantMembers)
    else View(o.rep, o.flags, null, map[])
  }

  ghost function Look(world: set<PtrUsageInfo>): Heap
    reads world
  {
    map o | o in world :: ViewOf(o)
  }

  /** The number of infos that have not been merged away. */
  ghost function NumRoots(s: Heap): nat {
    |set o | o in s && Root(s, o) == o|
  }

  lemma GrownRoots(s: Heap, t: Heap)
    requires Grown(s, t)
    ensures NumRoots(t) <= NumRoots(s)
  {
    var before := set o | o in s && Root(s, o) == o;
    var after := set o | o in t && Root(t, o) == o;
    forall o | o in after
      ensures o in before
    {
      assert StaysFlagged(s, t, o);
    }
    SubsetSize(after, before);
  }

  lemma AbsorbedRoots(s: Heap, t: Heap, a: PtrUsageInfo, b: PtrUsageInfo)
    requires Absorbed(s, t, a, b)
    ensures NumRoots(t) < NumRoots(s)
  {
    var before := set o | o in s && Root(s, o) == o;
    var after := set o | o in t && Root(t, o) == o;
    forall o | o in after
      ensures o in before - {b}
    {
      assert AbsorbedAt(s, t, a, b, o);
    }
    assert b in before;
    SubsetSize(after, before - {b});
  }

  lemma LookIsInside(world: set<PtrUsageInfo>)
    requires Valid(world)
    ensures Inside(Look(world))
  {
    forall o | o in world
      ensures InsideAt(Look(world), o)
    {
      assert ValidInfo(world, o) && ValidInfo(world, o.rep);
    }
  }

  lemma NothingGrows(s: Heap)
    ensures Grown(s, s) && PathsKept(s, s)
  {
  }

  /** A live info may raise its flags and get its first target. */
  lemma UpdatedRoot(s: Heap, t: Heap, a: PtrUsageInfo, flags: Flags, direct: PtrUsageInfo?)
    requires Inside(s) && OnlyAt(s, t, a) && s[a].root == a && t[a] == View(a, flags, direct, s[a].members)
    requires FlagsKept(s[a].flags, flags) && (s[a].direct != null ==> direct == s[a].direct)
    ensures Grown(s, t) && PathsKept(s, t)
  {
    forall o | o in s
      ensures MembersOf(t, o) == MembersOf(s, o) && Root(t, o) == Root(s, o) && StaysFlagged(s, t, o)
    {
      UpdatedSame(s, t, a, o);
    }
    forall o, p | o in s && p in s
      ensures StaysAlias(s, t, o, p) && StaysTarget(s, t, o, p) && StaysMember(s, t, o, p)
      ensures forall k :: StaysMemberAt(s, t, o, k, p)
    {
      UpdatedSame(s, t, a, o);
      UpdatedSame(s, t, a, p);
    }
    if Constant(s) {
      forall o | o in t
        ensures OnlyConstant(t[o].members)
      {
        assert OnlyConstant(s[o].members);
      }
    }
  }

  lemma UpdatedSame(s: Heap, t: Heap, a: PtrUsageInfo, o: PtrUsageInfo)
    requires Inside(s) && OnlyAt(s, t, a) && s[a].root == a && o in s && t[a].root == a && t[a].members == s[a].members
    requires s[a].direct != null ==> t[a].direct == s[a].direct
    requires FlagsKept(s[a].flags, t[a].flags)
    ensures MembersOf(t, o) == MembersOf(s, o) && Root(t, o) == Root(s, o) && FlagsKept(FlagsOf(s, o), FlagsOf(t, o))
    ensures DirectOf(s, o) != null ==> DirectOf(t, o) == DirectOf(s, o) && DirectOf(s, o) in s
    ensures forall k :: k in MembersOf(s, o) ==> MembersOf(s, o)[k] in s
    ensures DirectOf(s, o) != null ==> Root(t, DirectOf(s, o)) == Root(s, DirectOf(s, o))
    ensures forall k :: k in MembersOf(s, o) ==> Root(t, MembersOf(s, o)[k]) == Root(s, MembersOf(s, o)[k])
  {
    assert InsideAt(s, o) && InsideAt(s, Root(s, o));
  }

  class PtrUsageInfo {
    var mergedWith: PtrUsageInfo?
    var flags: Flags
    var infoOfDirectUsage: PtrUsageInfo?
    var importantMembers: map<Path, PtrUsageInfo>
    ghost var rep: PtrUsageInfo  // the info that calls are forwarded to in the end
    ghost var depth: nat         // and how many forwardings that takes

    constructor ()
      ensures mergedWith == null && rep == this && depth == 0 && infoOfDirectUsage == null && importantMembers == map[]
      ensures flags == NO_FLAGS && FlagsTell(flags)
    {
      mergedWith, infoOfDirectUsage, importantMembers, depth := null, null, map[], 0;
      flags := NO_FLAGS;
      rep := this;
    }

    /** The info that calls are forwarded to. */
    method Resolve(ghost world: set<PtrUsageInfo>) returns (r: PtrUsageInfo)
      requires this in world && Valid(world)
      ensures r == rep && r in world && r.mergedWith == null
    {
      r := this;
      assert ValidInfo(world, this);
      while r.mergedWith != null
        invariant r in world && r.rep == rep && ValidInfo(world, r)
        decreases r.depth
      {
        assert ValidInfo(world, r.mergedWith);
        r := r.mergedWith;
      }
    }

    /** A direct use of the pointer; if what it points to is a pointer as well, it gets one info only. */
    method SetIsUsedDirectly(ghost world: set<PtrUsageInfo>, ghost c: Classes, directUsage: PtrUsageInfo?)
      requires this in world && Valid(world) && (directUsage != null ==> directUsage in world)
      modifies world
      ensures Valid(world) && Grown(old(Look(world)), Look(world)) && PathsKept(old(Look(world)), Look(world))
      ensures Explains(c, old(Look(world))) && IsTarget(c, this, directUsage) && ClassFlags(c, this).usedDirectly ==>
                Explains(c, Look(world))
      ensures FlagsOf(Look(world), this).usedDirectly
      ensures directUsage != null ==> PointsTo(Look(world), this, directUsage)
      decreases NumRoots(Look(world)), 5, depth
    {
      assert ValidInfo(world, this);
      if mergedWith != null {
        ghost var s, next := Look(world), mergedWith;
        assert ValidInfo(world, next);
        AliasesAreExplained(c, s, this, next);
        mergedWith.SetIsUsedDirectly(world, c, directUsage);
        assert Same(s, this, next) && StaysAlias(s, Look(world), this, next);
        return;
      }
      SetUsedRoot(world, c, directUsage);
    }

    method SetUsedRoot(ghost world: set<PtrUsageInfo>, ghost c: Classes, directUsage: PtrUsageInfo?)
      requires this in world && Valid(world) && mergedWith == null && (directUsage != null ==> directUsage in world)
      modifies world
      ensures Valid(world) && Grown(old(Look(world)), Look(world)) && PathsKept(old(Look(world)), Look(world))
      ensures Explains(c, old(Look(world))) && IsTarget(c, this, directUsage) && ClassFlags(c, this).usedDirectly ==>
                Explains(c, Look(world))
      ensures FlagsOf(Look(world), this).usedDirectly
      ensures directUsage != null ==> PointsTo(Look(world), this, directUsage)
      decreases NumRoots(Look(world)), 4, 1
    {
      ghost var s := Look(world);
      MarkUsed(world, c);
      if directUsage != null {
        ghost var t := Look(world);
        GrownRoots(s, t);
        var info := directUsage.Resolve(world);
        assert ValidInfo(world, directUsage) && ValidInfo(world, info);
        AliasesAreExplained(c, t, info, directUsage);
        AddTarget(world, c, info);
        GrownTransitive(s, t, Look(world));
        PathsTransitive(s, t, Look(world));
        assert Same(t, info, directUsage) && StaysAlias(t, Look(world), info, directUsage);
      }
    }

    method MarkUsed(ghost world: set<PtrUsageInfo>, ghost c: Classes)
      requires this in world && Valid(world) && mergedWith == null
      modifies this
      ensures Valid(world) && Grown(old(Look(world)), Look(world)) && PathsKept(old(Look(world)), Look(world))
      ensures Explains(c, old(Look(world))) && ClassFlags(c, this).usedDirectly ==> Explains(c, Look(world))
      ensures mergedWith == null && flags.usedDirectly && FlagsOf(Look(world), this) == flags
    {
      ghost var s := Look(world);
      LookIsInside(world);
      assert ValidInfo(world, this);
      flags := Used(flags);
      forall o | o in world
        ensures ValidInfo(world, o) && (o != this ==> ViewOf(o) == old(ViewOf(o)))
      {
        assert old(ValidInfo(world, o));
      }
      UpdatedRoot(s, Look(world), this, flags, infoOfDirectUsage);
      if Explains(c, s) && ClassFlags(c, this).usedDirectly {
        assert ExplainsAt(c, s, this);
        UpdateIsExplained(c, s, Look(world), this);
      }
    }

    /** A second target is merged with the first. */
    method AddTarget(ghost world: set<PtrUsageInfo>, ghost c: Classes, info: PtrUsageInfo)
      requires this in world && Valid(world) && mergedWith == null && flags.usedDirectly
      requires info in world && info.mergedWith == null
      modifies world
      ensures Valid(world) && Grown(old(Look(world)), Look(world)) && PathsKept(old(Look(world)), Look(world))
      ensures Explains(c, old(Look(world))) && IsTarget(c, this, info) ==> Explains(c, Look(world))
      ensures FlagsOf(Look(world), this).usedDirectly && PointsTo(Look(world), this, info)
      decreases NumRoots(Look(world)), 4, 0
    {
      ghost var s := Look(world);
      assert ValidInfo(world, this) && ValidInfo(world, info);
      if infoOfDirectUsage != null {
        ghost var d := infoOfDirectUsage;
        assert PointsTo(s, this, d);
        assert Explains(c, s) ==> ExplainsAt(c, s, this);
        infoOfDirectUsage.MergeWith(world, c, info);
        assert StaysTarget(s, Look(world), this, d) && StaysFlagged(s, Look(world), this);
      } else {
        SetTarget(world, c, info);
      }
    }

    method SetTarget(ghost world: set<PtrUsageInfo>, ghost c: Classes, info: PtrUsageInfo)
      requires this in world && Valid(world) && mergedWith == null && flags.usedDirectly && infoOfDirectUsage == null
      requires info in world
      modifies this
      ensures Valid(world) && Grown(old(Look(world)), Look(world)) && PathsKept(old(Look(world)), Look(world))
      ensures FlagsOf(Look(world), this).usedDirectly && PointsTo(Look(world), this, info)
      ensures Explains(c, old(Look(world))) && IsTarget(c, this, info) ==> Explains(c, Look(world))
    {
      ghost var s := Look(world);
      LookIsInside(world);
      assert ValidInfo(world, this);
      infoOfDirectUsage := info;
      forall o | o in world
        ensures ValidInfo(world, o) && (o != this ==> ViewOf(o) == old(ViewOf(o)))
      {
        assert old(ValidInfo(world, o));
      }
      UpdatedRoot(s, Look(world), this, flags, infoOfDirectUsage);
      if Explains(c, s) && IsTarget(c, this, info) {
        assert ExplainsAt(c, s, this);
        UpdateIsExplained(c, s, Look(world), this);
      }
    }

    /** Both infos are from now on the same; what they point to is merged, too. */
    method MergeWith(ghost world: set<PtrUsageInfo>, ghost c: Classes, otherInfo: PtrUsageInfo?)
      requires this in world && Valid(world) && (otherInfo != null ==> otherInfo in world)
      modifies world
      ensures Valid(world) && Grown(old(Look(world)), Look(world)) && PathsKept(old(Look(world)), Look(world))
      ensures Explains(c, old(Look(world))) && (otherInfo != null ==> c.classOf(this) == c.classOf(otherInfo)) ==>
                Explains(c, Look(world))
      ensures otherInfo != null ==> Same(Look(world), this, otherInfo)
      ensures otherInfo == null || !old(ScalarOrDone(Look(world), this, otherInfo)) ||
              OnlyForwards(old(Look(world)), Look(world), this, otherInfo)
      decreases NumRoots(Look(world)), 1, depth
    {
      assert ValidInfo(world, this);
      ghost var s := Look(world);
      if mergedWith != null {
        ghost var next := mergedWith;
        assert ValidInfo(world, next);
        AliasesAreExplained(c, s, this, next);
        mergedWith.MergeWith(world, c, otherInfo);
        assert Same(s, this, next) && StaysAlias(s, Look(world), this, next);
        return;
      }
      if otherInfo == null {
        NothingGrows(s);
        return;
      }
      var other := otherInfo.Resolve(world);
      assert ValidInfo(world, otherInfo) && ValidInfo(world, other);
      if other == this {
        NothingGrows(s);
      } else {
        AliasesAreExplained(c, s, other, otherInfo);
        MergeRoots(world, c, other);
        assert Same(s, other, otherInfo) && StaysAlias(s, Look(world), other, otherInfo);
      }
    }

    /** The part of the merge after both sides have been resolved. */
    method MergeRoots(ghost world: set<PtrUsageInfo>, ghost c: Classes, other: PtrUsageInfo)
      requires this in world && other in world && Valid(world) && this != other
      requires mergedWith == null && other.mergedWith == null
      modifies world
      ensures Valid(world) && Grown(old(Look(world)), Look(world)) && PathsKept(old(Look(world)), Look(world))
      ensures Explains(c, old(Look(world))) && c.classOf(this) == c.classOf(other) ==> Explains(c, Look(world))
      ensures Same(Look(world), this, other)
      ensures !old(Scalar(Look(world), other)) || Absorbed(old(Look(world)), Look(world), this, other)
      decreases NumRoots(Look(world)), 0, 0
    {
      ghost var s := Look(world);
      LookIsInside(world);
      // `other` is not changed until it is cleared
      var used, direct, members := other.flags.usedDirectly, other.infoOfDirectUsage, other.importantMembers;
      assert ValidInfo(world, other) && s[other] == ViewOf(other);
      Absorb(world, other);
      ghost var s1 := Look(world);
      if Explains(c, s) && c.classOf(this) == c.classOf(other) {
        AbsorbedIsExplained(c, s, s1, this, other);
      }
      HandOverTargets(world, c, used, direct, members);
      MergeDone(s, s1, Look(world), this, other);
      assert AbsorbedAt(s, s1, this, other, other) && StaysFlagged(s1, Look(world), other) && ValidInfo(world, other);
      other.Clear(world);
    }

    /** `other` forwards to this from now on, and hands over its flags and accesses. */
    method Absorb(ghost world: set<PtrUsageInfo>, other: PtrUsageInfo)
      requires this in world && other in world && Valid(world) && this != other
      requires mergedWith == null && other.mergedWith == null
      modifies world
      ensures Valid(world) && Absorbed(old(Look(world)), Look(world), this, other) && other.mergedWith != null
      ensures NumRoots(Look(world)) < NumRoots(old(Look(world)))
    {
      assert ValidInfo(world, this) && ValidInfo(world, other);
      Redirect(world, other);
      forall o | o in world
        ensures ValidInfo(world, o)
      {
        assert old(ValidInfo(world, o)) && old(ValidInfo(world, o.rep));
        if old(o.mergedWith) != null {
          assert old(ValidInfo(world, o.mergedWith));
        }
      }
      forall o | o in world
        ensures AbsorbedAt(old(Look(world)), Look(world), this, other, o)
      {
        assert old(ValidInfo(world, o));
        assert Look(world)[o] == ViewOf(o) && old(Look(world))[o] == old(ViewOf(o));
      }
      AbsorbedRoots(old(Look(world)), Look(world), this, other);
    }

    method Redirect(ghost world: set<PtrUsageInfo>, other: PtrUsageInfo)
      requires this in world && other in world && Valid(world) && this != other
      requires mergedWith == null && other.mergedWith == null
      modifies world
      ensures Redirected(world, this, other)
    {
      assert ValidInfo(world, this) && ValidInfo(world, other);
      other.mergedWith := this;
      flags := Union(flags, other.flags);
      forall o | o in world && o.rep == other {
        o.depth := o.depth + 1;
      }
      forall o | o in world && o.rep == other {
        o.rep := this;
      }
    }

    /** An info that forwards needs its contents no longer. */
    method Clear(ghost world: set<PtrUsageInfo>)
      requires this in world && Valid(world) && mergedWith != null
      modifies this
      ensures Valid(world) && Look(world) == old(Look(world))
    {
      assert ValidInfo(world, this);
      ghost var s := Look(world);
      importantMembers := map[];
      infoOfDirectUsage := null;
      forall o | o in world
        ensures ValidInfo(world, o) && ViewOf(o) == old(ViewOf(o))
      {
        assert old(ValidInfo(world, o));
      }
      SameViews(s, Look(world));
    }

    /** The targets of a merged info are merged with those of this.  Meanwhile this may be merged away. */
    method HandOverTargets(ghost world: set<PtrUsageInfo>, ghost c: Classes, used: bool, direct: PtrUsageInfo?,
                           members: map<Path, PtrUsageInfo>)
      requires this in world && Valid(world) && (direct != null ==> direct in world && used)
      requires forall k :: k in members ==> IsPath(k) && members[k] in world
      modifies world
      ensures Valid(world) && Grown(old(Look(world)), Look(world))
      ensures Explains(c, old(Look(world))) && MayHandOver(c, this, used, direct, members) ==> Explains(c, Look(world))
      ensures used ==> FlagsOf(Look(world), this).usedDirectly
      ensures direct != null ==> PointsTo(Look(world), this, direct)
      ensures used || members != map[] || Look(world) == old(Look(world))
      ensures forall k :: k in members ==> HasMember(Look(world), this, members[k])
      ensures OnlyConstant(members) ==> PathsKept(old(Look(world)), Look(world))
      ensures OnlyConstant(members) && Constant(old(Look(world))) ==>
                forall k :: k in members ==> HasMemberAt(Look(world), this, k, members[k])
      decreases NumRoots(Look(world)), 9, 0
    {
      ghost var s := Look(world);
      NothingGrows(s);
      if used {
        SetIsUsedDirectly(world, c, direct);
      }
      ghost var t := Look(world);
      GrownRoots(s, t);
      HandOverMembers(world, c, members);
      GrownTransitive(s, t, Look(world));
      if OnlyConstant(members) {
        PathsTransitive(s, t, Look(world));
      }
      assert StaysFlagged(t, Look(world), this);
      assert direct != null ==> StaysTarget(t, Look(world), this, direct);
    }

    method HandOverMembers(ghost world: set<PtrUsageInfo>, ghost c: Classes, members: map<Path, PtrUsageInfo>)
      requires this in world && Valid(world)
      requires forall k :: k in members ==> IsPath(k) && members[k] in world
      modifies world
      ensures Valid(world) && Grown(old(Look(world)), Look(world))
      ensures Explains(c, old(Look(world))) && AreMembers(c, this, members) ==> Explains(c, Look(world))
      ensures members != map[] || Look(world) == old(Look(world))
      ensures forall k :: k in members ==> HasMember(Look(world), this, members[k])
      ensures OnlyConstant(members) ==> PathsKept(old(Look(world)), Look(world))
      ensures OnlyConstant(members) && Constant(old(Look(world))) ==>
                forall k :: k in members ==> HasMemberAt(Look(world), this, k, members[k])
      decreases NumRoots(Look(world)), 8, 0
    {
      var needMergingGep := flags.derivedRelevant;
      var referenceToThis := this;
      var todo := members.Keys;
      ghost var s := Look(world);
      NothingGrows(s);
      assert Explains(c, s) ==> ExplainsAt(c, s, this) && s[this] == ViewOf(this);
      while todo != {}
        invariant Explains(c, s) && AreMembers(c, this, members) ==> Explains(c, Look(world))
        invariant todo <= members.Keys && referenceToThis in world && Same(Look(world), referenceToThis, this)
        invariant members != map[] || Look(world) == s
        invariant Valid(world) && Grown(s, Look(world)) && NumRoots(Look(world)) <= NumRoots(s)
        invariant forall k :: k in members && k !in todo ==> HasMember(Look(world), this, members[k])
        invariant OnlyConstant(members) ==> PathsKept(s, Look(world))
        invariant OnlyConstant(members) && Constant(s) ==>
                    forall k :: k in members && k !in todo ==> HasMemberAt(Look(world), this, k, members[k])
        decreases todo
      {
        var k :| k in todo;
        ghost var t := Look(world);
        // descend further if the object has been merged away
        referenceToThis := referenceToThis.Resolve(world);
        assert ValidInfo(world, referenceToThis);
        ghost var found := HandOver(world, c, referenceToThis, k, members[k], needMergingGep);
        HandedOverOne(s, t, Look(world), this, members, k, todo);
        todo := todo - {k};
      }
    }

    method HandOver(ghost world: set<PtrUsageInfo>, ghost c: Classes, referenceToThis: PtrUsageInfo, idx: Path,
                    result: PtrUsageInfo, needMergingGep: bool) returns (ghost found: Path)
      requires this in world && Valid(world) && result in world && IsPath(idx)
      requires referenceToThis in world && referenceToThis.mergedWith == null && Same(Look(world), referenceToThis, this)
      modifies world
      ensures Valid(world) && Grown(old(Look(world)), Look(world))
      ensures Explains(c, old(Look(world))) && IsMember(c, this, idx, result) && (needMergingGep ==> ClassFlags(c, this).derivedRelevant) ==>
                Explains(c, Look(world))
      ensures Same(Look(world), referenceToThis, this) && HasMember(Look(world), this, result)
      ensures WILDCARD !in idx ==> PathsKept(old(Look(world)), Look(world))
      ensures WILDCARD !in idx && Constant(old(Look(world))) ==> HasMemberAt(Look(world), this, idx, result)
      ensures needMergingGep || !ScalarMembers(old(Look(world)), referenceToThis, idx, result) ||
              Added(old(Look(world)), Look(world), referenceToThis, idx, found, result)
      decreases NumRoots(Look(world)), 7, 0
    {
      ghost var s := Look(world);
      AliasesAreExplained(c, s, referenceToThis, this);
      found := [];
      if needMergingGep {
        referenceToThis.MergeWith(world, c, result);
      } else {
        found := referenceToThis.AddImportantMemberAt(world, c, idx, result);
      }
      assert StaysAlias(s, Look(world), referenceToThis, this);
      SameMember(Look(world), referenceToThis, result, this, result);
    }

    /** The first member that may be the same; the order of the map does not matter here. */
    method FindInfoForGepIdx(idx: Path) returns (found: Path, any: bool)
      ensures any <==> Matching(importantMembers.Keys, idx) != {}
      ensures any ==> found in Matching(importantMembers.Keys, idx)
    {
      found, any := [], false;
      var todo := importantMembers.Keys;
      while todo != {}
        invariant todo <= importantMembers.Keys
        invariant forall k :: k in importantMembers && k !in todo ==> !MatchFrom(idx, k, 0)
        decreases todo
      {
        var k :| k in todo;
        var matching := IsMemberMatching(idx, k);
        if matching {
          assert k in Matching(importantMembers.Keys, idx);
          return k, true;
        }
        todo := todo - {k};
      }
    }

    /** Adds the member at a path, or merges it with what is there already. */
    method AddImportantMemberAt(ghost world: set<PtrUsageInfo>, ghost c: Classes, idx: Path, result: PtrUsageInfo)
      returns (ghost found: Path)
      requires this in world && Valid(world) && mergedWith == null && result in world && IsPath(idx)
      modifies world
      ensures Valid(world) && Grown(old(Look(world)), Look(world)) && HasMember(Look(world), this, result)
      ensures Explains(c, old(Look(world))) && IsMember(c, this, idx, result) ==> Explains(c, Look(world))
      ensures WILDCARD !in idx ==> PathsKept(old(Look(world)), Look(world))
      ensures WILDCARD !in idx && Constant(old(Look(world))) ==> HasMemberAt(Look(world), this, idx, result)
      ensures !ScalarMembers(old(Look(world)), this, idx, result) || Added(old(Look(world)), Look(world), this, idx, found, result)
      decreases NumRoots(Look(world)), 4, 0
    {
      ghost var s := Look(world);
      assert ValidInfo(world, this) && ValidInfo(world, result);
      var r := result.Resolve(world);
      found := [];
      if r == this {
        NothingGrows(s);
        return;
      }
      var key, any := FindInfoForGepIdx(idx);
      found := key;
      if any && !(Last(key) != WILDCARD && Last(idx) != 0) {
        MergeAtKey(world, c, idx, key, result);
      } else {
        Replace(world, c, idx, result, key);
      }
    }

    /** The member is merged with the one that was found; the keys stay as they are. */
    method MergeAtKey(ghost world: set<PtrUsageInfo>, ghost c: Classes, ghost idx: Path, key: Path, result: PtrUsageInfo)
      requires this in world && Valid(world) && mergedWith == null && result in world && IsPath(idx)
      requires key in Matching(importantMembers.Keys, idx) && !(Last(key) != WILDCARD && Last(idx) != 0)
      modifies world
      ensures Valid(world) && Grown(old(Look(world)), Look(world)) && HasMember(Look(world), this, result)
      ensures Explains(c, old(Look(world))) && IsMember(c, this, idx, result) ==> Explains(c, Look(world))
      ensures PathsKept(old(Look(world)), Look(world))
      ensures Constant(old(Look(world))) ==> HasMemberAt(Look(world), this, idx, result)
      ensures !ScalarMembers(old(Look(world)), this, idx, result) || Added(old(Look(world)), Look(world), this, idx, key, result)
      decreases NumRoots(Look(world)), 3, 0
    {
      ghost var s := Look(world);
      ghost var d := importantMembers[key];
      assert ValidInfo(world, this) && ValidInfo(world, result) && s[this] == ViewOf(this);
      LookIsInside(world);
      MatchFromSwap(idx, key, 0);
      assert key in MembersOf(s, this);
      assert HasMemberAt(s, this, idx, d) && HasMember(s, this, d);
      if Explains(c, s) && IsMember(c, this, idx, result) {
        MatchingIsExplained(c, s, this, idx, result, key);
      }
      importantMembers[key].MergeWith(world, c, result);
      if ScalarMembers(s, this, idx, result) {
        FoundScalar(s, Look(world), this, idx, key, result);
      }
      assert StaysMember(s, Look(world), this, d);
      assert Constant(s) ==> StaysMemberAt(s, Look(world), this, idx, d);
      SameMember(Look(world), this, d, this, result);
    }

    /** The matching members are replaced by one entry, and merged with it. */
    method Replace(ghost world: set<PtrUsageInfo>, ghost c: Classes, idx: Path, result: PtrUsageInfo, ghost found: Path)
      requires this in world && Valid(world) && mergedWith == null && result in world && IsPath(idx)
      requires Matching(importantMembers.Keys, idx) != {} ==>
                 found in Matching(importantMembers.Keys, idx) && Last(found) != WILDCARD && Last(idx) != 0
      modifies world
      ensures Valid(world) && Grown(old(Look(world)), Look(world)) && HasMember(Look(world), this, result)
      ensures Explains(c, old(Look(world))) && IsMember(c, this, idx, result) ==> Explains(c, Look(world))
      ensures WILDCARD !in idx ==> PathsKept(old(Look(world)), Look(world))
      ensures WILDCARD !in idx && Constant(old(Look(world))) ==> HasMemberAt(Look(world), this, idx, result)
      ensures !ScalarMembers(old(Look(world)), this, idx, result) || Added(old(Look(world)), Look(world), this, idx, found, result)
      decreases NumRoots(Look(world)), 3, 0
    {
      ghost var s := Look(world);
      LookIsInside(world);
      assert ValidInfo(world, this) && s[this] == ViewOf(this);
      var matching := Matching(importantMembers.Keys, idx);
      var toMerge := set k | k in matching :: importantMembers[k];
      PutMember(world, idx, result, found);
      ghost var s1 := Look(world);
      SameRoots(s, s1, this);
      if Explains(c, s) && IsMember(c, this, idx, result) {
        ReplaceIsExplained(c, s, s1, this, idx, result);
      }
      MergeAll(world, c, result, toMerge);
      if ScalarMembers(s, this, idx, result) {
        ReplacedScalars(s, s1, Look(world), this, idx, found, result, toMerge);
      }
      assert forall k :: k in matching ==> s[this].members[k] in toMerge;
      EditGrows(s, s1, Look(world), this, idx, result);
      if WILDCARD !in idx && Constant(s) {
        EditKeepsPaths(s, s1, Look(world), this, idx, result);
      }
    }

    method PutMember(ghost world: set<PtrUsageInfo>, idx: Path, result: PtrUsageInfo, ghost found: Path)
      requires this in world && Valid(world) && mergedWith == null && result in world && IsPath(idx)
      requires Matching(importantMembers.Keys, idx) != {} ==>
                 found in Matching(importantMembers.Keys, idx) && Last(found) != WILDCARD && Last(idx) != 0
      modifies this
      ensures Valid(world) && OnlyAt(old(Look(world)), Look(world), this)
      ensures var s := old(Look(world));
              Look(world)[this] == s[this].(members := (s[this].members - Matching(s[this].members.Keys, idx))[idx := result])
    {
      ghost var keys := importantMembers.Keys;
      assert ValidInfo(world, this);
      importantMembers := (importantMembers - Matching(importantMembers.Keys, idx))[idx := result];
      assert importantMembers.Keys == KeysAfter(keys, idx, found);
      AddKeepsDisjoint(keys, idx, found);
      forall o | o in world
        ensures ValidInfo(world, o) && (o != this ==> ViewOf(o) == old(ViewOf(o)))
      {
        assert old(ValidInfo(world, o));
      }
    }

    /** A member that is found through pointer arithmetic. */
    method AddImportantMember(ghost world: set<PtrUsageInfo>, ghost c: Classes, idx: Path, resultPtr: PtrUsageInfo)
      requires this in world && Valid(world) && resultPtr in world && IsPath(idx)
      modifies world
      ensures Valid(world) && Grown(old(Look(world)), Look(world)) && HasMember(Look(world), this, resultPtr)
      ensures Explains(c, old(Look(world))) && IsMember(c, this, idx, resultPtr) ==> Explains(c, Look(world))
      ensures WILDCARD !in idx ==> PathsKept(old(Look(world)), Look(world))
      ensures WILDCARD !in idx && Constant(old(Look(world))) ==> HasMemberAt(Look(world), this, idx, resultPtr)
      ensures old(FlagsOf(Look(world), this)).derivedRelevant ==> Same(Look(world), this, resultPtr)
      decreases NumRoots(Look(world)), 5, depth
    {
      ghost var s := Look(world);
      assert ValidInfo(world, this);
      if mergedWith != null {
        ghost var next := mergedWith;
        assert ValidInfo(world, next);
        AliasesAreExplained(c, s, this, next);
        mergedWith.AddImportantMember(world, c, idx, resultPtr);
        assert Same(s, this, next) && StaysAlias(s, Look(world), this, next);
        SameMember(Look(world), next, resultPtr, this, resultPtr);
        return;
      }
      var result := resultPtr.Resolve(world);
      assert ValidInfo(world, resultPtr) && ValidInfo(world, result);
      if result == this {
        NothingGrows(s);
      } else if flags.derivedRelevant {
        AliasesAreExplained(c, s, result, resultPtr);
        assert Explains(c, s) ==> ExplainsAt(c, s, this);
        MergeWith(world, c, result);
        assert Same(s, result, resultPtr) && StaysAlias(s, Look(world), result, resultPtr);
      } else {
        ghost var found := AddImportantMemberAt(world, c, idx, resultPtr);
      }
    }

    /** From now on the pointer and everything that is derived from it are treated as one. */
    method SetDerivedPtrIsRelevant(ghost world: set<PtrUsageInfo>, ghost c: Classes)
      requires this in world && Valid(world)
      modifies world
      ensures Valid(world) && Grown(old(Look(world)), Look(world)) && PathsKept(old(Look(world)), Look(world))
      ensures Explains(c, old(Look(world))) && MayCollapse(c, old(Look(world)), this) ==> Explains(c, Look(world))
      ensures FlagsOf(Look(world), this).derivedRelevant && (!old(FlagsOf(Look(world), this)).derivedRelevant ==>
                FlagsOf(Look(world), this).wholeRelevant && Collapsed(old(Look(world)), Look(world), this))
      decreases depth
    {
      ghost var s := Look(world);
      assert ValidInfo(world, this);
      if mergedWith != null {
        ghost var next := mergedWith;
        assert ValidInfo(world, next);
        AliasesAreExplained(c, s, this, next);
        mergedWith.SetDerivedPtrIsRelevant(world, c);
        assert Same(s, this, next) && StaysAlias(s, Look(world), this, next);
        CollapsedSame(s, Look(world), next, this);
      } else if flags.derivedRelevant {
        NothingGrows(s);
      } else {
        Collapse(world, c);
      }
    }

    method Collapse(ghost world: set<PtrUsageInfo>, ghost c: Classes)
      requires this in world && Valid(world) && mergedWith == null
      modifies world
      ensures Valid(world) && Grown(old(Look(world)), Look(world)) && PathsKept(old(Look(world)), Look(world))
      ensures FlagsOf(Look(world), this).derivedRelevant && FlagsOf(Look(world), this).wholeRelevant
      ensures Collapsed(old(Look(world)), Look(world), this)
      ensures Explains(c, old(Look(world))) && MayCollapse(c, old(Look(world)), this) ==> Explains(c, Look(world))
    {
      ghost var s := Look(world);
      assert ValidInfo(world, this);
      MarkDerived(world, c);
      ghost var t := Look(world);
      assert ValidInfo(world, this);
      var toMerge := (set k | k in importantMembers :: importantMembers[k]) +
        if infoOfDirectUsage != null then {infoOfDirectUsage} else {};
      assert forall k :: k in MembersOf(s, this) ==> MembersOf(s, this)[k] in toMerge;
      if Explains(c, s) && MayCollapse(c, s, this) {
        CollapseIsExplained(c, s, this);
      }
      MergeAll(world, c, this, toMerge);
      GrownTransitive(s, t, Look(world));
      PathsTransitive(s, t, Look(world));
      assert StaysFlagged(t, Look(world), this);
    }

    method MarkDerived(ghost world: set<PtrUsageInfo>, ghost c: Classes)
      requires this in world && Valid(world) && mergedWith == null
      modifies this
      ensures Valid(world) && Grown(old(Look(world)), Look(world)) && PathsKept(old(Look(world)), Look(world))
      ensures Explains(c, old(Look(world))) && ClassFlags(c, this).derivedRelevant && ClassFlags(c, this).wholeRelevant ==>
                Explains(c, Look(world))
      ensures mergedWith == null && flags.derivedRelevant && flags.wholeRelevant && FlagsOf(Look(world), this) == flags
      ensures importantMembers == old(importantMembers) && infoOfDirectUsage == old(infoOfDirectUsage)
    {
      ghost var s := Look(world);
      LookIsInside(world);
      assert ValidInfo(world, this);
      flags := Derived(flags);
      forall o | o in world
        ensures ValidInfo(world, o) && (o != this ==> ViewOf(o) == old(ViewOf(o)))
      {
        assert old(ValidInfo(world, o));
      }
      UpdatedRoot(s, Look(world), this, flags, infoOfDirectUsage);
      if Explains(c, s) && ClassFlags(c, this).derivedRelevant && ClassFlags(c, this).wholeRelevant {
        assert ExplainsAt(c, s, this);
        UpdateIsExplained(c, s, Look(world), this);
      }
    }

    /** Registers a store through the pointer, or a load, and with it every call that may lead there. */
    method SetIsAccessed(ghost world: set<PtrUsageInfo>, ghost c: Classes, access: Site, isStore: bool,
                         callers: map<Site, set<Site>>)
      requires this in world && Valid(world) && access in callers && CallersInside(callers)
      modifies world
      ensures Valid(world) && Grown(old(Look(world)), Look(world)) && PathsKept(old(Look(world)), Look(world))
      ensures Explains(c, old(Look(world))) && MayAccess(c, this, access, isStore, callers) ==> Explains(c, Look(world))
      ensures var before := Accesses(old(FlagsOf(Look(world), this)), isStore); var after := Accesses(FlagsOf(Look(world), this), isStore);
              Registered(before, after, access, callers)
      ensures if isStore then FlagsOf(Look(world), this).writtenTo else FlagsOf(Look(world), this).readFrom
      ensures OnlyAccesses(old(FlagsOf(Look(world), this)), FlagsOf(Look(world), this), isStore)
      ensures OnlyFlags(old(Look(world)), Look(world), this)
      decreases depth
    {
      ghost var s := Look(world);
      assert ValidInfo(world, this);
      if mergedWith != null {
        ghost var next := mergedWith;
        assert ValidInfo(world, next);
        AliasesAreExplained(c, s, this, next);
        mergedWith.SetIsAccessed(world, c, access, isStore, callers);
        assert Same(s, this, next) && StaysAlias(s, Look(world), this, next);
        return;
      }
      LookIsInside(world);
      Register(access, isStore, callers);
      forall o | o in world
        ensures ValidInfo(world, o) && (o != this ==> ViewOf(o) == old(ViewOf(o)))
      {
        assert old(ValidInfo(world, o));
      }
      UpdatedRoot(s, Look(world), this, flags, infoOfDirectUsage);
      if Explains(c, s) && MayAccess(c, this, access, isStore, callers) {
        assert ExplainsAt(c, s, this);
        UpdateIsExplained(c, s, Look(world), this);
      }
    }

    method Register(access: Site, isStore: bool, callers: map<Site, set<Site>>)
      requires access in callers && CallersInside(callers)
      modifies this`flags
      ensures FlagsKept(old(flags), flags) && OnlyAccesses(old(flags), flags, isStore)
      ensures Registered(Accesses(old(flags), isStore), Accesses(flags, isStore), access, callers)
      decreases callers.Keys - Accesses(flags, isStore)
    {
      ghost var before := Accesses(flags, isStore);
      flags := Accessed(flags, isStore);
      if access in Accesses(flags, isStore) {
        return;
      }
      flags := WithAccess(flags, isStore, access);
      assert CallChain(callers, [access]);
      var todo := callers[access];
      while todo != {}
        invariant todo <= callers[access]
        invariant FlagsKept(old(flags), flags) && OnlyAccesses(old(flags), flags, isStore)
        invariant RegisteredSome(before, Accesses(flags, isStore), access, callers, todo)
        decreases todo
      {
        var call :| call in todo;
        if call != access {
          ghost var mid := Accesses(flags, isStore);
          Register(call, isStore, callers);
          TracedOn(before, mid, Accesses(flags, isStore), access, call, callers);
        }
        todo := todo - {call};
      }
    }

    static method MergeAll(ghost world: set<PtrUsageInfo>, ghost c: Classes, result: PtrUsageInfo,
                           toMerge: set<PtrUsageInfo>)
      requires Valid(world) && result in world && toMerge <= world
      modifies world
      ensures Valid(world) && Grown(old(Look(world)), Look(world)) && PathsKept(old(Look(world)), Look(world))
      ensures Explains(c, old(Look(world))) && (forall x :: x in toMerge ==> c.classOf(x) == c.classOf(result)) ==>
                Explains(c, Look(world))
      ensures forall m :: m in toMerge ==> Same(Look(world), result, m)
      ensures toMerge != {} || Look(world) == old(Look(world))
      ensures !AreScalar(old(Look(world)), result, toMerge) ||
              OthersStay(old(Look(world)), Look(world), result, toMerge)
      decreases NumRoots(Look(world)), 2, 0
    {
      var todo := toMerge;
      ghost var s := Look(world);
      NothingGrows(s);
      while todo != {}
        invariant todo <= toMerge && Valid(world) && Grown(s, Look(world)) && PathsKept(s, Look(world))
        invariant NumRoots(Look(world)) <= NumRoots(s)
        invariant toMerge != {} || Look(world) == s
        invariant Explains(c, s) && (forall x :: x in toMerge ==> c.classOf(x) == c.classOf(result)) ==>
                    Explains(c, Look(world))
        invariant forall m :: m in toMerge && m !in todo ==> Same(Look(world), result, m)
        invariant AreScalar(s, result, toMerge) ==>
                    AreScalar(Look(world), result, toMerge) && OthersStay(s, Look(world), result, toMerge)
        decreases todo
      {
        var m :| m in todo;
        ghost var t := Look(world);
        LookIsInside(world);
        result.MergeWith(world, c, m);
        MergedOne(s, t, Look(world), result, toMerge - todo, m);
        if AreScalar(s, result, toMerge) {
          assert ScalarOrDone(t, result, m);
          ScalarStep(s, t, Look(world), result, m, toMerge);
        }
        todo := todo - {m};
      }
    }
  }

  lemma MergedOne(s: Heap, t: Heap, u: Heap, result: PtrUsageInfo, done: set<PtrUsageInfo>, m: PtrUsageInfo)
    requires Grown(s, t) && PathsKept(s, t) && Grown(t, u) && PathsKept(t, u) && Same(u, result, m)
    requires result in t && done <= t.Keys && forall x :: x in done ==> Same(t, result, x)
    ensures Grown(s, u) && PathsKept(s, u) && NumRoots(u) <= NumRoots(t)
    ensures forall x :: x in done + {m} ==> Same(u, result, x)
  {
    GrownTransitive(s, t, u);
    PathsTransitive(s, t, u);
    GrownRoots(t, u);
    forall x | x in done
      ensures Same(u, result, x)
    {
      assert StaysAlias(t, u, result, x);
    }
  }

  lemma HandedOverOne(s: Heap, t: Heap, u: Heap, o: PtrUsageInfo, members: map<Path, PtrUsageInfo>, k: Path,
                      todo: set<Path>)
    requires Grown(s, t) && Grown(t, u) && o in t && k in members && todo <= members.Keys
    requires forall l :: l in members ==> members[l] in t
    requires HasMember(u, o, members[k]) && forall l :: l in members && l !in todo ==> HasMember(t, o, members[l])
    requires OnlyConstant(members) ==> PathsKept(s, t) && PathsKept(t, u)
    requires OnlyConstant(members) && Constant(t) ==> HasMemberAt(u, o, k, members[k])
    requires OnlyConstant(members) && Constant(s) ==> forall l :: l in members && l !in todo ==>
               HasMemberAt(t, o, l, members[l])
    ensures Grown(s, u) && NumRoots(u) <= NumRoots(t)
    ensures forall l :: l in members && l !in todo - {k} ==> HasMember(u, o, members[l])
    ensures OnlyConstant(members) ==> PathsKept(s, u)
    ensures OnlyConstant(members) && Constant(s) ==> forall l :: l in members && l !in todo - {k} ==>
              HasMemberAt(u, o, l, members[l])
  {
    GrownTransitive(s, t, u);
    GrownRoots(t, u);
    if OnlyConstant(members) {
      PathsTransitive(s, t, u);
    }
    forall l | l in members && l !in todo
      ensures HasMember(u, o, members[l]) && (OnlyConstant(members) && Constant(s) ==> HasMemberAt(u, o, l, members[l]))
    {
      assert StaysMember(t, u, o, members[l]);
      assert OnlyConstant(members) && Constant(s) ==> StaysMemberAt(t, u, o, l, members[l]);
    }
  }

  const WIDE: Path := [WILDCARD]
  const NARROW: Path := [0, WILDCARD]

  /** An info has a member at [0, *]; a member that is handed over at [*] is merged with it, but the path
      [5], which [*] may name, is not recorded. */
  method WildcardLosesPath(ghost c: Classes) returns (ghost world: set<PtrUsageInfo>, a: PtrUsageInfo, m: PtrUsageInfo)
    ensures a in world && m in world && Valid(world) && fresh(world)
    ensures MatchFrom(WIDE, [5], 0) && HasMember(Look(world), a, m) && !HasMemberAt(Look(world), a, [5], m)
  {
    var first;
    world, a, first, m := NewInfos();
    ghost var s := Look(world);
    FirstIsScalar(s, a, first);
    ghost var found := a.AddImportantMemberAt(world, c, NARROW, first);
    ghost var t := Look(world);
    SecondIsScalar(s, t, a, found, first, m);
    assert ValidInfo(world, a) && t[a] == ViewOf(a);
    found := a.AddImportantMemberAt(world, c, WIDE, m);
    NarrowIsKept(t, Look(world), a, found, first, m);
  }

  method NewInfos() returns (ghost world: set<PtrUsageInfo>, a: PtrUsageInfo, first: PtrUsageInfo, m: PtrUsageInfo)
    ensures world == {a, first, m} && a != first && a != m && Valid(world) && fresh(world)
    ensures IsNew(Look(world), a) && IsNew(Look(world), first) && IsNew(Look(world), m) && a.mergedWith == null
  {
    a := new PtrUsageInfo();
    first := new PtrUsageInfo();
    m := new PtrUsageInfo();
    world := {a, first, m};
    assert ValidInfo(world, a) && ValidInfo(world, first) && ValidInfo(world, m);
  }

  ghost predicate IsNew(s: Heap, o: PtrUsageInfo) {
    o in s && s[o] == View(o, NO_FLAGS, null, map[])
  }

  lemma FirstIsScalar(s: Heap, a: PtrUsageInfo, first: PtrUsageInfo)
    requires IsNew(s, a) && IsNew(s, first) && a != first
    ensures ScalarMembers(s, a, NARROW, first)
  {
  }

  lemma SecondIsScalar(s: Heap, t: Heap, a: PtrUsageInfo, found: Path, first: PtrUsageInfo, m: PtrUsageInfo)
    requires IsNew(s, a) && IsNew(s, first) && IsNew(s, m) && a != first && a != m && Added(s, t, a, NARROW, found, first)
    ensures MembersOf(t, a) == map[NARROW := first] && ScalarMembers(t, a, WIDE, m) && Root(t, a) == a
  {
    assert MembersOf(s, a) == map[] && Matching(MembersOf(s, a).Keys, NARROW) == {};
  }

  lemma NarrowIsKept(s: Heap, t: Heap, a: PtrUsageInfo, found: Path, first: PtrUsageInfo, m: PtrUsageInfo)
    requires MembersOf(s, a) == map[NARROW := first] && Added(s, t, a, WIDE, found, m)
    ensures MatchFrom(WIDE, [5], 0) && !HasMemberAt(t, a, [5], m)
  {
    assert NARROW in Matching(MembersOf(s, a).Keys, WIDE);
    assert found == NARROW && MembersOf(t, a).Keys == {NARROW};
    assert !MatchFrom(NARROW, [5], 0);
  }

  lemma SameViews(s: Heap, t: Heap)
    requires s.Keys == t.Keys && forall o :: o in s ==> s[o] == t[o]
    ensures s == t
  {
  }

  lemma SameRoots(s: Heap, t: Heap, a: PtrUsageInfo)
    requires s.Keys == t.Keys && forall o :: o in s ==> Root(s, o) == Root(t, o)
    ensures NumRoots(s) == NumRoots(t)
  {
    assert (set o | o in s && Root(s, o) == o) == (set o | o in t && Root(t, o) == o);
  }

  /** What exactly has changed when root b has been made to forward to root a. */
  twostate predicate Redirected(world: set<PtrUsageInfo>, a: PtrUsageInfo, b: PtrUsageInfo)
    reads world
    requires a in world && b in world
  {
    && b.mergedWith == a && a.flags == Union(old(a.flags), old(b.flags))
    && (forall o {:trigger o.mergedWith} :: o in world && o != b ==> o.mergedWith == old(o.mergedWith))
    && (forall o {:trigger o.rep} :: o in world ==> o.rep == if old(o.rep) == b then a else old(o.rep))
    && (forall o {:trigger o.depth} :: o in world ==> o.depth == old(o.depth) + if old(o.rep) == b then 1 else 0)
    && (forall o {:trigger o.flags} :: o in world && o != a ==> o.flags == old(o.flags))
    && (forall o {:trigger o.infoOfDirectUsage} :: o in world ==> o.infoOfDirectUsage == old(o.infoOfDirectUsage))
    && (forall o {:trigger o.importantMembers} :: o in world ==> o.importantMembers == old(o.importantMembers))
  }
}
