/**
Members of a pointed-to object are named by index paths.  A path ends at an index that is not
constant; indices that are not given are zero.
*/
module MemberIndex {
  const WILDCARD := 0xFFFF_FFFF

  type Path = seq<int>

  /** Constant indices, the last of which may be unknown. */
  predicate IsPath(k: Path) {
    k != [] && forall i :: 0 <= i < |k| ==> 0 <= k[i] <= WILDCARD && (k[i] == WILDCARD ==> i == |k| - 1)
  }

  /** The members that a path may name: infinitely many indices. */
  type Member = nat -> int

  ghost function Shift(m: Member): Member {
    (i: nat) => m(i + 1)
  }

  ghost function Prepend(x: int, m: Member): Member {
    (i: nat) => if i == 0 then x else m(i - 1)
  }

  ghost predicate Names(k: Path, m: Member) {
    if k == [] then forall i :: m(i) == 0
    else if k[0] == WILDCARD then true
    else m(0) == k[0] && Names(k[1..], Shift(m))
  }

  ghost predicate MayAlias(a: Path, b: Path) {
    exists m :: Names(a, m) && Names(b, m)
  }

  /** Every member that b may name, a may name. */
  ghost predicate Covers(a: Path, b: Path) {
    forall m :: Names(b, m) ==> Names(a, m)
  }

  // ---------------------------------------------------------------- matching

  /** From position i on, the paths agree until one of them has a wildcard. */
  predicate MatchFrom(a: Path, b: Path, i: nat)
    decreases |a| + |b| - i
  {
    if i >= |a| && i >= |b| then true
    else
      var x, y := if i < |a| then a[i] else 0, if i < |b| then b[i] else 0;
      x == WILDCARD || y == WILDCARD || (x == y && MatchFrom(a, b, i + 1))
  }

  lemma {:induction false} MatchFromSwap(a: Path, b: Path, i: nat)
    ensures MatchFrom(a, b, i) <==> MatchFrom(b, a, i)
    decreases |a| + |b| - i
  {
    if i < |a| || i < |b| {
      MatchFromSwap(a, b, i + 1);
    }
  }

  method IsMemberMatching(memberIdx: Path, reference: Path) returns (matching: bool)
    ensures matching <==> MatchFrom(memberIdx, reference, 0)
    decreases |memberIdx| > |reference|
  {
    if |memberIdx| > |reference| {
      MatchFromSwap(memberIdx, reference, 0);
      matching := IsMemberMatching(reference, memberIdx);
      return;
    }
    for i := 0 to |reference|
      invariant MatchFrom(memberIdx, reference, 0) <==> MatchFrom(memberIdx, reference, i)
    {
      var idx := reference[i];
      var member := 0;  // when the shorter one runs out of indices
      if i < |memberIdx| {
        member := memberIdx[i];
      }
      if idx == WILDCARD || member == WILDCARD {
        return true;
      }
      if idx != member {
        return false;
      }
    }
    return true;
  }

  lemma {:induction false} MatchTail(a: Path, b: Path, i: nat)
    requires i > 0
    ensures MatchFrom(a, b, i) <==> MatchFrom(if a == [] then [] else a[1..], if b == [] then [] else b[1..], i - 1)
    decreases |a| + |b| - i
  {
    if i < |a| || i < |b| {
      MatchTail(a, b, i + 1);
    }
  }

  lemma {:induction false} NamesSame(k: Path, m: Member, n: Member)
    requires Names(k, m) && forall i :: m(i) == n(i)
    ensures Names(k, n)
  {
    if k != [] && k[0] != WILDCARD {
      NamesSame(k[1..], Shift(m), Shift(n));
    }
  }

  /** A missing index is zero. */
  lemma NamesPadded(k: Path, m: Member)
    ensures Names(k, m) <==>
            (var x := if k == [] then 0 else k[0]; x == WILDCARD || (m(0) == x && Names(if k == [] then [] else k[1..], Shift(m))))
  {
    if k == [] {
      if m(0) == 0 && Names([], Shift(m)) {
        forall i: nat
          ensures m(i) == 0
        {
          assert i > 0 ==> Shift(m)(i - 1) == 0;
        }
      }
    }
  }

  lemma NamesPrepend(k: Path, x: int, m: Member)
    requires Names(if k == [] then [] else k[1..], m) && x == if k == [] then 0 else k[0]
    ensures Names(k, Prepend(x, m))
  {
    NamesPadded(k, Prepend(x, m));
    NamesSame(if k == [] then [] else k[1..], m, Shift(Prepend(x, m)));
  }

  /** Some member is named by any path. */
  lemma {:induction false} SomeMember(k: Path) returns (m: Member)
    ensures Names(k, m)
  {
    if k == [] || k[0] == WILDCARD {
      m := i => 0;
    } else {
      var n := SomeMember(k[1..]);
      NamesPrepend(k, k[0], n);
      m := Prepend(k[0], n);
    }
  }

  /** Matching is exact: it holds if and only if both paths may name the same member. */
  lemma {:induction false} MatchingIff(a: Path, b: Path)
    ensures MatchFrom(a, b, 0) <==> MayAlias(a, b)
    decreases |a| + |b|
  {
    var x, y := if a == [] then 0 else a[0], if b == [] then 0 else b[0];
    var c, d := if a == [] then [] else a[1..], if b == [] then [] else b[1..];
    if a == [] && b == [] {
      assert Names([], i => 0);
    } else if x == WILDCARD {
      var m := SomeMember(b);
      assert Names(a, m) && Names(b, m);
    } else if y == WILDCARD {
      var m := SomeMember(a);
      assert Names(a, m) && Names(b, m);
    } else {
      MatchTail(a, b, 1);
      MatchingIff(c, d);
      if x == y && MayAlias(c, d) {
        var m :| Names(c, m) && Names(d, m);
        NamesPrepend(a, x, m);
        NamesPrepend(b, x, m);
        assert Names(a, Prepend(x, m)) && Names(b, Prepend(x, m));
      }
      if MayAlias(a, b) {
        var m :| Names(a, m) && Names(b, m);
        NamesPadded(a, m);
        NamesPadded(b, m);
        assert Names(c, Shift(m)) && Names(d, Shift(m));
      }
    }
  }

  // ---------------------------------------------------------------- the keys of a member map

  ghost predicate Disjoint(keys: set<Path>) {
    forall a, b :: a in keys && b in keys && MatchFrom(a, b, 0) ==> a == b
  }

  ghost predicate Relevant(keys: set<Path>, m: Member) {
    exists k :: k in keys && Names(k, m)
  }

  function Matching(keys: set<Path>, idx: Path): set<Path> {
    set k | k in keys && MatchFrom(idx, k, 0)
  }

  function Last(k: Path): int {
    if k == [] then 0 else k[|k| - 1]
  }

  /** The keys after path idx has been added; `found` is the first key that matches it, if any. */
  function KeysAfter(keys: set<Path>, idx: Path, found: Path): set<Path> {
    if Matching(keys, idx) == {} then keys + {idx}
    else if Last(found) != WILDCARD && Last(idx) != 0 then keys - Matching(keys, idx) + {idx}
    else keys
  }

  /** The key at which a member is after it has been added at path idx. */
  function KeyOf(keys: set<Path>, idx: Path, found: Path): Path {
    if Matching(keys, idx) == {} || (Last(found) != WILDCARD && Last(idx) != 0) then idx else found
  }

  predicate IsFound(keys: set<Path>, idx: Path, found: Path) {
    Matching(keys, idx) != {} ==> found in Matching(keys, idx)
  }

  lemma AddKeepsDisjoint(keys: set<Path>, idx: Path, found: Path)
    requires Disjoint(keys) && IsFound(keys, idx, found)
    ensures Disjoint(KeysAfter(keys, idx, found))
  {
    forall a, b | a in KeysAfter(keys, idx, found) && b in KeysAfter(keys, idx, found) && MatchFrom(a, b, 0)
      ensures a == b
    {
      MatchFromSwap(a, b, 0);
      var k := if a == idx then b else a;
      assert k in keys && MatchFrom(idx, k, 0) <==> k in Matching(keys, idx);
    }
  }

  /** Two paths that may name the same member are nested. */
  lemma {:induction false} Nested(a: Path, b: Path)
    requires MatchFrom(a, b, 0)
    ensures Covers(a, b) || Covers(b, a)
    decreases |a| + |b|
  {
    var x, y := if a == [] then 0 else a[0], if b == [] then 0 else b[0];
    if (a != [] || b != []) && x != WILDCARD && y != WILDCARD {
      var c, d := if a == [] then [] else a[1..], if b == [] then [] else b[1..];
      MatchTail(a, b, 1);
      Nested(c, d);
      forall m
        ensures Covers(c, d) && Names(b, m) ==> Names(a, m)
        ensures Covers(d, c) && Names(a, m) ==> Names(b, m)
      {
        NamesPadded(a, m);
        NamesPadded(b, m);
      }
    }
  }

  /** A path with constant indices names one member. */
  lemma {:induction false} ConstantIsCovered(a: Path, b: Path)
    requires WILDCARD !in a && MatchFrom(a, b, 0)
    ensures Covers(b, a)
    decreases |a| + |b|
  {
    var x, y := if a == [] then 0 else a[0], if b == [] then 0 else b[0];
    if (a != [] || b != []) && y != WILDCARD {
      var c, d := if a == [] then [] else a[1..], if b == [] then [] else b[1..];
      MatchTail(a, b, 1);
      ConstantIsCovered(c, d);
      forall m
        ensures Names(a, m) ==> Names(b, m)
      {
        NamesPadded(a, m);
        NamesPadded(b, m);
      }
    }
  }

  lemma CoveredAliases(a: Path, b: Path, c: Path)
    requires Covers(a, b) && (MatchFrom(b, c, 0) || MatchFrom(c, b, 0))
    ensures MatchFrom(a, c, 0)
  {
    MatchFromSwap(b, c, 0);
    MatchingIff(b, c);
    var m :| Names(b, m) && Names(c, m);
    assert Names(a, m) && Names(c, m);
    MatchingIff(a, c);
  }

  lemma ConstantPath(k: Path)
    requires IsPath(k) && Last(k) != WILDCARD
    ensures WILDCARD !in k
  {
  }

  /** A key that the new path replaces is covered by it. */
  lemma ReplacedIsCovered(keys: set<Path>, idx: Path, found: Path, k: Path)
    requires Disjoint(keys) && (forall a :: a in keys ==> IsPath(a)) && IsPath(idx)
    requires found in Matching(keys, idx) && k in Matching(keys, idx) && Last(found) != WILDCARD
    ensures Covers(idx, k)
  {
    ConstantPath(found);
    MatchFromSwap(idx, found, 0);
    MatchFromSwap(idx, k, 0);
    ConstantIsCovered(found, idx);
    Nested(k, idx);
    if !Covers(idx, k) {
      CoveredAliases(k, idx, found);
    }
  }

  /** The set of relevant members never shrinks when a path is added. */
  lemma RelevantGrows(keys: set<Path>, idx: Path, found: Path, m: Member)
    requires Disjoint(keys) && (forall a :: a in keys ==> IsPath(a)) && IsPath(idx) && IsFound(keys, idx, found)
    requires Relevant(keys, m)
    ensures Relevant(KeysAfter(keys, idx, found), m)
  {
    var k :| k in keys && Names(k, m);
    if k !in KeysAfter(keys, idx, found) {
      ReplacedIsCovered(keys, idx, found, k);
      assert idx in KeysAfter(keys, idx, found);
    }
  }

  // ---------------------------------------------------------------- is the added path relevant?

  function Index(k: Path, i: nat): int {
    if i < |k| then k[i] else 0
  }

  lemma {:induction false} NamesAt(k: Path, m: Member, i: nat)
    requires Names(k, m) && forall j :: 0 <= j <= i && j < |k| ==> k[j] != WILDCARD
    ensures m(i) == Index(k, i)
  {
    if k != [] && i > 0 {
      NamesAt(k[1..], Shift(m), i - 1);
    }
  }

  /** A member of the cone of idx whose next index is v. */
  function MemberOf(idx: Path, v: int): Member
    requires idx != []
  {
    (i: nat) => if i < |idx| - 1 then idx[i] else if i == |idx| - 1 then v else 0
  }

  lemma {:induction false} MemberIsNamed(idx: Path, v: int)
    requires IsPath(idx) && Last(idx) == WILDCARD
    ensures Names(idx, MemberOf(idx, v))
  {
    if |idx| > 1 {
      MemberIsNamed(idx[1..], v);
      NamesSame(idx[1..], MemberOf(idx[1..], v), Shift(MemberOf(idx, v)));
    }
  }

  lemma {:induction false} FreshIndex(keys: set<Path>, i: nat) returns (v: int)
    ensures v != 0 && v != WILDCARD && forall k :: k in keys ==> Index(k, i) != v
  {
    v := BoundIndex(keys, i);
    v := if v < WILDCARD then WILDCARD + 1 else v + 1;
  }

  lemma {:induction false} BoundIndex(keys: set<Path>, i: nat) returns (v: int)
    ensures forall k :: k in keys ==> Index(k, i) <= v
  {
    if keys == {} {
      v := 0;
    } else {
      var k :| k in keys;
      v := BoundIndex(keys - {k}, i);
      v := if v < Index(k, i) then Index(k, i) else v;
    }
  }

  /** A wildcard path that is at most as long as a path that it matches covers it. */
  lemma {:induction false} ShorterCovers(a: Path, b: Path)
    requires IsPath(a) && IsPath(b) && MatchFrom(a, b, 0) && Last(a) == WILDCARD && |a| <= |b|
    ensures Covers(a, b)
  {
    if |a| > 1 && b[0] != WILDCARD {
      MatchTail(a, b, 1);
      ShorterCovers(a[1..], b[1..]);
    }
  }

  lemma {:induction false} AgreeBefore(a: Path, b: Path, m: Member)
    requires IsPath(a) && IsPath(b) && Names(a, m) && Names(b, m)
    ensures MatchFrom(a, b, 0)
  {
    MatchingIff(a, b);
  }

  /** The key that was found is kept, and is narrower than the new path. */
  predicate IsNarrower(keys: set<Path>, idx: Path, found: Path) {
    Matching(keys, idx) != {} && Last(idx) == WILDCARD && Last(found) == WILDCARD && |found| > |idx|
  }

  /** After adding a path its members are relevant, except when it and the key that was found both
      end in a wildcard and the key is the longer, narrower one: then the map is not widened. */
  lemma AddedIsRelevantIff(keys: set<Path>, idx: Path, found: Path)
    requires Disjoint(keys) && (forall a :: a in keys ==> IsPath(a)) && IsPath(idx) && IsFound(keys, idx, found)
    ensures (forall m :: Names(idx, m) ==> Relevant(KeysAfter(keys, idx, found), m)) <==>
            !IsNarrower(keys, idx, found)
  {
    if IsNarrower(keys, idx, found) {
      var v := NotWidened(keys, idx, found);
      assert KeysAfter(keys, idx, found) == keys;
    } else if idx !in KeysAfter(keys, idx, found) {
      FoundCovers(keys, idx, found);
    }
  }

  /** A key that is kept although the new path matches it covers the new path. */
  lemma FoundCovers(keys: set<Path>, idx: Path, found: Path)
    requires (forall a :: a in keys ==> IsPath(a)) && IsPath(idx) && found in Matching(keys, idx)
    requires !IsNarrower(keys, idx, found) && !(Last(found) != WILDCARD && Last(idx) != 0)
    ensures Covers(found, idx)
  {
    MatchFromSwap(idx, found, 0);
    if Last(idx) == WILDCARD {
      ShorterCovers(found, idx);
    } else {
      ConstantPath(idx);
      ConstantIsCovered(idx, found);
    }
  }

  lemma NotWidened(keys: set<Path>, idx: Path, found: Path) returns (v: int)
    requires Disjoint(keys) && (forall a :: a in keys ==> IsPath(a)) && IsPath(idx) && found in Matching(keys, idx)
    requires Last(idx) == WILDCARD && |found| > |idx|
    ensures Names(idx, MemberOf(idx, v)) && !Relevant(keys, MemberOf(idx, v)) && v != WILDCARD
  {
    v := FreshIndex(keys, |idx| - 1);
    var m := MemberOf(idx, v);
    MemberIsNamed(idx, v);
    forall k | k in keys
      ensures !Names(k, m)
    {
      if Names(k, m) {
        if Last(k) == WILDCARD && |k| <= |idx| {
          AgreeBefore(k, idx, m);
          ShorterCovers(k, idx);
          CoveredAliases(k, idx, found);
        } else {
          NamesAt(k, m, |idx| - 1);
        }
      }
    }
  }

  // ---------------------------------------------------------------- the members after an addition

  /** The map after a member has been added, as long as the merged members have none themselves. */
  function MembersAfter<T>(members: map<Path, T>, idx: Path, found: Path, result: T): (after: map<Path, T>)
    ensures after.Keys == KeysAfter(members.Keys, idx, found)
  {
    if Matching(members.Keys, idx) == {} then members[idx := result]
    else if Last(found) != WILDCARD && Last(idx) != 0 then (members - Matching(members.Keys, idx))[idx := result]
    else members
  }

  /** The path of the one member of idx whose last index is v. */
  function WithLast(idx: Path, v: int): Path
    requires idx != []
  {
    idx[..|idx| - 1] + [v]
  }

  lemma {:induction false} OnlyNamed(idx: Path, v: int, m: Member)
    requires IsPath(idx) && v != WILDCARD && Names(WithLast(idx, v), m)
    ensures forall i :: m(i) == MemberOf(idx, v)(i)
  {
    var k := WithLast(idx, v);
    forall i: nat
      ensures m(i) == MemberOf(idx, v)(i)
    {
      NamesAt(k, m, i);
    }
  }

  lemma {:induction false} LastMatches(idx: Path, v: int)
    requires IsPath(idx) && Last(idx) == WILDCARD
    ensures MatchFrom(idx, WithLast(idx, v), 0)
    decreases |idx|
  {
    if |idx| > 1 {
      MatchTail(idx, WithLast(idx, v), 1);
      LastMatches(idx[1..], v);
      assert WithLast(idx, v)[1..] == WithLast(idx[1..], v);
    }
  }

  /** If the key that was found is kept and is narrower, some single member of the new path is at no key. */
  lemma LostPath(keys: set<Path>, idx: Path, found: Path) returns (p: Path)
    requires Disjoint(keys) && (forall a :: a in keys ==> IsPath(a)) && IsPath(idx) && IsFound(keys, idx, found)
    requires IsNarrower(keys, idx, found)
    ensures WILDCARD !in p && MatchFrom(idx, p, 0) && forall k :: k in keys ==> !MatchFrom(k, p, 0)
  {
    var v := NotWidened(keys, idx, found);
    p := WithLast(idx, v);
    LastMatches(idx, v);
    forall k | k in keys
      ensures !MatchFrom(k, p, 0)
    {
      MatchingIff(k, p);
      if m :| Names(k, m) && Names(p, m) {
        OnlyNamed(idx, v, m);
        NamesSame(k, m, MemberOf(idx, v));
      }
    }
  }
}
