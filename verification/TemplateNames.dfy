/**
Template arguments are stripped from function names by one scan, which starts over behind a `<` that
turns out to have no partner.
*/
module TemplateNames {
  /** Where the bracket is closed: the position behind the `>` that brings the nesting back to zero. */
  function CloseFrom(s: string, i: nat, level: nat): (j: int)
    requires i <= |s| && level > 0
    ensures j == -1 || i < j <= |s|
    decreases |s| - i
  {
    if i == |s| then -1
    else if s[i] == '<' then CloseFrom(s, i + 1, level + 1)
    else if s[i] == '>' && level == 1 then i + 1
    else if s[i] == '>' then CloseFrom(s, i + 1, level - 1)
    else CloseFrom(s, i + 1, level)
  }

  /** The position behind the partner of the `<` at i, or -1. */
  function Close(s: string, i: nat): (j: int)
    requires i < |s|
    ensures j == -1 || i + 1 < j <= |s|
  {
    CloseFrom(s, i + 1, 1)
  }

  /** How many more `<` than `>` there are in s[i..j]. */
  function Depth(s: string, i: nat, j: nat): int
    requires i <= j <= |s|
    decreases j - i
  {
    if i == j then 0 else (if s[i] == '<' then 1 else if s[i] == '>' then -1 else 0) + Depth(s, i + 1, j)
  }

  /** The closing position is the first at which there are as many `>` as `<`; if there is none, then
      the `<` are more everywhere. */
  lemma {:induction false} CloseIsFirst(s: string, i: nat, level: nat)
    requires i <= |s| && level > 0
    ensures var j := CloseFrom(s, i, level);
            && (j != -1 ==> level + Depth(s, i, j) == 0)
            && forall n: nat :: i <= n <= |s| && (j == -1 || n < j) ==> level + Depth(s, i, n) > 0
    decreases |s| - i
  {
    if i < |s| {
      if s[i] == '<' {
        CloseIsFirst(s, i + 1, level + 1);
      } else if s[i] != '>' {
        CloseIsFirst(s, i + 1, level);
      } else if level > 1 {
        CloseIsFirst(s, i + 1, level - 1);
      }
    }
  }

  /** What is cut out with a `<` is balanced, and no shorter piece is; a `<` is without a partner exactly if
      no piece that begins with it is balanced. */
  lemma CutIsBalanced(s: string, i: nat)
    requires i < |s| && s[i] == '<'
    ensures var j := Close(s, i);
            && (j != -1 ==> Depth(s, i, j) == 0)
            && forall n: nat :: i < n <= |s| && (j == -1 || n < j) ==> Depth(s, i, n) > 0
  {
    CloseIsFirst(s, i + 1, 1);
    forall n: nat | i < n <= |s|
      ensures Depth(s, i, n) == 1 + Depth(s, i + 1, n)
    {
    }
  }

  /** The name without template arguments: matched brackets go with all that is in them, other
      characters stay. */
  function Stripped(s: string, i: nat): string
    requires i <= |s|
    decreases |s| - i
  {
    if i == |s| then ""
    else if s[i] == '<' && Close(s, i) != -1 then Stripped(s, Close(s, i))
    else [s[i]] + Stripped(s, i + 1)
  }

  /** What the scan returns when text is pending since e and the scan is at i, outside brackets. */
  function Scanned(s: string, e: nat, i: nat): string
    requires e <= i <= |s|
    decreases |s| - i
  {
    if i == |s| then s[e..]
    else if s[i] != '<' then Scanned(s, e, i + 1)
    else if Close(s, i) != -1 then s[e..i] + Scanned(s, Close(s, i), Close(s, i))
    else s[e..i] + Scanned(s, e, i + 1)  // the pending text is taken, and stays pending
  }

  /** The scan is outside brackets. */
  ghost predicate Outside(s: string, result: string, e: nat, i: nat) {
    e <= i <= |s| && result + Scanned(s, e, i) == Scanned(s, 0, 0)
  }

  /** The scan is inside the bracket that was opened at `start`, when `before` was the result. */
  ghost predicate Within(s: string, result: string, before: string, e: nat, start: nat, i: nat, level: nat) {
    && e <= start < i <= |s| && level > 0 && s[start] == '<' && Close(s, start) == CloseFrom(s, i, level)
    && result == before + s[e..start] && before + Scanned(s, e, start) == Scanned(s, 0, 0)
  }

  lemma Opens(s: string, result: string, e: nat, i: nat)
    requires Outside(s, result, e, i) && i < |s| && s[i] == '<'
    ensures Within(s, result + s[e..i], result, e, i, i + 1, 1)
  {
  }

  lemma Closes(s: string, result: string, before: string, e: nat, start: nat, i: nat)
    requires Within(s, result, before, e, start, i, 1) && i < |s| && s[i] == '>'
    ensures Outside(s, result, i + 1, i + 1)
  {
    assert before + (s[e..start] + Scanned(s, i + 1, i + 1)) == result + Scanned(s, i + 1, i + 1);
  }

  lemma HasNoPartner(s: string, result: string, before: string, e: nat, start: nat, level: nat)
    requires Within(s, result, before, e, start, |s|, level)
    ensures Outside(s, result, e, start + 1)
  {
    assert before + (s[e..start] + Scanned(s, e, start + 1)) == result + Scanned(s, e, start + 1);
  }

  method GetNameWithoutTemplates(name: string) returns (result: string)
    ensures result == Scanned(name, 0, 0)
  {
    var pos, endPos, startPos: nat := 0, 0, 0;
    var nesting: nat := 0;
    result := "";
    ghost var restart, before := 0, "";
    while pos != |name|
      invariant restart <= pos <= |name| && endPos <= pos
      invariant nesting == 0 ==> Outside(name, result, endPos, pos)
      invariant nesting > 0 ==>
                  Within(name, result, before, endPos, startPos, pos, nesting) && pos < |name| && restart <= startPos
      decreases |name| - restart, |name| - pos
    {
      if name[pos] == '<' {
        if nesting == 0 {
          Opens(name, result, endPos, pos);
          startPos, before := pos, result;
          result := result + name[endPos..pos];
        }
        nesting := nesting + 1;
      } else if name[pos] == '>' && nesting > 0 {  // outside brackets a `>` belongs to an operator
        nesting := nesting - 1;
        if nesting == 0 {
          Closes(name, result, before, endPos, startPos, pos);
          endPos := pos + 1;
        }
      }
      pos := pos + 1;
      // the bracket has no partner: ignore it and start over behind it
      if pos == |name| && nesting != 0 {
        HasNoPartner(name, result, before, endPos, startPos, nesting);
        nesting := 0;
        pos := startPos + 1;
        restart := pos;
      }
    }
    result := result + name[endPos..pos];
  }

  // ---------------------------------------------------------------- when the scan is right

  /** Brackets without partner are met only when no text is pending. */
  predicate RestartsClean(s: string, e: nat, i: nat)
    requires e <= i <= |s|
    decreases |s| - i
  {
    if i == |s| then true
    else if s[i] != '<' then RestartsClean(s, e, i + 1)
    else if Close(s, i) != -1 then RestartsClean(s, Close(s, i), Close(s, i))
    else e == i && RestartsClean(s, e, i + 1)
  }

  lemma {:induction false} ScannedLength(s: string, e: nat, i: nat)
    requires e <= i <= |s|
    ensures |Scanned(s, e, i)| >= |s[e..i] + Stripped(s, i)|
    ensures RestartsClean(s, e, i) ==> Scanned(s, e, i) == s[e..i] + Stripped(s, i)
    ensures !RestartsClean(s, e, i) ==> |Scanned(s, e, i)| > |s[e..i] + Stripped(s, i)|
    decreases |s| - i
  {
    if i == |s| {
      assert s[e..i] == s[e..];
    } else if s[i] == '<' && Close(s, i) != -1 {
      var c := Close(s, i);
      ScannedLength(s, c, c);
      assert s[c..c] + Stripped(s, c) == Stripped(s, c);
    } else {
      ScannedLength(s, e, i + 1);
      Regroup(s, e, i, Stripped(s, i + 1));
    }
  }

  lemma Regroup(s: string, e: nat, i: nat, rest: string)
    requires e <= i < |s|
    ensures s[e..i + 1] + rest == s[e..i] + ([s[i]] + rest)
    ensures e == i ==> s[e..i] + (s[e..i + 1] + rest) == s[e..i + 1] + rest
  {
    assert s[e..i + 1] == s[e..i] + [s[i]];
  }

  /** The result is the name without template arguments if and only if no `<` without a partner is
      met while text is pending; otherwise that text is returned twice. */
  lemma StrippedIff(s: string)
    ensures Scanned(s, 0, 0) == Stripped(s, 0) <==> RestartsClean(s, 0, 0)
  {
    ScannedLength(s, 0, 0);
  }

  /** Every `<` outside brackets has a partner. */
  predicate AllMatched(s: string, i: nat)
    requires i <= |s|
    decreases |s| - i
  {
    if i == |s| then true
    else if s[i] != '<' then AllMatched(s, i + 1)
    else Close(s, i) != -1 && AllMatched(s, Close(s, i))
  }

  lemma {:induction false} MatchedIsClean(s: string, e: nat, i: nat)
    requires e <= i <= |s| && AllMatched(s, i)
    ensures RestartsClean(s, e, i)
    decreases |s| - i
  {
    if i < |s| {
      if s[i] == '<' {
        MatchedIsClean(s, Close(s, i), Close(s, i));
      } else {
        MatchedIsClean(s, e, i + 1);
      }
    }
  }

  /** That is, no `<` is left when matched brackets have been cut out. */
  lemma {:induction false} AllMatchedIff(s: string, i: nat)
    requires i <= |s|
    ensures AllMatched(s, i) <==> '<' !in Stripped(s, i)
    decreases |s| - i
  {
    if i < |s| {
      if s[i] == '<' && Close(s, i) != -1 {
        AllMatchedIff(s, Close(s, i));
      } else {
        AllMatchedIff(s, i + 1);
      }
    }
  }

  lemma {:induction false} NothingToStrip(s: string, e: nat, i: nat)
    requires e <= i <= |s| && '<' !in s
    ensures Scanned(s, e, i) == s[e..]
    decreases |s| - i
  {
    if i < |s| {
      assert s[i] in s;
      NothingToStrip(s, e, i + 1);
    }
  }

  /** If every `<` has a partner, a second application changes nothing. */
  lemma Idempotent(s: string)
    requires AllMatched(s, 0)
    ensures Scanned(s, 0, 0) == Stripped(s, 0) && Scanned(Scanned(s, 0, 0), 0, 0) == Scanned(s, 0, 0)
  {
    MatchedIsClean(s, 0, 0);
    AllMatchedIff(s, 0);
    StrippedIff(s);
    NothingToStrip(Stripped(s, 0), 0, 0);
  }

  /** The operator that the special case is there for: its name is returned twice. */
  lemma OperatorIsDoubled()
    ensures Scanned("f<", 0, 0) == "ff<"
  {
    var s := "f<";
    assert Close(s, 1) == -1;
    assert Scanned(s, 0, 2) == s[0..];
    assert Scanned(s, 0, 1) == s[0..1] + Scanned(s, 0, 2);
  }
}
