/** What the three tag expressions of the stripper match, for every text. */
module TagExpressions {
  import opened Wrappers
  import opened Strings
  import opened EmailHtml

  /** The characters of a stretch of a text are whitespace. */
  predicate SpaceIn(s: string, i: int, j: int) {
    0 <= i <= j <= |s| && forall k :: i <= k < j ==> IsSpace(s[k])
  }

  lemma {:induction false} Skipped(s: string, i: nat)
    requires i <= |s|
    ensures SpaceIn(s, i, SkipSpace(s, i))
    decreases |s| - i
  {
    if i < |s| && IsSpace(s[i]) { Skipped(s, i + 1); }
  }

  lemma {:induction false} SkipsTo(s: string, i: nat, j: nat)
    requires SpaceIn(s, i, j) && j < |s| && !IsSpace(s[j])
    ensures SkipSpace(s, i) == j
    decreases j - i
  {
    if i < j { SkipsTo(s, i + 1, j); }
  }

  /** `<`, `br` in any case, perhaps a slash, `>`, and whitespace before and after the name and the slash. */
  ghost predicate BreakAt(t: string, i: int, j: int, k: int) {
    1 <= i && i + 2 <= j <= k && k + 1 == |t| && t[0] == '<' && t[k] == '>' && SpaceIn(t, 1, i) &&
    LowerChar(t[i]) == 'b' && LowerChar(t[i + 1]) == 'r' && SpaceIn(t, i + 2, j) &&
    (k == j || (t[j] == '/' && SpaceIn(t, j + 1, k)))
  }

  ghost predicate IsBreak(t: string) {
    exists i, j, k :: BreakAt(t, i, j, k)
  }

  lemma BreakIsFound(s: string, i: nat, j: nat, k: nat)
    requires k < |s| && BreakAt(s[..k + 1], i, j, k)
    ensures MatchBreak(s) == Some(k + 1)
  {
    var t := s[..k + 1];
    assert forall x :: 0 <= x <= k ==> s[x] == t[x];
    SkipsTo(s, 1, i);
    SkipsTo(s, i + 2, j);
    SkipsTo(s, if j == k then k else j + 1, k);
  }

  lemma FoundIsBreak(s: string)
    requires MatchBreak(s).Some?
    ensures MatchBreak(s).value <= |s| && IsBreak(s[..MatchBreak(s).value])
  {
    var i := SkipSpace(s, 1);
    var j := SkipSpace(s, i + 2);
    var j' := if CharAt(s, j, '/') then j + 1 else j;
    var k := SkipSpace(s, j');
    Skipped(s, 1);
    Skipped(s, i + 2);
    Skipped(s, j');
    var t := s[..k + 1];
    assert forall x :: 0 <= x <= k ==> s[x] == t[x];
    assert BreakAt(t, i, j, k);
  }

  /** The break expression matches a text at its start exactly when it starts with a line break tag. */
  lemma BreakIff(s: string, n: nat)
    ensures MatchBreak(s) == Some(n) <==> n <= |s| && IsBreak(s[..n])
  {
    if MatchBreak(s) == Some(n) { FoundIsBreak(s); }
    if n <= |s| && IsBreak(s[..n]) {
      var i, j, k :| BreakAt(s[..n], i, j, k);
      BreakIsFound(s, i, j, k);
    }
  }

  /** The elements that end a block of text, by name. */
  predicate EndsBlock(name: string) {
    name == "p" || name == "div" || name == "tr" || name == "li" ||
    (|name| == 2 && name[0] == 'h' && '1' <= name[1] <= '6')
  }

  /** `</`, a block's name in any case, `>`, and whitespace around the name. */
  ghost predicate BlockEndAt(t: string, i: int, j: int, k: int) {
    2 <= i < j <= k && k + 1 == |t| && t[0] == '<' && t[1] == '/' && t[k] == '>' && SpaceIn(t, 2, i) &&
    EndsBlock(Lower(t[i..j])) && SpaceIn(t, j, k)
  }

  ghost predicate IsBlockEnd(t: string) {
    exists i, j, k :: BlockEndAt(t, i, j, k)
  }

  lemma NameIsFound(s: string, i: nat, j: nat)
    requires i < j <= |s| && EndsBlock(Lower(s[i..j]))
    ensures BlockName(s, i) == j - i
  {
    var name := Lower(s[i..j]);
    assert name[0] == LowerChar(s[i]);
    if |name| > 1 { assert name[1] == LowerChar(s[i + 1]); }
    if |name| > 2 { assert name[2] == LowerChar(s[i + 2]); }
  }

  lemma FoundIsName(s: string, i: nat)
    requires BlockName(s, i) > 0
    ensures EndsBlock(Lower(s[i..i + BlockName(s, i)]))
  {
    var name := Lower(s[i..i + BlockName(s, i)]);
    assert forall k :: 0 <= k < |name| ==> name[k] == LowerChar(s[i + k]);
  }

  lemma BlockEndIsFound(s: string, i: nat, j: nat, k: nat)
    requires k < |s| && BlockEndAt(s[..k + 1], i, j, k)
    ensures MatchBlockEnd(s) == Some(k + 1)
  {
    var t := s[..k + 1];
    assert forall x :: 0 <= x <= k ==> s[x] == t[x];
    assert t[i..j] == s[i..j];
    assert !IsSpace(s[i]) by { assert Lower(t[i..j])[0] == LowerChar(s[i]); }
    SkipsTo(s, 2, i);
    NameIsFound(s, i, j);
    SkipsTo(s, j, k);
  }

  lemma FoundIsBlockEnd(s: string)
    requires MatchBlockEnd(s).Some?
    ensures MatchBlockEnd(s).value <= |s| && IsBlockEnd(s[..MatchBlockEnd(s).value])
  {
    var i := SkipSpace(s, 2);
    var j := i + BlockName(s, i);
    var k := SkipSpace(s, j);
    Skipped(s, 2);
    FoundIsName(s, i);
    Skipped(s, j);
    var t := s[..k + 1];
    assert forall x :: 0 <= x <= k ==> s[x] == t[x];
    assert t[i..j] == s[i..j];
    assert BlockEndAt(t, i, j, k);
  }

  /** The block expression matches a text at its start exactly when it starts with the closing tag of a block. */
  lemma BlockEndIff(s: string, n: nat)
    ensures MatchBlockEnd(s) == Some(n) <==> n <= |s| && IsBlockEnd(s[..n])
  {
    if MatchBlockEnd(s) == Some(n) { FoundIsBlockEnd(s); }
    if n <= |s| && IsBlockEnd(s[..n]) {
      var i, j, k :| BlockEndAt(s[..n], i, j, k);
      BlockEndIsFound(s, i, j, k);
    }
  }

  /** Anything between `<` and the next `>`. */
  predicate IsTag(t: string) {
    |t| > 2 && t[0] == '<' && t[|t| - 1] == '>' && '>' !in t[..|t| - 1]
  }

  /** The tag expression matches a text at its start exactly when it starts with a tag of any name. */
  lemma TagIff(s: string, n: nat)
    ensures MatchTag(s) == Some(n) <==> n <= |s| && IsTag(s[..n])
  {
    if n <= |s| && IsTag(s[..n]) {
      var t := s[..n];
      assert s[1..n - 1] == t[..n - 1][1..] && s[n - 1] == t[n - 1];
      FoundAt(s, 1, n - 1, '>');
    }
    if MatchTag(s) == Some(n) {
      assert s[..n][..n - 1] == [s[0]] + s[1..n - 1];
    }
  }
}
