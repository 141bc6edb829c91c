/** The few string operations the repository uses, over text whose only whitespace is space, tab, CR and LF. */
module Strings {

  predicate IsSpace(c: char) {
    c == ' ' || c == '\t' || c == '\n' || c == '\r'
  }

  predicate AllSpace(s: string) {
    forall i :: 0 <= i < |s| ==> IsSpace(s[i])
  }

  function StripLeft(s: string): string {
    if s != "" && IsSpace(s[0]) then StripLeft(s[1..]) else s
  }

  function StripRight(s: string): string {
    if s != "" && IsSpace(s[|s| - 1]) then StripRight(s[..|s| - 1]) else s
  }

  /** `str.strip()` */
  function Strip(s: string): string {
    StripRight(StripLeft(s))
  }

  /** Stripping on the left drops whitespace only, and all there is. */
  lemma {:induction false} StripLeftDrops(s: string)
    ensures var r := StripLeft(s);
            |r| <= |s| && r == s[|s| - |r|..] && AllSpace(s[..|s| - |r|]) && (r != "" ==> !IsSpace(r[0]))
  {
    if s != "" && IsSpace(s[0]) {
      StripLeftDrops(s[1..]);
      var n := |s| - |StripLeft(s)|;
      assert forall i :: 0 < i < n ==> s[i] == s[1..][..n - 1][i - 1];
    }
  }

  lemma {:induction false} StripRightDrops(s: string)
    ensures var r := StripRight(s);
            |r| <= |s| && r == s[..|r|] && AllSpace(s[|r|..]) && (r != "" ==> !IsSpace(r[|r| - 1]))
  {
    if s != "" && IsSpace(s[|s| - 1]) {
      var front := s[..|s| - 1];
      StripRightDrops(front);
      var n := |StripRight(s)|;
      assert s[n..] == front[n..] + [s[|s| - 1]];
    }
  }

  lemma StripIsTrimmed(s: string)
    ensures Trimmed(Strip(s)) && |Strip(s)| <= |s|
  {
    var l := StripLeft(s);
    StripLeftDrops(s);
    StripRightDrops(l);
  }

  /** Text that `strip()` leaves alone. */
  predicate Trimmed(s: string) {
    s != "" ==> !IsSpace(s[0]) && !IsSpace(s[|s| - 1])
  }

  lemma StripOfTrimmed(s: string)
    requires Trimmed(s)
    ensures Strip(s) == s
  {
  }

  function UpperChar(c: char): char {
    if 'a' <= c <= 'z' then c - 'a' + 'A' else c
  }

  function LowerChar(c: char): char {
    if 'A' <= c <= 'Z' then c - 'A' + 'a' else c
  }

  /** `str.lower()` on the ASCII letters. */
  function Lower(s: string): string {
    seq(|s|, i requires 0 <= i < |s| => LowerChar(s[i]))
  }

  /** The non-whitespace characters of a text, in order. */
  function Ink(s: string): string {
    if s == "" then ""
    else if IsSpace(s[0]) then Ink(s[1..])
    else [s[0]] + Ink(s[1..])
  }

  lemma {:induction false} InkConcat(a: string, b: string)
    ensures Ink(a + b) == Ink(a) + Ink(b)
  {
    if a == "" {
      assert a + b == b;
    } else {
      assert (a + b)[1..] == a[1..] + b;
      InkConcat(a[1..], b);
    }
  }

  lemma {:induction false} InkOfSpace(s: string)
    requires AllSpace(s)
    ensures Ink(s) == ""
  {
    if s != "" { InkOfSpace(s[1..]); }
  }

  lemma InkStripLeft(s: string)
    ensures Ink(StripLeft(s)) == Ink(s)
  {
    var r := StripLeft(s);
    StripLeftDrops(s);
    assert s == s[..|s| - |r|] + r;
    InkConcat(s[..|s| - |r|], r);
    InkOfSpace(s[..|s| - |r|]);
  }

  lemma InkStripRight(s: string)
    ensures Ink(StripRight(s)) == Ink(s)
  {
    var r := StripRight(s);
    StripRightDrops(s);
    assert s == r + s[|r|..];
    InkConcat(r, s[|r|..]);
    InkOfSpace(s[|r|..]);
  }

  lemma InkStrip(s: string)
    ensures Ink(Strip(s)) == Ink(s)
  {
    InkStripLeft(s);
    InkStripRight(StripLeft(s));
  }

  /** Stripping leaves nothing exactly of text that is all whitespace. */
  lemma StripIsBlank(text: string)
    ensures Strip(text) == "" <==> AllSpace(text)
  {
    InkStrip(text);
    StripIsTrimmed(text);
    if AllSpace(text) { InkOfSpace(text); }
    if Strip(text) != "" { InkHas(Strip(text), 0); }
    forall i | 0 <= i < |text| && !IsSpace(text[i]) ensures Ink(text) != "" { InkHas(text, i); }
  }

  lemma {:induction false} InkHas(text: string, i: nat)
    requires i < |text| && !IsSpace(text[i])
    ensures Ink(text) != ""
  {
    if i > 0 { InkHas(text[1..], i - 1); }
  }
}
