/** Plain message text: one line normaliser for the timeline and for mail, and the reflow of long
    single-line messages into paragraphs. */
module BodyFormat {
  import opened Strings

  // ---------------------------------------------------------------- lines

  /** `replace("\r\n", "\n")` */
  function ReplaceCrLf(s: string): string {
    if s == "" then ""
    else if |s| >= 2 && s[0] == '\r' && s[1] == '\n' then "\n" + ReplaceCrLf(s[2..])
    else [s[0]] + ReplaceCrLf(s[1..])
  }

  /** `replace("\r", "\n")` */
  function ReplaceCr(s: string): (r: string)
    ensures '\r' !in r
  {
    if s == "" then ""
    else [if s[0] == '\r' then '\n' else s[0]] + ReplaceCr(s[1..])
  }

  /** `split("\n")` */
  function Lines(s: string): (r: seq<string>)
    ensures |r| > 0
    ensures forall k :: 0 <= k < |r| ==> '\n' !in r[k]
    ensures '\r' !in s ==> forall k :: 0 <= k < |r| ==> '\r' !in r[k]
  {
    if s == "" then [""]
    else
      var rest := Lines(s[1..]);
      if s[0] == '\n' then [""] + rest else [[s[0]] + rest[0]] + rest[1..]
  }

  /** `sep.join(parts)` */
  function Join(sep: string, parts: seq<string>): string {
    if parts == [] then ""
    else if |parts| == 1 then parts[0]
    else parts[0] + sep + Join(sep, parts[1..])
  }

  predicate IsBlank(c: char) { c == ' ' || c == '\t' }

  /** `re.sub(r"[ \t]+", " ", s)` */
  function Collapse(s: string): string {
    if s == "" then ""
    else if !IsBlank(s[0]) then [s[0]] + Collapse(s[1..])
    else if |s| >= 2 && IsBlank(s[1]) then Collapse(s[1..])
    else " " + Collapse(s[1..])
  }

  function CleanLine(raw: string): string {
    Strip(Collapse(raw))
  }

  // ---------------------------------------------------------------- the normaliser

  datatype Scanned = Scanned(lines: seq<string>, blank: bool)

  /** One round of the line loop, on the cleaned line. */
  function Take(sc: Scanned, line: string): Scanned {
    if line != "" then Scanned(sc.lines + [line], false)
    else Scanned(if sc.lines != [] && !sc.blank then sc.lines + [""] else sc.lines, true)
  }

  function TakeLines(raws: seq<string>): Scanned {
    if raws == [] then Scanned([], false)
    else Take(TakeLines(raws[..|raws| - 1]), CleanLine(raws[|raws| - 1]))
  }

  function DropFirstEmpty(lines: seq<string>): seq<string> {
    if lines != [] && lines[0] == "" then DropFirstEmpty(lines[1..]) else lines
  }

  function DropLastEmpty(lines: seq<string>): seq<string> {
    if lines != [] && lines[|lines| - 1] == "" then DropLastEmpty(lines[..|lines| - 1]) else lines
  }

  /** The lines that normalize_timeline_newlines joins. */
  function NormalLines(text: string): seq<string> {
    DropLastEmpty(DropFirstEmpty(TakeLines(Lines(ReplaceCr(ReplaceCrLf(text)))).lines))
  }

  function Normalize(text: string): string {
    Join("\n", NormalLines(text))
  }

  /** A line without outer whitespace and with single spaces inside. */
  predicate Neat(line: string) {
    line != "" && !IsSpace(line[0]) && !IsSpace(line[|line| - 1]) && SingleSpaced(line)
  }

  predicate SingleSpaced(line: string) {
    forall i :: 0 <= i < |line| && IsSpace(line[i]) ==> line[i] == ' ' && (i + 1 < |line| ==> !IsSpace(line[i + 1]))
  }

  /** Neat lines with single blank lines between them and none at the ends. */
  ghost predicate NeatLines(lines: seq<string>) {
    (forall k :: 0 <= k < |lines| ==> lines[k] == "" || Neat(lines[k])) &&
    (forall k :: 0 < k < |lines| ==> lines[k] != "" || lines[k - 1] != "") &&
    (lines != [] ==> lines[0] != "" && lines[|lines| - 1] != "")
  }

  /** What the loop has collected. */
  ghost predicate Collected(sc: Scanned) {
    (forall k :: 0 <= k < |sc.lines| ==> sc.lines[k] == "" || Neat(sc.lines[k])) &&
    (forall k :: 0 < k < |sc.lines| ==> sc.lines[k] != "" || sc.lines[k - 1] != "") &&
    (sc.lines != [] ==> sc.lines[0] != "" && (sc.blank <==> sc.lines[|sc.lines| - 1] == ""))
  }

  lemma {:induction false} CollapseSpaces(s: string)
    requires '\r' !in s && '\n' !in s
    ensures SingleSpaced(Collapse(s)) && '\r' !in Collapse(s) && '\n' !in Collapse(s)
    ensures s != "" ==> Collapse(s) != "" && (IsSpace(Collapse(s)[0]) <==> IsBlank(s[0]))
  {
    if s != "" {
      assert s == [s[0]] + s[1..];
      CollapseSpaces(s[1..]);
    }
  }

  lemma SlicesAreSpaced(s: string, r: string, from: nat)
    requires SingleSpaced(s) && from + |r| <= |s| && r == s[from..from + |r|]
    ensures SingleSpaced(r)
  {
    assert forall i :: 0 <= i < |r| ==> r[i] == s[from + i];
  }

  lemma CleanLineIsNeat(raw: string)
    requires '\r' !in raw && '\n' !in raw
    ensures CleanLine(raw) == "" || Neat(CleanLine(raw))
  {
    CollapseSpaces(raw);
    StripIsSpaced(Collapse(raw));
    StripIsTrimmed(Collapse(raw));
  }

  lemma StripIsSpaced(c: string)
    requires SingleSpaced(c)
    ensures SingleSpaced(Strip(c))
  {
    var l := StripLeft(c);
    StripLeftDrops(c);
    StripRightDrops(l);
    SlicesAreSpaced(c, l, |c| - |l|);
    SlicesAreSpaced(l, StripRight(l), 0);
  }

  lemma TakeKeepsCollected(sc: Scanned, line: string)
    requires Collected(sc) && (line == "" || Neat(line))
    ensures Collected(Take(sc, line))
  {
  }

  lemma {:induction false} TakenIsCollected(raws: seq<string>)
    requires forall k :: 0 <= k < |raws| ==> '\r' !in raws[k] && '\n' !in raws[k]
    ensures Collected(TakeLines(raws))
  {
    if raws != [] {
      TakenIsCollected(raws[..|raws| - 1]);
      CleanLineIsNeat(raws[|raws| - 1]);
      TakeKeepsCollected(TakeLines(raws[..|raws| - 1]), CleanLine(raws[|raws| - 1]));
    }
  }

  lemma CollectedIsNeat(sc: Scanned)
    requires Collected(sc)
    ensures NeatLines(DropLastEmpty(DropFirstEmpty(sc.lines)))
  {
    var lines := sc.lines;
    assert DropFirstEmpty(lines) == lines;
    if lines != [] && lines[|lines| - 1] == "" {
      var front := lines[..|lines| - 1];
      assert lines[|lines| - 2] != "";
      assert DropLastEmpty(front) == front;
    }
  }

  /** The normalised text has no leading, trailing or doubled blank line, and every other line is
      trimmed with single spaces. */
  lemma NormalLinesAreNeat(text: string)
    ensures NeatLines(NormalLines(text))
  {
    var raws := Lines(ReplaceCr(ReplaceCrLf(text)));
    TakenIsCollected(raws);
    CollectedIsNeat(TakeLines(raws));
  }

  // ---------------------------------------------------------------- normal text stays as it is

  lemma {:induction false} CollapseOfNeat(s: string)
    requires SingleSpaced(s)
    ensures Collapse(s) == s
  {
    if s != "" {
      assert s == [s[0]] + s[1..];
      assert SingleSpaced(s[1..]);
      CollapseOfNeat(s[1..]);
    }
  }

  lemma CleanLineOfNeat(s: string)
    requires s == "" || Neat(s)
    ensures CleanLine(s) == s
  {
    CollapseOfNeat(s);
    StripOfTrimmed(s);
  }

  lemma TakeNeatLine(lines: seq<string>, n: nat)
    requires NeatLines(lines) && 0 < n <= |lines|
    ensures Take(Scanned(lines[..n - 1], n > 1 && lines[n - 2] == ""), lines[n - 1]) ==
            Scanned(lines[..n], lines[n - 1] == "")
  {
    assert lines[..n] == lines[..n - 1] + [lines[n - 1]];
  }

  lemma {:induction false} TakeNeatLines(lines: seq<string>, n: nat)
    requires NeatLines(lines) && n <= |lines|
    ensures TakeLines(lines[..n]) == Scanned(lines[..n], n > 0 && lines[n - 1] == "")
  {
    if n > 0 {
      TakeNeatLines(lines, n - 1);
      assert lines[..n][..n - 1] == lines[..n - 1];
      CleanLineOfNeat(lines[n - 1]);
      TakeNeatLine(lines, n);
    }
  }

  lemma {:induction false} LinesOfPlain(a: string)
    requires '\n' !in a
    ensures Lines(a) == [a]
  {
    if a != "" {
      assert a == [a[0]] + a[1..];
      LinesOfPlain(a[1..]);
    }
  }

  lemma {:induction false} LinesOfConcat(a: string, b: string)
    requires '\n' !in a
    ensures Lines(a + "\n" + b) == [a] + Lines(b)
  {
    var s := a + "\n" + b;
    if a == "" {
      assert s[1..] == b;
    } else {
      assert a == [a[0]] + a[1..];
      assert s[1..] == a[1..] + "\n" + b;
      LinesOfConcat(a[1..], b);
    }
  }

  lemma {:induction false} LinesOfJoin(lines: seq<string>)
    requires lines != [] && forall k :: 0 <= k < |lines| ==> '\n' !in lines[k]
    ensures Lines(Join("\n", lines)) == lines
  {
    if |lines| == 1 {
      LinesOfPlain(lines[0]);
    } else {
      LinesOfJoin(lines[1..]);
      LinesOfConcat(lines[0], Join("\n", lines[1..]));
    }
  }

  lemma {:induction false} NoCarriageReturn(s: string)
    requires '\r' !in s
    ensures ReplaceCrLf(s) == s && ReplaceCr(s) == s
  {
    if s != "" {
      assert s == [s[0]] + s[1..];
      NoCarriageReturn(s[1..]);
    }
  }

  lemma {:induction false} JoinAvoids(sep: string, parts: seq<string>, c: char)
    requires c !in sep && forall k :: 0 <= k < |parts| ==> c !in parts[k]
    ensures c !in Join(sep, parts)
  {
    if |parts| > 1 { JoinAvoids(sep, parts[1..], c); }
  }

  lemma NeatLinesAreUnix(lines: seq<string>)
    requires NeatLines(lines)
    ensures forall k :: 0 <= k < |lines| ==> '\r' !in lines[k] && '\n' !in lines[k]
  {
    forall k | 0 <= k < |lines| ensures '\r' !in lines[k] && '\n' !in lines[k] {
      assert lines[k] == "" || SingleSpaced(lines[k]);
    }
  }

  lemma NeatLinesStay(lines: seq<string>)
    requires NeatLines(lines)
    ensures DropLastEmpty(DropFirstEmpty(TakeLines(lines).lines)) == lines
  {
    TakeNeatLines(lines, |lines|);
    assert lines[..|lines|] == lines;
    assert DropFirstEmpty(lines) == lines;
  }

  /** Neat lines are what normalising their text gives back. */
  lemma NeatLinesAreNormal(lines: seq<string>)
    requires NeatLines(lines)
    ensures NormalLines(Join("\n", lines)) == lines
  {
    var text := Join("\n", lines);
    NeatLinesAreUnix(lines);
    JoinAvoids("\n", lines, '\r');
    NoCarriageReturn(text);
    NeatLinesStay(lines);
    if lines == [] {
      EmptyLineVanishes();
    } else {
      LinesOfJoin(lines);
    }
  }

  lemma EmptyLineVanishes()
    ensures Lines("") == [""] && TakeLines([""]).lines == []
  {
    assert [""][..0] == [];
    assert CleanLine("") == "";
  }

  /** So the lines of the normalised text itself are neat. */
  lemma LinesOfNormalized(text: string)
    ensures var lines := Lines(Normalize(text)); lines == [""] || (lines == NormalLines(text) && NeatLines(lines))
  {
    NormalLinesAreNeat(text);
    var lines := NormalLines(text);
    if lines != [] {
      NeatLinesAreUnix(lines);
      LinesOfJoin(lines);
    }
  }

  lemma NormalizeIsIdempotent(text: string)
    ensures Normalize(Normalize(text)) == Normalize(text)
  {
    NormalLinesAreNeat(text);
    NeatLinesAreNormal(NormalLines(text));
  }

  // ---------------------------------------------------------------- nothing but whitespace is touched

  /** The non-whitespace characters of all the parts, in order. */
  function InkOf(parts: seq<string>): string {
    if parts == [] then "" else Ink(parts[0]) + InkOf(parts[1..])
  }

  lemma {:induction false} InkOfConcat(a: seq<string>, b: seq<string>)
    ensures InkOf(a + b) == InkOf(a) + InkOf(b)
  {
    if a == [] {
      assert a + b == b;
    } else {
      assert (a + b)[1..] == a[1..] + b;
      InkOfConcat(a[1..], b);
    }
  }

  lemma {:induction false} InkOfJoin(sep: string, parts: seq<string>)
    requires AllSpace(sep)
    ensures Ink(Join(sep, parts)) == InkOf(parts)
  {
    if |parts| == 1 {
      assert InkOf(parts[1..]) == "";
    } else if |parts| > 1 {
      InkOfJoin(sep, parts[1..]);
      InkOfSpace(sep);
      InkConcat(parts[0], sep);
      InkConcat(parts[0] + sep, Join(sep, parts[1..]));
    }
  }

  lemma {:induction false} InkOfLines(s: string)
    ensures InkOf(Lines(s)) == Ink(s)
  {
    if s != "" {
      var rest := Lines(s[1..]);
      InkOfLines(s[1..]);
      if s[0] == '\n' {
        assert ([""] + rest)[1..] == rest;
      } else {
        InkConcat([s[0]], rest[0]);
        assert [s[0]][1..] == "";
      }
    }
  }

  lemma {:induction false} InkOfReplaced(s: string)
    ensures Ink(ReplaceCr(s)) == Ink(s) && Ink(ReplaceCrLf(s)) == Ink(s)
  {
    if s != "" {
      InkOfReplaced(s[1..]);
      if |s| >= 2 { InkOfReplaced(s[2..]); assert s[1..][1..] == s[2..]; }
    }
  }

  lemma {:induction false} InkOfCollapsed(s: string)
    ensures Ink(Collapse(s)) == Ink(s)
  {
    if s != "" { InkOfCollapsed(s[1..]); }
  }

  lemma InkOfClean(raw: string)
    ensures Ink(CleanLine(raw)) == Ink(raw)
  {
    InkOfCollapsed(raw);
    InkStrip(Collapse(raw));
  }

  lemma InkOfOne(s: string)
    ensures InkOf([s]) == Ink(s)
  {
    assert InkOf([s][1..]) == "";
  }

  lemma InkOfSnoc(front: seq<string>, last: string)
    ensures InkOf(front + [last]) == InkOf(front) + Ink(last)
  {
    InkOfConcat(front, [last]);
    InkOfOne(last);
  }

  lemma InkOfTake(sc: Scanned, line: string)
    ensures InkOf(Take(sc, line).lines) == InkOf(sc.lines) + Ink(line)
  {
    InkOfSnoc(sc.lines, line);
  }

  lemma {:induction false} InkOfTaken(raws: seq<string>)
    ensures InkOf(TakeLines(raws).lines) == InkOf(raws)
  {
    if raws != [] {
      var n := |raws| - 1;
      InkOfTaken(raws[..n]);
      InkOfClean(raws[n]);
      InkOfTake(TakeLines(raws[..n]), CleanLine(raws[n]));
      InkOfSnoc(raws[..n], raws[n]);
      assert raws == raws[..n] + [raws[n]];
    }
  }

  lemma {:induction false} InkOfDropped(lines: seq<string>)
    ensures InkOf(DropFirstEmpty(lines)) == InkOf(lines) && InkOf(DropLastEmpty(lines)) == InkOf(lines)
  {
    if lines != [] {
      var n := |lines| - 1;
      if lines[0] == "" { InkOfDropped(lines[1..]); }
      if lines[n] == "" {
        InkOfDropped(lines[..n]);
        InkOfConcat(lines[..n], [lines[n]]);
        InkOfOne(lines[n]);
        assert lines == lines[..n] + [lines[n]];
      }
    }
  }

  /** Normalising keeps every non-whitespace character, in order. */
  lemma NormalizeKeepsInk(text: string)
    ensures Ink(Normalize(text)) == Ink(text) && InkOf(NormalLines(text)) == Ink(text)
  {
    var unix := ReplaceCr(ReplaceCrLf(text));
    var taken := TakeLines(Lines(unix)).lines;
    InkOfReplaced(text);
    InkOfReplaced(ReplaceCrLf(text));
    InkOfLines(unix);
    InkOfTaken(Lines(unix));
    InkOfDropped(taken);
    InkOfDropped(DropFirstEmpty(taken));
    InkOfJoin("\n", NormalLines(text));
  }

  /** normalize_timeline_newlines */
  method NormalizeTimelineNewlines(text: string) returns (r: string)
    ensures r == Normalize(text)
  {
    var raws := Lines(ReplaceCr(ReplaceCrLf(text)));
    var lines, blank := [], false;
    for i := 0 to |raws|
      invariant Scanned(lines, blank) == TakeLines(raws[..i])
    {
      assert raws[..i + 1][..i] == raws[..i];
      var line := CleanLine(raws[i]);
      if line == "" {
        if lines != [] && !blank { lines := lines + [""]; }
        blank := true;
        continue;
      }
      blank := false;
      lines := lines + [line];
    }
    assert raws[..|raws|] == raws;
    ghost var taken := lines;
    while lines != [] && lines[0] == ""
      invariant DropFirstEmpty(lines) == DropFirstEmpty(taken)
      decreases |lines|
    {
      lines := lines[1..];
    }
    taken := lines;
    while lines != [] && lines[|lines| - 1] == ""
      invariant DropLastEmpty(lines) == DropLastEmpty(taken)
      decreases |lines|
    {
      lines := lines[..|lines| - 1];
    }
    r := Join("\n", lines);
  }
}
