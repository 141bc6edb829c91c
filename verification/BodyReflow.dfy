/** Outbound plain text: the reflow of one long line into paragraphs, and what it does not touch. */
module BodyReflow {
  import opened Wrappers
  import opened Strings
  import opened BodyFormat

  const REFLOW_FROM: nat := 120
  const BLOCK_SIZE: nat := 180

  /** A range of a text that a regular expression matched as whitespace. */
  datatype Cut = Cut(from: nat, to: nat)

  /** Where the language rules see the end of a greeting, sentence breaks and the start of a
      signature; any recognisers that cut only at whitespace. */
  datatype Splitters = Splitters(greeting: string -> Option<Cut>, sentences: string -> seq<Cut>,
                                 signature: string -> Option<nat>)

  predicate CutOk(t: string, c: Cut) {
    c.from < c.to <= |t| && forall i :: c.from <= i < c.to ==> IsSpace(t[i])
  }

  predicate CutsOk(t: string, cuts: seq<Cut>) {
    (forall k :: 0 <= k < |cuts| ==> CutOk(t, cuts[k])) &&
    forall k :: 0 < k < |cuts| ==> cuts[k - 1].to <= cuts[k].from
  }

  ghost predicate CutsAtSpace(sp: Splitters) {
    (forall t :: sp.greeting(t).Some? ==> CutOk(t, sp.greeting(t).value)) &&
    (forall t :: CutsOk(t, sp.sentences(t))) &&
    (forall t :: sp.signature(t).Some? ==> sp.signature(t).value < |t| && IsSpace(t[sp.signature(t).value]))
  }

  // ---------------------------------------------------------------- the reflow

  /** `re.split`: what lies between the cuts from number k on, beginning at `start`. */
  function Pieces(t: string, cuts: seq<Cut>, k: nat, start: nat): seq<string>
    requires CutsOk(t, cuts) && k <= |cuts| && start <= |t|
    requires k < |cuts| ==> start <= cuts[k].from
    decreases |cuts| - k
  {
    if k == |cuts| then [t[start..]]
    else [t[start..cuts[k].from]] + Pieces(t, cuts, k + 1, cuts[k].to)
  }

  datatype Blocks = Blocks(parts: seq<string>, block: seq<string>)

  /** One round of the sentence loop, on the stripped sentence. */
  function TakeSentence(b: Blocks, sentence: string): Blocks {
    if sentence == "" then b
    else
      var block := b.block + [sentence];
      if |Join(" ", block)| >= BLOCK_SIZE then Blocks(b.parts + [Join(" ", block)], []) else Blocks(b.parts, block)
  }

  function TakeSentences(parts: seq<string>, sentences: seq<string>): Blocks {
    if sentences == [] then Blocks(parts, [])
    else TakeSentence(TakeSentences(parts, sentences[..|sentences| - 1]), Strip(sentences[|sentences| - 1]))
  }

  function Closed(b: Blocks): seq<string> {
    if b.block == [] then b.parts else b.parts + [Join(" ", b.block)]
  }

  function SentenceParts(sp: Splitters, parts: seq<string>, rest: string): seq<string>
    requires CutsAtSpace(sp)
  {
    var sentences := Pieces(rest, sp.sentences(rest), 0, 0);
    if |sentences| <= 1 then parts + [rest] else Closed(TakeSentences(parts, sentences))
  }

  /** Cut the signature off the last part. */
  function SignatureParts(sp: Splitters, parts: seq<string>): seq<string>
    requires CutsAtSpace(sp) && parts != []
  {
    var n := |parts| - 1;
    match sp.signature(parts[n])
    case None => parts
    case Some(v) =>
      var main, signature := Strip(parts[n][..v]), Strip(parts[n][v..]);
      (if main != "" then parts[..n] + [main] else parts[..n]) + (if signature != "" then [signature] else [])
  }

  function NonEmpty(parts: seq<string>): seq<string> {
    if parts == [] then [] else (if parts[0] != "" then [parts[0]] else []) + NonEmpty(parts[1..])
  }

  /** What the greeting leaves: the parts so far and the rest. */
  function GreetingParts(sp: Splitters, t: string): (seq<string>, string)
    requires CutsAtSpace(sp)
  {
    match sp.greeting(t)
    case None => ([], t)
    case Some(c) => ([Strip(t[..c.from])], Strip(t[c.to..]))
  }

  /** _reflow_single_line_paragraphs. With no sentences at all the signature search would look at the
      rest instead of the last part and change nothing. */
  function Reflow(sp: Splitters, text: string): string
    requires CutsAtSpace(sp)
  {
    if text == "" || '\n' in text || |text| < REFLOW_FROM then text
    else
      var (parts, rest) := GreetingParts(sp, Strip(text));
      if rest == "" then (if parts != [] then Join("\n\n", parts) else text)
      else
        var all := SentenceParts(sp, parts, rest);
        Join("\n\n", NonEmpty(if all == [] then [] else SignatureParts(sp, all)))
  }

  function CountBreaks(s: string): nat {
    if s == "" then 0 else (if s[0] == '\n' then 1 else 0) + CountBreaks(s[1..])
  }

  /** normalize_outbound_plain_text */
  function Outbound(sp: Splitters, text: string): string
    requires CutsAtSpace(sp)
  {
    Reflowed(sp, Normalize(text))
  }

  /** What is done to normalised text: one without a blank line is reflowed and normalised again. */
  function Reflowed(sp: Splitters, cleaned: string): string
    requires CutsAtSpace(sp)
  {
    if CountBreaks(cleaned) < 2 then Normalize(Reflow(sp, cleaned)) else cleaned
  }

  // ---------------------------------------------------------------- cuts in a neat line

  /** Neat parts that give the line back when they are joined by single spaces. */
  ghost predicate PartsOf(parts: seq<string>, line: string) {
    parts != [] && (forall k :: 0 <= k < |parts| ==> Neat(parts[k])) && Join(" ", parts) == line
  }

  lemma NextIsInk(t: string, i: nat)
    requires Neat(t) && i < |t| && IsSpace(t[i])
    ensures t[i] == ' ' && 0 < i && i + 1 < |t| && !IsSpace(t[i + 1]) && !IsSpace(t[i - 1])
  {
    var j := i - 1;
    assert !IsSpace(t[j]);
  }

  /** A whitespace range inside a neat line is one space with neat text on both sides. */
  lemma NeatCut(t: string, c: Cut)
    requires Neat(t) && CutOk(t, c)
    ensures c.to == c.from + 1 && t[c.from] == ' ' && 0 < c.from && c.to < |t|
    ensures Neat(t[..c.from]) && Neat(t[c.to..])
    ensures t == t[..c.from] + " " + t[c.to..]
  {
    NextIsInk(t, c.from);
    SlicesAreSpaced(t, t[..c.from], 0);
    SlicesAreSpaced(t, t[c.to..], c.to);
  }

  lemma JoinCons(sep: string, first: string, rest: seq<string>)
    requires rest != []
    ensures Join(sep, [first] + rest) == first + sep + Join(sep, rest)
  {
    assert ([first] + rest)[1..] == rest;
  }

  lemma {:induction false} JoinConcat(sep: string, a: seq<string>, b: seq<string>)
    requires a != [] && b != []
    ensures Join(sep, a + b) == Join(sep, a) + sep + Join(sep, b)
  {
    if |a| == 1 {
      assert a == [a[0]];
      JoinCons(sep, a[0], b);
    } else {
      JoinConcat(sep, a[1..], b);
      assert a == [a[0]] + a[1..] && a + b == [a[0]] + (a[1..] + b);
      JoinCons(sep, a[0], a[1..] + b);
      JoinCons(sep, a[0], a[1..]);
      assert a[0] + sep + (Join(sep, a[1..]) + sep + Join(sep, b)) ==
             (a[0] + sep + Join(sep, a[1..])) + sep + Join(sep, b);
    }
  }

  lemma NeatSuffixCut(t: string, start: nat, c: Cut)
    requires Neat(t) && CutOk(t, c) && start < c.from && Neat(t[start..])
    ensures Neat(t[start..c.from]) && c.to < |t| && Neat(t[c.to..])
    ensures t[start..] == t[start..c.from] + " " + t[c.to..]
  {
    NeatCut(t, c);
    SlicesAreSpaced(t, t[start..c.from], start);
  }

  lemma PartsCons(first: string, rest: seq<string>, line: string)
    requires Neat(first) && PartsOf(rest, line)
    ensures PartsOf([first] + rest, first + " " + line)
  {
    JoinCons(" ", first, rest);
  }

  lemma {:induction false} NeatPieces(t: string, cuts: seq<Cut>, k: nat, start: nat)
    requires Neat(t) && CutsOk(t, cuts) && k <= |cuts| && start < |t| && Neat(t[start..])
    requires k < |cuts| ==> start < cuts[k].from
    ensures PartsOf(Pieces(t, cuts, k, start), t[start..])
    decreases |cuts| - k
  {
    if k < |cuts| {
      var c := cuts[k];
      NeatSuffixCut(t, start, c);
      if k + 1 < |cuts| { NeatGap(t, c, cuts[k + 1]); }
      NeatPieces(t, cuts, k + 1, c.to);
      PartsCons(t[start..c.from], Pieces(t, cuts, k + 1, c.to), t[c.to..]);
    }
  }

  /** Two whitespace ranges of a neat line do not touch. */
  lemma NeatGap(t: string, c: Cut, d: Cut)
    requires Neat(t) && CutOk(t, c) && CutOk(t, d) && c.to <= d.from
    ensures c.to < d.from
  {
    NeatCut(t, c);
    assert IsSpace(t[c.from]) && IsSpace(t[d.from]);
  }

  lemma FirstCut(t: string, cuts: seq<Cut>)
    requires Neat(t) && CutsOk(t, cuts)
    ensures PartsOf(Pieces(t, cuts, 0, 0), t)
  {
    assert t[0..] == t;
    if cuts != [] { NeatCut(t, cuts[0]); }
    NeatPieces(t, cuts, 0, 0);
  }

  // ---------------------------------------------------------------- the parts of the reflow

  /** Joining neat parts by single spaces gives a neat line. */
  lemma {:induction false} JoinIsNeat(parts: seq<string>)
    requires parts != [] && forall k :: 0 <= k < |parts| ==> Neat(parts[k])
    ensures Neat(Join(" ", parts))
  {
    if |parts| > 1 {
      JoinIsNeat(parts[1..]);
      NeatPair(parts[0], Join(" ", parts[1..]));
    }
  }

  lemma NeatPair(a: string, b: string)
    requires Neat(a) && Neat(b)
    ensures Neat(a + " " + b)
  {
    var s := a + " " + b;
    assert forall i :: 0 <= i < |a| ==> s[i] == a[i];
    assert s[|a|] == ' ';
    assert forall i :: 0 <= i < |b| ==> s[|a| + 1 + i] == b[i];
  }

  lemma StripOfNeat(s: string)
    requires Neat(s)
    ensures Strip(s) == s
  {
    StripOfTrimmed(s);
  }

  /** The blocks so far and the open block are parts of what was read. */
  ghost predicate BlocksOf(b: Blocks, parts: seq<string>, read: seq<string>) {
    (forall k :: 0 <= k < |b.parts| ==> Neat(b.parts[k])) && (forall k :: 0 <= k < |b.block| ==> Neat(b.block[k])) &&
    Join(" ", b.parts + b.block) == Join(" ", parts + read) && (parts + read == [] <==> b.parts + b.block == [])
  }

  lemma JoinSnoc(front: seq<string>, last: string)
    ensures Join(" ", front + [last]) == if front == [] then last else Join(" ", front) + " " + last
  {
    if front == [] {
      assert front + [last] == [last];
    } else {
      JoinConcat(" ", front, [last]);
    }
  }

  lemma JoinGrouped(front: seq<string>, block: seq<string>)
    requires block != []
    ensures Join(" ", front + [Join(" ", block)]) == Join(" ", front + block)
  {
    JoinSnoc(front, Join(" ", block));
    if front == [] {
      assert front + block == block;
    } else {
      JoinConcat(" ", front, block);
    }
  }

  lemma TakeSentenceKeeps(b: Blocks, parts: seq<string>, read: seq<string>, sentence: string)
    requires BlocksOf(b, parts, read) && Neat(sentence)
    ensures BlocksOf(TakeSentence(b, sentence), parts, read + [sentence])
  {
    var block := b.block + [sentence];
    var all, text := b.parts + b.block, parts + read;
    assert b.parts + block == all + [sentence] && parts + (read + [sentence]) == text + [sentence];
    JoinSnoc(all, sentence);
    JoinSnoc(text, sentence);
    JoinGrouped(b.parts, block);
    JoinIsNeat(block);
    assert b.parts + [Join(" ", block)] + [] == b.parts + [Join(" ", block)];
  }

  lemma SentenceStep(b: Blocks, parts: seq<string>, read: seq<string>, raw: string)
    requires BlocksOf(b, parts, read) && Neat(raw)
    ensures BlocksOf(TakeSentence(b, Strip(raw)), parts, read + [raw])
  {
    StripOfNeat(raw);
    TakeSentenceKeeps(b, parts, read, raw);
  }

  lemma NothingRead(parts: seq<string>)
    requires forall k :: 0 <= k < |parts| ==> Neat(parts[k])
    ensures BlocksOf(Blocks(parts, []), parts, [])
  {
  }

  lemma {:induction false} SentencesKeep(parts: seq<string>, sentences: seq<string>)
    requires forall k :: 0 <= k < |parts| ==> Neat(parts[k])
    requires forall k :: 0 <= k < |sentences| ==> Neat(sentences[k])
    ensures BlocksOf(TakeSentences(parts, sentences), parts, sentences)
  {
    if sentences == [] {
      NothingRead(parts);
    } else {
      var n := |sentences| - 1;
      SentencesKeep(parts, sentences[..n]);
      SentenceStep(TakeSentences(parts, sentences[..n]), parts, sentences[..n], sentences[n]);
      assert sentences == sentences[..n] + [sentences[n]];
    }
  }

  lemma ClosedKeeps(b: Blocks, parts: seq<string>, read: seq<string>)
    requires BlocksOf(b, parts, read) && parts + read != []
    ensures PartsOf(Closed(b), Join(" ", parts + read))
  {
    if b.block == [] {
      assert b.parts + [] == b.parts;
    } else {
      JoinGrouped(b.parts, b.block);
      JoinIsNeat(b.block);
    }
  }

  lemma ManySentences(parts: seq<string>, sentences: seq<string>, rest: string)
    requires PartsOf(sentences, rest) && forall k :: 0 <= k < |parts| ==> Neat(parts[k])
    ensures PartsOf(Closed(TakeSentences(parts, sentences)), Join(" ", parts + [rest]))
  {
    SentencesKeep(parts, sentences);
    ClosedKeeps(TakeSentences(parts, sentences), parts, sentences);
    JoinGrouped(parts, sentences);
  }

  lemma OneSentence(parts: seq<string>, rest: string)
    requires Neat(rest) && forall k :: 0 <= k < |parts| ==> Neat(parts[k])
    ensures PartsOf(parts + [rest], Join(" ", parts + [rest]))
  {
  }

  lemma SentencePartsOk(sp: Splitters, parts: seq<string>, rest: string)
    requires CutsAtSpace(sp) && Neat(rest) && forall k :: 0 <= k < |parts| ==> Neat(parts[k])
    ensures PartsOf(SentenceParts(sp, parts, rest), Join(" ", parts + [rest]))
  {
    var sentences := Pieces(rest, sp.sentences(rest), 0, 0);
    FirstCut(rest, sp.sentences(rest));
    if |sentences| > 1 {
      ManySentences(parts, sentences, rest);
    } else {
      OneSentence(parts, rest);
    }
  }

  lemma StripAfterSpace(s: string)
    requires Neat(s)
    ensures Strip(" " + s) == s
  {
    assert (" " + s)[1..] == s;
    StripOfNeat(s);
  }

  lemma SignatureCut(last: string, v: nat)
    requires Neat(last) && v < |last| && IsSpace(last[v])
    ensures var main, signature := Strip(last[..v]), Strip(last[v..]);
            Neat(main) && Neat(signature) && last == main + " " + signature
  {
    NeatCut(last, Cut(v, v + 1));
    StripOfNeat(last[..v]);
    assert last[v..] == " " + last[v + 1..];
    StripAfterSpace(last[v + 1..]);
  }

  lemma SplitLast(parts: seq<string>, line: string, main: string, signature: string)
    requires PartsOf(parts, line) && Neat(main) && Neat(signature) && parts[|parts| - 1] == main + " " + signature
    ensures PartsOf(parts[..|parts| - 1] + [main] + [signature], line)
  {
    var front := parts[..|parts| - 1];
    assert front + [main] + [signature] == front + [main, signature];
    assert [main, signature] == [main] + [signature];
    JoinSnoc([main], signature);
    JoinGrouped(front, [main, signature]);
    assert parts == front + [main + " " + signature];
  }

  lemma SignaturePartsOk(sp: Splitters, parts: seq<string>, line: string)
    requires CutsAtSpace(sp) && PartsOf(parts, line)
    ensures PartsOf(SignatureParts(sp, parts), line)
  {
    var last := parts[|parts| - 1];
    if sp.signature(last).Some? {
      var v := sp.signature(last).value;
      SignatureCut(last, v);
      SplitLast(parts, line, Strip(last[..v]), Strip(last[v..]));
    }
  }

  lemma {:induction false} NonEmptyKeeps(parts: seq<string>)
    requires forall k :: 0 <= k < |parts| ==> Neat(parts[k])
    ensures NonEmpty(parts) == parts
  {
    if parts != [] {
      NonEmptyKeeps(parts[1..]);
      assert parts == [parts[0]] + parts[1..];
    }
  }

  lemma GreetingPartsOk(sp: Splitters, t: string)
    requires CutsAtSpace(sp) && Neat(t)
    ensures var (parts, rest) := GreetingParts(sp, t);
            Neat(rest) && (forall k :: 0 <= k < |parts| ==> Neat(parts[k])) && Join(" ", parts + [rest]) == t
  {
    match sp.greeting(t)
    case None =>
      assert [] + [t] == [t];
    case Some(c) =>
      NeatCut(t, c);
      StripOfNeat(t[..c.from]);
      StripOfNeat(t[c.to..]);
      assert [t[..c.from]] + [t[c.to..]] == [t[..c.from], t[c.to..]];
  }

  /** A reflowed line is its neat parts, which joined by single spaces are the line again. */
  lemma ReflowIsParts(sp: Splitters, line: string) returns (parts: seq<string>)
    requires CutsAtSpace(sp) && Neat(line) && |line| >= REFLOW_FROM
    ensures PartsOf(parts, line) && Reflow(sp, line) == Join("\n\n", parts)
  {
    StripOfNeat(line);
    NeatHasNoBreak(line);
    GreetingPartsOk(sp, line);
    var (greeting, rest) := GreetingParts(sp, line);
    SentencePartsOk(sp, greeting, rest);
    var all := SentenceParts(sp, greeting, rest);
    SignaturePartsOk(sp, all, line);
    parts := SignatureParts(sp, all);
    NonEmptyKeeps(parts);
  }

  lemma NeatHasNoBreak(line: string)
    requires Neat(line)
    ensures '\n' !in line && '\r' !in line
  {
  }

  // ---------------------------------------------------------------- the whole outbound text

  /** The parts with a blank line between each two. */
  function Spaced(parts: seq<string>): seq<string> {
    if |parts| <= 1 then parts else [parts[0], ""] + Spaced(parts[1..])
  }

  lemma {:induction false} SpacedIsNeat(parts: seq<string>)
    requires parts != [] && forall k :: 0 <= k < |parts| ==> Neat(parts[k])
    ensures NeatLines(Spaced(parts)) && |Spaced(parts)| == 2 * |parts| - 1
  {
    if |parts| > 1 {
      SpacedIsNeat(parts[1..]);
      NeatLinesCons(parts[0], Spaced(parts[1..]));
    }
  }

  lemma NeatLinesCons(first: string, rest: seq<string>)
    requires Neat(first) && NeatLines(rest) && rest != []
    ensures NeatLines([first, ""] + rest)
  {
    var lines := [first, ""] + rest;
    assert forall k :: 2 <= k < |lines| ==> lines[k] == rest[k - 2];
  }

  lemma {:induction false} SpacedJoin(parts: seq<string>)
    ensures Join("\n", Spaced(parts)) == Join("\n\n", parts) && (parts != [] ==> Spaced(parts) != [])
  {
    if |parts| > 1 {
      SpacedJoin(parts[1..]);
      var rest := Spaced(parts[1..]);
      assert [parts[0], ""] + rest == [parts[0]] + ([""] + rest);
      JoinCons("\n", parts[0], [""] + rest);
      JoinCons("\n", "", rest);
      assert parts[0] + "\n" + ("" + "\n" + Join("\n", rest)) == parts[0] + "\n\n" + Join("\n", rest);
    }
  }

  lemma {:induction false} SpacedInk(parts: seq<string>)
    ensures InkOf(Spaced(parts)) == InkOf(parts)
  {
    if |parts| > 1 {
      SpacedInk(parts[1..]);
      var rest := Spaced(parts[1..]);
      assert ([parts[0], ""] + rest)[1..] == [""] + rest && ([""] + rest)[1..] == rest;
    }
  }

  lemma {:induction false} BreaksOfPlain(a: string, b: string)
    requires '\n' !in a
    ensures CountBreaks(a + b) == CountBreaks(b)
  {
    if a == "" {
      assert a + b == b;
    } else {
      assert a == [a[0]] + a[1..] && (a + b)[1..] == a[1..] + b;
      BreaksOfPlain(a[1..], b);
    }
  }

  lemma {:induction false} BreaksOfJoin(lines: seq<string>)
    requires lines != [] && forall k :: 0 <= k < |lines| ==> '\n' !in lines[k]
    ensures CountBreaks(Join("\n", lines)) == |lines| - 1
  {
    var rest := if |lines| == 1 then "" else "\n" + Join("\n", lines[1..]);
    BreaksOfPlain(lines[0], rest);
    if |lines| == 1 {
      assert lines[0] + "" == lines[0];
    } else {
      BreaksOfJoin(lines[1..]);
      assert rest[1..] == Join("\n", lines[1..]);
      assert lines[0] + "\n" + Join("\n", lines[1..]) == lines[0] + rest;
    }
  }

  /** A line that the reflow leaves in one piece, or any text of two lines, is left as it is. */
  ghost predicate Stays(sp: Splitters, lines: seq<string>)
    requires CutsAtSpace(sp)
  {
    |lines| <= 2 ==> Reflow(sp, Join("\n", lines)) == Join("\n", lines)
  }

  /** The outbound text is neat lines with the ink of the input, which the reflow leaves alone. */
  lemma OutboundForm(sp: Splitters, text: string) returns (lines: seq<string>)
    requires CutsAtSpace(sp)
    ensures NeatLines(lines) && Outbound(sp, text) == Join("\n", lines) && InkOf(lines) == Ink(text) && Stays(sp, lines)
  {
    NormalLinesAreNeat(text);
    NormalizeKeepsInk(text);
    lines := ReflowedLines(sp, NormalLines(text));
  }

  /** Neat lines with at most one break, unless they are one long line, are not reflowed. */
  lemma NotReflowed(sp: Splitters, lines: seq<string>)
    requires CutsAtSpace(sp) && |lines| <= 2 && (|lines| == 1 ==> |lines[0]| < REFLOW_FROM)
    ensures Reflow(sp, Join("\n", lines)) == Join("\n", lines)
  {
    if |lines| == 2 { TwoLinesBreak(lines); }
  }

  lemma BreaksOfNeat(lines: seq<string>)
    requires NeatLines(lines)
    ensures CountBreaks(Join("\n", lines)) < 2 <==> |lines| <= 2
  {
    NeatLinesAreUnix(lines);
    if lines != [] { BreaksOfJoin(lines); }
  }

  lemma ReflowedLong(sp: Splitters, line: string) returns (lines: seq<string>)
    requires CutsAtSpace(sp) && Neat(line) && |line| >= REFLOW_FROM
    ensures NeatLines(lines) && InkOf(lines) == InkOf([line]) && Stays(sp, lines) &&
            Join("\n", lines) == Reflowed(sp, line)
  {
    lines := ReflowedLine(sp, line);
    NeatLinesAreNormal(lines);
    BreaksOfNeat([line]);
    assert Join("\n", [line]) == line;
  }

  lemma ReflowedShort(sp: Splitters, lines: seq<string>)
    requires CutsAtSpace(sp) && NeatLines(lines) && (|lines| == 1 ==> |lines[0]| < REFLOW_FROM)
    ensures Stays(sp, lines) && Join("\n", lines) == Reflowed(sp, Join("\n", lines))
  {
    BreaksOfNeat(lines);
    if |lines| <= 2 {
      NotReflowed(sp, lines);
      NeatLinesAreNormal(lines);
    }
  }

  /** What becomes of neat lines. */
  lemma ReflowedLines(sp: Splitters, before: seq<string>) returns (lines: seq<string>)
    requires CutsAtSpace(sp) && NeatLines(before)
    ensures NeatLines(lines) && InkOf(lines) == InkOf(before) && Stays(sp, lines)
    ensures Join("\n", lines) == Reflowed(sp, Join("\n", before))
  {
    if |before| == 1 && |before[0]| >= REFLOW_FROM {
      assert before == [before[0]];
      lines := ReflowedLong(sp, before[0]);
    } else {
      lines := before;
      ReflowedShort(sp, before);
    }
  }

  lemma TwoLinesBreak(lines: seq<string>)
    requires |lines| == 2
    ensures '\n' in Join("\n", lines)
  {
    assert Join("\n", lines)[|lines[0]|] == '\n';
  }

  lemma ReflowedLine(sp: Splitters, line: string) returns (lines: seq<string>)
    requires CutsAtSpace(sp) && Neat(line) && |line| >= REFLOW_FROM
    ensures NeatLines(lines) && Reflow(sp, line) == Join("\n", lines) && InkOf(lines) == InkOf([line]) &&
            Stays(sp, lines)
  {
    var parts := ReflowIsParts(sp, line);
    lines := Spaced(parts);
    SpacedIsNeat(parts);
    SpacedJoin(parts);
    SpacedInk(parts);
    InkOfJoin(" ", parts);
    InkOfOne(line);
    if |parts| == 1 { assert parts == [line]; }
  }

  lemma StaysIsFixed(sp: Splitters, lines: seq<string>, text: string)
    requires CutsAtSpace(sp) && NeatLines(lines) && Stays(sp, lines) && text == Join("\n", lines)
    ensures Normalize(text) == text && NormalLines(text) == lines && Reflowed(sp, text) == text
  {
    NeatLinesAreNormal(lines);
    BreaksOfNeat(lines);
  }

  /** normalize_outbound_plain_text is idempotent, whatever the recognisers see. */
  lemma OutboundIsIdempotent(sp: Splitters, text: string)
    requires CutsAtSpace(sp)
    ensures Outbound(sp, Outbound(sp, text)) == Outbound(sp, text)
  {
    var lines := OutboundForm(sp, text);
    StaysIsFixed(sp, lines, Outbound(sp, text));
  }

  /** It keeps every non-whitespace character, in order, and its lines are neat. */
  lemma OutboundKeepsInk(sp: Splitters, text: string)
    requires CutsAtSpace(sp)
    ensures Ink(Outbound(sp, text)) == Ink(text)
    ensures NeatLines(NormalLines(Outbound(sp, text))) && Normalize(Outbound(sp, text)) == Outbound(sp, text)
  {
    var lines := OutboundForm(sp, text);
    InkOfJoin("\n", lines);
    StaysIsFixed(sp, lines, Outbound(sp, text));
  }

  // ---------------------------------------------------------------- the loops

  method ReflowSentences(parts: seq<string>, sentences: seq<string>) returns (r: seq<string>)
    ensures r == Closed(TakeSentences(parts, sentences))
  {
    r := parts;
    var block := [];
    for i := 0 to |sentences|
      invariant Blocks(r, block) == TakeSentences(parts, sentences[..i])
    {
      assert sentences[..i + 1][..i] == sentences[..i];
      var sentence := Strip(sentences[i]);
      if sentence == "" { continue; }
      block := block + [sentence];
      if |Join(" ", block)| >= BLOCK_SIZE {
        r := r + [Join(" ", block)];
        block := [];
      }
    }
    assert sentences[..|sentences|] == sentences;
    if block != [] { r := r + [Join(" ", block)]; }
  }

  method CutSignature(sp: Splitters, parts: seq<string>) returns (r: seq<string>)
    requires CutsAtSpace(sp) && parts != []
    ensures r == SignatureParts(sp, parts)
  {
    r := parts;
    var last := parts[|parts| - 1];
    var found := sp.signature(last);
    if found.Some? {
      var main, signature := Strip(last[..found.value]), Strip(last[found.value..]);
      r := parts[..|parts| - 1] + if main != "" then [main] else [];
      if signature != "" { r := r + [signature]; }
    }
  }

  method CutGreeting(sp: Splitters, t: string) returns (parts: seq<string>, rest: string)
    requires CutsAtSpace(sp)
    ensures (parts, rest) == GreetingParts(sp, t)
  {
    parts, rest := [], t;
    var greeting := sp.greeting(t);
    if greeting.Some? {
      parts := [Strip(t[..greeting.value.from])];
      rest := Strip(t[greeting.value.to..]);
    }
  }

  method CutSentences(sp: Splitters, parts: seq<string>, rest: string) returns (r: seq<string>)
    requires CutsAtSpace(sp)
    ensures r == SentenceParts(sp, parts, rest)
  {
    var sentences := Pieces(rest, sp.sentences(rest), 0, 0);
    if |sentences| <= 1 {
      r := parts + [rest];
    } else {
      r := ReflowSentences(parts, sentences);
    }
  }

  method ReflowSingleLineParagraphs(sp: Splitters, text: string) returns (r: string)
    requires CutsAtSpace(sp)
    ensures r == Reflow(sp, text)
  {
    if text == "" || '\n' in text || |text| < REFLOW_FROM { return text; }
    var parts, rest := CutGreeting(sp, Strip(text));
    if rest == "" { return if parts != [] then Join("\n\n", parts) else text; }
    parts := CutSentences(sp, parts, rest);
    if parts != [] {
      parts := CutSignature(sp, parts);
    }
    r := Join("\n\n", NonEmpty(parts));
  }

  method NormalizeOutboundPlainText(sp: Splitters, text: string) returns (r: string)
    requires CutsAtSpace(sp)
    ensures r == Outbound(sp, text)
  {
    r := NormalizeTimelineNewlines(text);
    if CountBreaks(r) < 2 {
      r := ReflowSingleLineParagraphs(sp, r);
      r := NormalizeTimelineNewlines(r);
    }
  }
}
