/** Where the reflow of a long line puts its blank lines: after the greeting, between blocks of sentences
    and before the signature, and nowhere else. */
module ReflowShape {
  import opened Strings
  import opened BodyFormat
  import opened BodyReflow

  // ---------------------------------------------------------------- the shape

  /** Sentence number k lies between the cuts number k - 1 and k of the text. */
  ghost predicate CutAt(text: string, cuts: seq<Cut>, sentences: seq<string>)
    requires CutsOk(text, cuts)
  {
    |sentences| == |cuts| + 1 &&
    forall k :: 0 <= k <= |cuts| ==>
      var from, to := if k == 0 then 0 else cuts[k - 1].to, if k == |cuts| then |text| else cuts[k].from;
      from <= to && sentences[k] == text[from..to]
  }

  function Flat(groups: seq<seq<string>>): seq<string> {
    if groups == [] then [] else Flat(groups[..|groups| - 1]) + groups[|groups| - 1]
  }

  /** The sentences of each group as one block. */
  function Blocked(groups: seq<seq<string>>): seq<string> {
    seq(|groups|, k requires 0 <= k < |groups| => Join(" ", groups[k]))
  }

  /** A block has its 180 characters with its last sentence and not before. */
  ghost predicate FullGroup(group: seq<string>) {
    group != [] && |Join(" ", group)| >= 180 && |Join(" ", group[..|group| - 1])| < 180
  }

  /** The last block may also be shorter. */
  ghost predicate LastGroup(group: seq<string>) {
    group != [] && (FullGroup(group) || |Join(" ", group)| < 180)
  }

  /** The sentences are grouped into blocks, each closed by the sentence with which it reaches 180 characters. */
  ghost predicate Grouped(sentences: seq<string>, groups: seq<seq<string>>) {
    groups != [] && Flat(groups) == sentences && LastGroup(groups[|groups| - 1]) &&
    forall k :: 0 <= k < |groups| - 1 ==> FullGroup(groups[k])
  }

  /** The last block with its signature, if one is found in it, as a part of its own. */
  ghost predicate Signed(sp: Splitters, block: string, parts: seq<string>)
    requires CutsAtSpace(sp)
  {
    match sp.signature(block)
    case None => parts == [block]
    case Some(v) => parts == [block[..v], block[v + 1..]]
  }

  // ---------------------------------------------------------------- sentences

  lemma {:induction false} PiecesAreCut(t: string, cuts: seq<Cut>, k: nat, start: nat)
    requires CutsOk(t, cuts) && k <= |cuts| && start <= |t| && (k < |cuts| ==> start <= cuts[k].from)
    requires start == if k == 0 then 0 else cuts[k - 1].to
    ensures var pieces := Pieces(t, cuts, k, start);
            |pieces| == |cuts| - k + 1 &&
            forall j :: k <= j <= |cuts| ==>
              var from, to := if j == 0 then 0 else cuts[j - 1].to, if j == |cuts| then |t| else cuts[j].from;
              from <= to <= |t| && pieces[j - k] == t[from..to]
    decreases |cuts| - k
  {
    if k < |cuts| { PiecesAreCut(t, cuts, k + 1, cuts[k].to); }
  }

  lemma SentencesAreCut(t: string, cuts: seq<Cut>)
    requires CutsOk(t, cuts)
    ensures CutAt(t, cuts, Pieces(t, cuts, 0, 0))
  {
    PiecesAreCut(t, cuts, 0, 0);
  }

  // ---------------------------------------------------------------- groups

  lemma FlatMore(groups: seq<seq<string>>, group: seq<string>)
    ensures Flat(groups + [group]) == Flat(groups) + group
    ensures Blocked(groups + [group]) == Blocked(groups) + [Join(" ", group)]
  {
    assert (groups + [group])[..|groups|] == groups;
  }

  /** What the sentence loop has done: full groups, and an open one that is still short. */
  ghost predicate GroupedSoFar(parts: seq<string>, read: seq<string>, b: Blocks, groups: seq<seq<string>>) {
    b.parts == parts + Blocked(groups) && Flat(groups) + b.block == read &&
    (forall k :: 0 <= k < |groups| ==> FullGroup(groups[k])) && |Join(" ", b.block)| < 180
  }

  lemma TakeShort(parts: seq<string>, read: seq<string>, b: Blocks, groups: seq<seq<string>>, sentence: string)
    requires GroupedSoFar(parts, read, b, groups) && |Join(" ", b.block + [sentence])| < 180
    ensures GroupedSoFar(parts, read + [sentence], Blocks(b.parts, b.block + [sentence]), groups)
  {
    assert Flat(groups) + (b.block + [sentence]) == Flat(groups) + b.block + [sentence];
  }

  lemma TakeFull(parts: seq<string>, read: seq<string>, b: Blocks, groups: seq<seq<string>>, sentence: string)
    requires GroupedSoFar(parts, read, b, groups) && |Join(" ", b.block + [sentence])| >= 180
    ensures var block := b.block + [sentence];
            GroupedSoFar(parts, read + [sentence], Blocks(b.parts + [Join(" ", block)], []), groups + [block])
  {
    var block := b.block + [sentence];
    FlatMore(groups, block);
    assert block[..|block| - 1] == b.block;
    assert parts + Blocked(groups) + [Join(" ", block)] == parts + (Blocked(groups) + [Join(" ", block)]);
    assert Flat(groups) + block == read + [sentence] && Flat(groups + [block]) + [] == Flat(groups) + block;
  }

  lemma TakeGroups(parts: seq<string>, read: seq<string>, b: Blocks, groups: seq<seq<string>>, sentence: string)
    returns (groups': seq<seq<string>>)
    requires GroupedSoFar(parts, read, b, groups) && Neat(sentence)
    ensures GroupedSoFar(parts, read + [sentence], TakeSentence(b, Strip(sentence)), groups')
  {
    StripOfNeat(sentence);
    var block := b.block + [sentence];
    if |Join(" ", block)| >= BLOCK_SIZE {
      TakeFull(parts, read, b, groups, sentence);
      groups' := groups + [block];
    } else {
      TakeShort(parts, read, b, groups, sentence);
      groups' := groups;
    }
  }

  lemma {:induction false} LoopGroups(parts: seq<string>, sentences: seq<string>) returns (groups: seq<seq<string>>)
    requires forall k :: 0 <= k < |sentences| ==> Neat(sentences[k])
    ensures GroupedSoFar(parts, sentences, TakeSentences(parts, sentences), groups)
  {
    groups := [];
    if sentences != [] {
      var n := |sentences| - 1;
      groups := LoopGroups(parts, sentences[..n]);
      groups := TakeGroups(parts, sentences[..n], TakeSentences(parts, sentences[..n]), groups, sentences[n]);
      assert sentences == sentences[..n] + [sentences[n]];
    } else {
      assert parts + Blocked([]) == parts;
    }
  }

  lemma ClosedGroups(parts: seq<string>, sentences: seq<string>) returns (groups: seq<seq<string>>)
    requires sentences != [] && forall k :: 0 <= k < |sentences| ==> Neat(sentences[k])
    ensures Grouped(sentences, groups) && Closed(TakeSentences(parts, sentences)) == parts + Blocked(groups)
  {
    groups := LoopGroups(parts, sentences);
    var b := TakeSentences(parts, sentences);
    if b.block == [] {
      assert Flat(groups) + [] == Flat(groups);
    } else {
      FlatMore(groups, b.block);
      assert parts + Blocked(groups) + [Join(" ", b.block)] == parts + (Blocked(groups) + [Join(" ", b.block)]);
      groups := groups + [b.block];
    }
  }

  lemma OneGroup(rest: string) returns (groups: seq<seq<string>>)
    requires Neat(rest)
    ensures Grouped([rest], groups) && Blocked(groups) == [rest]
  {
    groups := [[rest]];
    assert Flat([]) == [] && [[rest]][..0] == [];
    assert [rest][..0] == [] && Join(" ", [rest]) == rest;
  }

  lemma SentencePartsGrouped(sp: Splitters, parts: seq<string>, rest: string)
    returns (sentences: seq<string>, groups: seq<seq<string>>)
    requires CutsAtSpace(sp) && Neat(rest)
    ensures CutAt(rest, sp.sentences(rest), sentences) && Grouped(sentences, groups)
    ensures SentenceParts(sp, parts, rest) == parts + Blocked(groups)
  {
    sentences := Pieces(rest, sp.sentences(rest), 0, 0);
    SentencesAreCut(rest, sp.sentences(rest));
    FirstCut(rest, sp.sentences(rest));
    if |sentences| <= 1 {
      assert sentences == [rest];
      groups := OneGroup(rest);
    } else {
      groups := ClosedGroups(parts, sentences);
    }
  }

  // ---------------------------------------------------------------- the reflowed line

  /** What the greeting leaves of the line. */
  function RestOf(sp: Splitters, line: string): string
    requires CutsAtSpace(sp)
  {
    match sp.greeting(line)
    case None => line
    case Some(c) => line[c.to..]
  }

  function GreetingOf(sp: Splitters, line: string): seq<string>
    requires CutsAtSpace(sp)
  {
    match sp.greeting(line)
    case None => []
    case Some(c) => [line[..c.from]]
  }

  lemma GreetingIsCut(sp: Splitters, line: string)
    requires CutsAtSpace(sp) && Neat(line)
    ensures GreetingParts(sp, line) == (GreetingOf(sp, line), RestOf(sp, line)) && Neat(RestOf(sp, line))
    ensures forall k :: 0 <= k < |GreetingOf(sp, line)| ==> Neat(GreetingOf(sp, line)[k])
  {
    if sp.greeting(line).Some? {
      var c := sp.greeting(line).value;
      NeatCut(line, c);
      StripOfNeat(line[..c.from]);
      StripOfNeat(line[c.to..]);
    }
  }

  lemma SignatureIsCut(sp: Splitters, front: seq<string>, block: string) returns (signed: seq<string>)
    requires CutsAtSpace(sp) && Neat(block)
    ensures Signed(sp, block, signed) && SignatureParts(sp, front + [block]) == front + signed
  {
    var parts := front + [block];
    assert parts[..|front|] == front && parts[|parts| - 1] == block;
    match sp.signature(block)
    case None =>
      signed := [block];
    case Some(v) =>
      NeatCut(block, Cut(v, v + 1));
      StripOfNeat(block[..v]);
      assert block[v..] == " " + block[v + 1..];
      StripAfterSpace(block[v + 1..]);
      signed := [block[..v], block[v + 1..]];
      assert front + [block[..v]] + [block[v + 1..]] == front + signed;
  }

  lemma JoinStarts(sep: string, first: string, rest: seq<string>)
    requires rest != []
    ensures first + sep <= Join(sep, [first] + rest)
  {
    JoinCons(sep, first, rest);
  }

  /** The parts before the signature is cut off, and that nothing else happens to them. */
  lemma ReflowSigns(sp: Splitters, line: string) returns (parts: seq<string>)
    requires CutsAtSpace(sp) && Neat(line) && |line| >= 120
    ensures parts == SentenceParts(sp, GreetingOf(sp, line), RestOf(sp, line)) && parts != []
    ensures forall k :: 0 <= k < |parts| ==> Neat(parts[k])
    ensures Reflow(sp, line) == Join("\n\n", SignatureParts(sp, parts))
  {
    var greeting, rest := GreetingOf(sp, line), RestOf(sp, line);
    StripOfNeat(line);
    NeatHasNoBreak(line);
    GreetingIsCut(sp, line);
    SentencePartsOk(sp, greeting, rest);
    parts := SentenceParts(sp, greeting, rest);
    SignaturePartsOk(sp, parts, Join(" ", greeting + [rest]));
    NonEmptyKeeps(SignatureParts(sp, parts));
  }

  lemma LastOf(a: seq<string>, b: seq<string>)
    requires b != []
    ensures a + b == (a + b[..|b| - 1]) + [b[|b| - 1]]
  {
  }

  /** A long line is reflowed into the greeting, the blocks of its sentences and, cut off the last block, the
      signature, with a blank line between each two of these parts. */
  lemma ReflowIsShaped(sp: Splitters, line: string)
    returns (sentences: seq<string>, groups: seq<seq<string>>, signed: seq<string>)
    requires CutsAtSpace(sp) && Neat(line) && |line| >= 120
    ensures CutAt(RestOf(sp, line), sp.sentences(RestOf(sp, line)), sentences) && Grouped(sentences, groups)
    ensures Signed(sp, Join(" ", groups[|groups| - 1]), signed)
    ensures Reflow(sp, line) == Join("\n\n", GreetingOf(sp, line) + Blocked(groups)[..|groups| - 1] + signed)
  {
    var greeting, rest := GreetingOf(sp, line), RestOf(sp, line);
    GreetingIsCut(sp, line);
    var parts := ReflowSigns(sp, line);
    sentences, groups := SentencePartsGrouped(sp, greeting, rest);
    var n := |groups| - 1;
    LastOf(greeting, Blocked(groups));
    var front := greeting + Blocked(groups)[..n];
    assert parts == front + [Blocked(groups)[n]];
    assert parts[|front|] == Blocked(groups)[n];
    signed := SignatureIsCut(sp, front, Blocked(groups)[n]);
  }

  /** With a greeting the text begins with it and a blank line. */
  lemma GreetingStandsApart(sp: Splitters, line: string)
    requires CutsAtSpace(sp) && Neat(line) && |line| >= 120 && sp.greeting(line).Some?
    ensures line[..sp.greeting(line).value.from] + "\n\n" <= Reflow(sp, line)
  {
    var sentences, groups, signed := ReflowIsShaped(sp, line);
    var first, rest := GreetingOf(sp, line)[0], Blocked(groups)[..|groups| - 1] + signed;
    assert GreetingOf(sp, line) + Blocked(groups)[..|groups| - 1] + signed == [first] + rest;
    JoinStarts("\n\n", first, rest);
  }

  /** Outbound text that is one long line when normalised is that line reflowed; any other is just normalised. */
  lemma OutboundIs(sp: Splitters, text: string)
    requires CutsAtSpace(sp)
    ensures var lines := NormalLines(text);
            Outbound(sp, text) ==
            if |lines| == 1 && |lines[0]| >= 120 then Reflow(sp, lines[0]) else Normalize(text)
  {
    var lines := NormalLines(text);
    NormalLinesAreNeat(text);
    if |lines| == 1 && |lines[0]| >= 120 {
      var line := lines[0];
      assert lines == [line] && Join("\n", [line]) == line;
      var reflowed := ReflowedLine(sp, line);
      NeatLinesAreNormal(reflowed);
      BreaksOfNeat([line]);
    } else {
      ReflowedShort(sp, lines);
    }
  }
}
