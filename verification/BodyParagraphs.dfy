/** What the line normaliser does to a text, in terms of its paragraphs, lines and words. */
module BodyParagraphs {
  import opened Wrappers
  import opened Strings
  import opened BodyFormat

  // ---------------------------------------------------------------- words

  /** The words of a line: its longest stretches without whitespace. */
  function Words(line: string): (r: seq<string>)
    ensures line != "" && !IsSpace(line[0]) ==> r != []
  {
    if line == "" then []
    else if IsSpace(line[0]) then Words(line[1..])
    else
      var rest := Words(line[1..]);
      if |line| > 1 && !IsSpace(line[1]) then [[line[0]] + rest[0]] + rest[1..] else [[line[0]]] + rest
  }

  ghost predicate IsWord(word: string) {
    word != "" && forall i :: 0 <= i < |word| ==> !IsSpace(word[i])
  }

  lemma {:induction false} WordsAreWords(line: string)
    ensures forall k :: 0 <= k < |Words(line)| ==> IsWord(Words(line)[k])
  {
    if line != "" { WordsAreWords(line[1..]); }
  }

  lemma {:induction false} JoinedIsTrimmed(words: seq<string>)
    requires words != [] && forall k :: 0 <= k < |words| ==> IsWord(words[k])
    ensures Join(" ", words) != "" && Trimmed(Join(" ", words))
  {
    if |words| > 1 { JoinedIsTrimmed(words[1..]); }
  }

  /** A space when the line begins, or ends, with whitespace. */
  function Lead(line: string): string {
    if line != "" && IsSpace(line[0]) then " " else ""
  }

  function Trail(line: string): string {
    if Words(line) != [] && IsSpace(line[|line| - 1]) then " " else ""
  }

  lemma JoinFirst(c: char, words: seq<string>)
    requires words != []
    ensures Join(" ", [[c] + words[0]] + words[1..]) == [c] + Join(" ", words)
  {
    if |words| > 1 {
      assert ([[c] + words[0]] + words[1..])[1..] == words[1..];
    }
  }

  lemma JoinSecond(c: char, words: seq<string>)
    ensures Join(" ", [[c]] + words) == [c] + (if words == [] then "" else " ") + Join(" ", words)
  {
    assert ([[c]] + words)[1..] == words;
  }

  /** A character that goes on the first word of the rest. */
  lemma WordGoesOn(line: string)
    requires |line| > 1 && !IsSpace(line[0]) && !IsSpace(line[1])
    ensures Join(" ", Words(line)) == [line[0]] + Join(" ", Words(line[1..]))
    ensures Trail(line) == Trail(line[1..]) && Lead(line[1..]) == ""
  {
    JoinFirst(line[0], Words(line[1..]));
  }

  /** A character that is a word of its own. */
  lemma WordStands(line: string)
    requires line != "" && !IsSpace(line[0]) && (|line| > 1 ==> IsSpace(line[1]))
    ensures var words := Words(line[1..]);
            Join(" ", Words(line)) == [line[0]] + (if words == [] then "" else " ") + Join(" ", words) &&
            if words == [] then Trail(line) == Lead(line[1..]) && Trail(line[1..]) == Join(" ", words) == ""
            else Trail(line) == Trail(line[1..]) && Lead(line[1..]) == " "
  {
    var rest := line[1..];
    JoinSecond(line[0], Words(rest));
    if rest != "" && Words(rest) == [] { BlankEnds(rest); }
  }

  lemma Glue(c: string, lead: string, joined: string, trail: string)
    ensures c + (lead + joined + trail) == c + lead + joined + trail
    ensures c + "" + joined + trail == c + joined + trail && c + "" + "" + trail == c + trail + "" + ""
  {
  }

  lemma CollapseInk(line: string)
    requires line != "" && !IsSpace(line[0])
    requires Collapse(line[1..]) == Lead(line[1..]) + Join(" ", Words(line[1..])) + Trail(line[1..])
    ensures Collapse(line) == Join(" ", Words(line)) + Trail(line)
  {
    var c, rest := [line[0]], line[1..];
    assert Collapse(line) == c + Collapse(rest);
    Glue(c, Lead(rest), Join(" ", Words(rest)), Trail(rest));
    if |line| > 1 && !IsSpace(line[1]) { WordGoesOn(line); } else { WordStands(line); }
  }

  lemma {:induction false} BlankEnds(line: string)
    requires line != "" && Words(line) == []
    ensures IsSpace(line[|line| - 1])
  {
    if |line| > 1 { BlankEnds(line[1..]); }
  }

  lemma CollapseSpace(line: string)
    requires line != "" && IsBlank(line[0]) && (|line| > 1 && IsSpace(line[1]) ==> IsBlank(line[1]))
    requires Collapse(line[1..]) == Lead(line[1..]) + Join(" ", Words(line[1..])) + Trail(line[1..])
    ensures Collapse(line) == " " + Join(" ", Words(line)) + Trail(line)
  {
    var rest := line[1..];
    Glue(" ", Lead(rest), Join(" ", Words(rest)), Trail(rest));
    assert Trail(line) == Trail(rest);
    if |line| > 1 && IsBlank(line[1]) {
      assert Collapse(line) == Collapse(rest) && Lead(rest) == " ";
    } else {
      assert Collapse(line) == " " + Collapse(rest) && Lead(rest) == "";
    }
  }

  /** Collapsing leaves the words with single spaces between them and what is left of the ends. */
  lemma {:induction false} CollapseIsWords(line: string)
    requires '\n' !in line && '\r' !in line
    ensures Collapse(line) == Lead(line) + Join(" ", Words(line)) + Trail(line)
  {
    if line != "" {
      CollapseIsWords(line[1..]);
      if IsSpace(line[0]) { CollapseSpace(line); } else { CollapseInk(line); }
    }
  }

  lemma StripEnds(lead: string, text: string, trail: string)
    requires Trimmed(text) && text != "" && (lead == "" || lead == " ") && (trail == "" || trail == " ")
    ensures Strip(lead + text + trail) == text
  {
    var s, rest := lead + text + trail, text + trail;
    assert rest[0] == text[0] && StripLeft(rest) == rest;
    if lead == " " { assert s[1..] == rest; } else { assert s == rest; }
    assert StripRight(text) == text;
    if trail == " " { assert rest[..|rest| - 1] == text; } else { assert rest == text; }
  }

  /** A cleaned line is its words with single spaces between them. */
  lemma CleanIsWords(line: string)
    requires '\n' !in line && '\r' !in line
    ensures CleanLine(line) == Join(" ", Words(line))
  {
    CollapseIsWords(line);
    if Words(line) == [] {
      assert Strip(" ") == "" by { assert " "[1..] == ""; }
    } else {
      WordsAreWords(line);
      JoinedIsTrimmed(Words(line));
      StripEnds(Lead(line), Join(" ", Words(line)), Trail(line));
    }
  }

  // ---------------------------------------------------------------- lines

  /** The lines of a text, each ended by CR LF, CR or LF. */
  function SourceLines(text: string): (r: seq<string>)
    ensures r != []
    ensures forall k :: 0 <= k < |r| ==> '\n' !in r[k] && '\r' !in r[k]
  {
    if text == "" then [""]
    else if |text| > 1 && text[0] == '\r' && text[1] == '\n' then [""] + SourceLines(text[2..])
    else if text[0] == '\r' || text[0] == '\n' then [""] + SourceLines(text[1..])
    else
      var rest := SourceLines(text[1..]);
      [[text[0]] + rest[0]] + rest[1..]
  }

  lemma {:induction false} LinesAreSourceLines(text: string)
    ensures Lines(ReplaceCr(ReplaceCrLf(text))) == SourceLines(text)
  {
    if text == "" {
    } else if |text| > 1 && text[0] == '\r' && text[1] == '\n' {
      LinesAreSourceLines(text[2..]);
      FirstReplaced('\n', ReplaceCrLf(text[2..]));
    } else {
      LinesAreSourceLines(text[1..]);
      FirstReplaced(text[0], ReplaceCrLf(text[1..]));
    }
  }

  lemma FirstReplaced(c: char, rest: string)
    ensures ReplaceCr([c] + rest) == [if c == '\r' then '\n' else c] + ReplaceCr(rest)
    ensures var first := if c == '\r' then '\n' else c;
            var lines := Lines(ReplaceCr(rest));
            Lines([first] + ReplaceCr(rest)) ==
            if first == '\n' then [""] + lines else [[first] + lines[0]] + lines[1..]
  {
    assert ([c] + rest)[1..] == rest;
    var first := if c == '\r' then '\n' else c;
    assert ([first] + ReplaceCr(rest))[1..] == ReplaceCr(rest);
  }

  // ---------------------------------------------------------------- paragraphs

  /** A line without words. */
  predicate Empty(line: string) {
    Words(line) == []
  }

  /** The paragraphs of a text: its longest stretches of lines with words, each line as its words. */
  function Paragraphs(lines: seq<string>): (r: seq<seq<string>>)
    ensures lines != [] && !Empty(lines[|lines| - 1]) ==> r != []
  {
    if lines == [] then []
    else
      var n := |lines| - 1;
      var before := Paragraphs(lines[..n]);
      if Empty(lines[n]) then before
      else if n > 0 && !Empty(lines[n - 1]) then
        before[..|before| - 1] + [before[|before| - 1] + [Join(" ", Words(lines[n]))]]
      else before + [[Join(" ", Words(lines[n]))]]
  }

  /** Paragraphs with one blank line between each two. */
  function Apart(paragraphs: seq<seq<string>>): seq<string> {
    if paragraphs == [] then []
    else if |paragraphs| == 1 then paragraphs[0]
    else Apart(paragraphs[..|paragraphs| - 1]) + [""] + paragraphs[|paragraphs| - 1]
  }

  lemma ApartMore(paragraphs: seq<seq<string>>, last: seq<string>)
    ensures Apart(paragraphs + [last]) == if paragraphs == [] then last else Apart(paragraphs) + [""] + last
  {
    assert (paragraphs + [last])[..|paragraphs|] == paragraphs;
  }

  lemma ApartLonger(front: seq<seq<string>>, last: seq<string>, line: string)
    ensures Apart(front + [last + [line]]) == Apart(front + [last]) + [line]
  {
    ApartMore(front, last);
    ApartMore(front, last + [line]);
    var before := Apart(front) + [""];
    assert before + (last + [line]) == (before + last) + [line];
  }

  ghost predicate NoBlanks(paragraphs: seq<seq<string>>) {
    forall k :: 0 <= k < |paragraphs| ==> paragraphs[k] != [] && "" !in paragraphs[k]
  }

  /** What the loop has collected: the paragraphs so far, and a blank line when it has just seen one. */
  ghost predicate Collects(sc: Scanned, lines: seq<string>) {
    var paragraphs := Paragraphs(lines);
    NoBlanks(paragraphs) && (sc.blank <==> lines != [] && Empty(lines[|lines| - 1])) &&
    sc.lines == Apart(paragraphs) + if paragraphs != [] && sc.blank then [""] else []
  }

  lemma CleanOf(line: string)
    requires '\n' !in line && '\r' !in line
    ensures CleanLine(line) == Join(" ", Words(line)) && (CleanLine(line) == "" <==> Empty(line))
  {
    CleanIsWords(line);
    if !Empty(line) {
      WordsAreWords(line);
      JoinedIsTrimmed(Words(line));
    }
  }

  lemma ParagraphsOfMore(lines: seq<string>, line: string)
    ensures var before := Paragraphs(lines);
            Paragraphs(lines + [line]) ==
            if Empty(line) then before
            else if lines != [] && !Empty(lines[|lines| - 1]) then
              before[..|before| - 1] + [before[|before| - 1] + [Join(" ", Words(line))]]
            else before + [[Join(" ", Words(line))]]
  {
    assert (lines + [line])[..|lines|] == lines;
  }

  lemma LastParagraphGrows(lines: seq<string>, line: string) returns (front: seq<seq<string>>, last: seq<string>)
    requires lines != [] && !Empty(lines[|lines| - 1]) && !Empty(line)
    ensures Paragraphs(lines) == front + [last]
    ensures Paragraphs(lines + [line]) == front + [last + [Join(" ", Words(line))]]
  {
    var before := Paragraphs(lines);
    front, last := before[..|before| - 1], before[|before| - 1];
    ParagraphsOfMore(lines, line);
  }

  lemma NoBlanksLonger(front: seq<seq<string>>, last: seq<string>, line: string)
    requires NoBlanks(front + [last]) && line != ""
    ensures NoBlanks(front + [last + [line]])
  {
    var all, longer := front + [last], front + [last + [line]];
    assert all[|front|] == last;
    forall k | 0 <= k < |longer| ensures longer[k] != [] && "" !in longer[k] {
      if k < |front| { assert longer[k] == all[k]; }
    }
  }

  lemma ContinueParagraph(sc: Scanned, lines: seq<string>, line: string)
    requires Collects(sc, lines) && '\n' !in line && '\r' !in line && !Empty(line)
    requires lines != [] && !Empty(lines[|lines| - 1])
    ensures Collects(Take(sc, CleanLine(line)), lines + [line])
  {
    CleanOf(line);
    var front, last := LastParagraphGrows(lines, line);
    NoBlanksLonger(front, last, CleanLine(line));
    ApartLonger(front, last, CleanLine(line));
    TakeContinues(sc, CleanLine(line), Apart(front + [last]));
    assert (lines + [line])[|lines|] == line;
  }

  lemma TakeContinues(sc: Scanned, line: string, before: seq<string>)
    requires !sc.blank && sc.lines == before + [] && line != ""
    ensures Take(sc, line) == Scanned(before + [line] + [], false)
  {
  }

  lemma StartParagraph(sc: Scanned, lines: seq<string>, line: string)
    requires Collects(sc, lines) && '\n' !in line && '\r' !in line && !Empty(line)
    requires lines == [] || Empty(lines[|lines| - 1])
    ensures Collects(Take(sc, CleanLine(line)), lines + [line])
  {
    var before := Paragraphs(lines);
    ParagraphsOfMore(lines, line);
    CleanOf(line);
    ApartMore(before, [CleanLine(line)]);
    assert Apart(before + [[CleanLine(line)]]) + [] == Apart(before + [[CleanLine(line)]]);
  }

  lemma BlankLine(sc: Scanned, lines: seq<string>, line: string)
    requires Collects(sc, lines) && '\n' !in line && '\r' !in line && Empty(line)
    ensures Collects(Take(sc, CleanLine(line)), lines + [line])
  {
    ParagraphsOfMore(lines, line);
    CleanOf(line);
    ApartIsEmptyIff(Paragraphs(lines));
  }

  lemma ApartIsEmptyIff(paragraphs: seq<seq<string>>)
    requires NoBlanks(paragraphs)
    ensures Apart(paragraphs) == [] <==> paragraphs == []
  {
  }

  lemma {:induction false} LoopCollects(lines: seq<string>)
    requires forall k :: 0 <= k < |lines| ==> '\n' !in lines[k] && '\r' !in lines[k]
    ensures Collects(TakeLines(lines), lines)
    decreases |lines|
  {
    if lines != [] {
      var front, line := SplitLast(lines);
      assert lines[..|lines| - 1] == front && lines[|lines| - 1] == line;
      assert forall k :: 0 <= k < |front| ==> front[k] == lines[k];
      LoopCollects(front);
      if Empty(line) {
        BlankLine(TakeLines(front), front, line);
      } else if front != [] && !Empty(front[|front| - 1]) {
        ContinueParagraph(TakeLines(front), front, line);
      } else {
        StartParagraph(TakeLines(front), front, line);
      }
    }
  }

  /** Paragraphs begin and end with lines that are not blank. */
  lemma {:induction false} ApartEnds(paragraphs: seq<seq<string>>)
    requires NoBlanks(paragraphs) && paragraphs != []
    ensures var lines := Apart(paragraphs); lines != [] && lines[0] != "" && lines[|lines| - 1] != ""
  {
    var n := |paragraphs| - 1;
    assert paragraphs[n][0] in paragraphs[n] && paragraphs[n][|paragraphs[n]| - 1] in paragraphs[n];
    if n > 0 { ApartEnds(paragraphs[..n]); }
  }

  lemma TrimmedEnds(lines: seq<string>)
    requires lines != [] && lines[0] != "" && lines[|lines| - 1] != ""
    ensures DropLastEmpty(DropFirstEmpty(lines)) == lines && DropLastEmpty(DropFirstEmpty(lines + [""])) == lines
  {
    assert (lines + [""])[..|lines|] == lines;
    assert DropFirstEmpty(lines + [""]) == lines + [""];
  }

  /** The normaliser keeps just the paragraphs of a text, their lines and their words: single spaces between words,
      line breaks between lines, one blank line between paragraphs. */
  lemma NormalizeIsParagraphs(text: string)
    ensures NormalLines(text) == Apart(Paragraphs(SourceLines(text)))
    ensures Normalize(text) == Join("\n", Apart(Paragraphs(SourceLines(text))))
  {
    var lines := SourceLines(text);
    LinesAreSourceLines(text);
    LoopCollects(lines);
    var paragraphs := Paragraphs(lines);
    if paragraphs != [] {
      ApartEnds(paragraphs);
      TrimmedEnds(Apart(paragraphs));
      assert Apart(paragraphs) + [] == Apart(paragraphs);
    }
  }
}
