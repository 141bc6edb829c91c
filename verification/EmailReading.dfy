/** What a reader of the HTML alternative sees: for every body its paragraphs, their lines and their text. */
module EmailReading {
  import opened Wrappers
  import opened Strings
  import opened BodyFormat
  import opened BodyReflow
  import opened EmailHtml
  import B = BodyParagraphs

  // ---------------------------------------------------------------- a reader of HTML

  datatype Token = Start(tag: string) | End | LineBreak | NewLine | Char(c: char)

  /** One of the five character references that stand for markup characters, at the start of a text. */
  function Entity(html: string): (r: Option<(nat, char)>)
    ensures r.Some? ==> 0 < r.value.0 <= |html|
  {
    if "&amp;" <= html then Some((5, '&'))
    else if "&lt;" <= html then Some((4, '<'))
    else if "&gt;" <= html then Some((4, '>'))
    else if "&quot;" <= html then Some((6, '\"'))
    else if "&#x27;" <= html then Some((6, '\''))
    else None
  }

  function Tokens(html: string): seq<Token>
    decreases |html|
  {
    if html == "" then []
    else if html[0] == '\n' then [NewLine] + Tokens(html[1..])
    else if html[0] == '&' && Entity(html).Some? then
      [Char(Entity(html).value.1)] + Tokens(html[Entity(html).value.0..])
    else if html[0] != '<' then [Char(html[0])] + Tokens(html[1..])
    else if "<br>" <= html then [LineBreak] + Tokens(html[4..])
    else if "</p>" <= html then [End] + Tokens(html[4..])
    else
      var j := FindChar(html, 1, '>');
      if j < |html| then [Start(html[..j + 1])] + Tokens(html[j + 1..]) else [Char('<')] + Tokens(html[1..])
  }

  // ---------------------------------------------------------------- what is to be seen

  /** A paragraph as it is seen: its opening tag and its lines. */
  datatype Block = Block(tag: string, lines: seq<string>)

  function Chars(text: string): seq<Token> {
    seq(|text|, i requires 0 <= i < |text| => Char(text[i]))
  }

  /** Lines with a line break between each two. */
  function Seen(lines: seq<string>): seq<Token> {
    if lines == [] then []
    else if |lines| == 1 then Chars(lines[0])
    else Chars(lines[0]) + [LineBreak, NewLine] + Seen(lines[1..])
  }

  function SeenBlock(b: Block): seq<Token> {
    [Start(b.tag)] + Seen(b.lines) + [End]
  }

  function SeenBlocks(blocks: seq<Block>): seq<Token> {
    if blocks == [] then []
    else if |blocks| == 1 then SeenBlock(blocks[0])
    else SeenBlock(blocks[0]) + [NewLine] + SeenBlocks(blocks[1..])
  }

  /** A paragraph is one block; the footer, alone or at the end of one, is a block in its own style. */
  function BlocksOf(f: Footer, lines: seq<string>): seq<Block> {
    var text := Join("\n", lines);
    var footer := Block(f.tag, [f.text]);
    if text == f.text then [footer]
    else if |f.text| <= |text| && text[|text| - |f.text|..] == f.text then
      var main := StripRight(text[..|text| - |f.text|]);
      (if main == "" then [] else [Block("<p>", Lines(main))]) + [footer]
    else [Block("<p>", lines)]
  }

  function View(f: Footer, paragraphs: seq<seq<string>>): seq<Block> {
    if paragraphs == [] then []
    else View(f, paragraphs[..|paragraphs| - 1]) + BlocksOf(f, paragraphs[|paragraphs| - 1])
  }

  // ---------------------------------------------------------------- reading the pieces

  function Token0(p: Piece): seq<Token> {
    match p
    case Open => [Start("<p>")]
    case FooterOpen(tag) => [Start(tag)]
    case Close => [End]
    case Break => [LineBreak]
    case Gap => [NewLine]
    case Esc(t) => Chars(t)
  }

  lemma TokenOfChar(c: char, b: string)
    requires c != '\n'
    ensures Tokens(EscapeChar(c) + b) == [Char(c)] + Tokens(b)
  {
    var s := EscapeChar(c) + b;
    assert s[|EscapeChar(c)|..] == b;
    if |EscapeChar(c)| > 1 { EntityOf(c, b); }
  }

  lemma EntityOf(c: char, b: string)
    requires |EscapeChar(c)| > 1
    ensures Entity(EscapeChar(c) + b) == Some((|EscapeChar(c)|, c)) && (EscapeChar(c) + b)[0] == '&'
  {
    var s := EscapeChar(c) + b;
    assert s[1] == EscapeChar(c)[1];
    assert EscapeChar(c) <= s;
  }

  /** No character of markup stands for itself: quotes and angle brackets do not occur, and every ampersand begins one
      of the five references. */
  ghost predicate OnlyReferences(html: string) {
    forall i :: 0 <= i < |html| ==> !Marks(html[i]) && (html[i] == '&' ==> Entity(html[i..]).Some?)
  }

  predicate Marks(c: char) {
    c == '<' || c == '>' || c == '\"' || c == '\''
  }

  lemma ReferenceIsSafe(c: char, b: string, i: nat)
    requires i < |EscapeChar(c)|
    ensures var s := EscapeChar(c) + b; !Marks(s[i]) && (s[i] == '&' ==> Entity(s[i..]).Some?)
  {
    var s := EscapeChar(c) + b;
    assert s[0..] == s && s[i] == EscapeChar(c)[i];
    if |EscapeChar(c)| > 1 { EntityOf(c, b); }
  }

  lemma OneIsReferenced(c: char, b: string)
    requires OnlyReferences(b)
    ensures OnlyReferences(EscapeChar(c) + b)
  {
    var s, n := EscapeChar(c) + b, |EscapeChar(c)|;
    forall i | 0 <= i < |s| ensures !Marks(s[i]) && (s[i] == '&' ==> Entity(s[i..]).Some?) {
      if i < n {
        ReferenceIsSafe(c, b, i);
      } else {
        assert s[i] == b[i - n] && s[i..] == b[i - n..];
      }
    }
  }

  /** Escaped text is safe wherever HTML may stand, also between quotes. */
  lemma {:induction false} EscapedIsSafe(text: string)
    ensures OnlyReferences(Escape(text))
  {
    if text != "" {
      EscapedIsSafe(text[1..]);
      OneIsReferenced(text[0], Escape(text[1..]));
    }
  }

  lemma CharsCons(c: char, t: string)
    ensures Chars([c] + t) == [Char(c)] + Chars(t)
  {
  }

  lemma {:induction false} TokensOfText(t: string, b: string)
    requires '\n' !in t
    ensures Tokens(Escape(t) + b) == Chars(t) + Tokens(b)
    decreases |t|
  {
    if t == "" {
      assert Escape(t) + b == b && Chars(t) + Tokens(b) == Tokens(b);
    } else {
      var c, rest := SplitFirst(t);
      assert t[0] == c && t[1..] == rest;
      TokensOfText(rest, b);
      EscapeHead(t, b);
      TokenOfChar(c, Escape(rest) + b);
      CharsCons(c, rest);
      Around([Char(c)], Chars(rest), Tokens(b));
    }
  }

  lemma TokensOfTag(tag: string, b: string)
    requires ParagraphTag(tag) && tag[1] == 'p'
    ensures Tokens(tag + b) == [Start(tag)] + Tokens(b)
  {
    var s := tag + b;
    assert s[1..|tag| - 1] == tag[..|tag| - 1][1..];
    FoundAt(s, 1, |tag| - 1, '>');
    assert s[1] == 'p' && s[..|tag|] == tag && s[|tag|..] == b;
  }

  lemma TokensOfMark(p: Piece, b: string)
    requires p.Close? || p.Break? || p.Gap?
    ensures Tokens(Show(0, p) + b) == Token0(p) + Tokens(b)
  {
    var mark := Show(0, p);
    assert (mark + b)[|mark|..] == b && mark <= mark + b;
    if p.Close? { assert (mark + b)[1] == '/'; }
  }

  lemma TokensOfPiece(p: Piece, b: string)
    requires TagOk(p) && (p.Esc? ==> '\n' !in p.text)
    ensures Tokens(Show(0, p) + b) == Token0(p) + Tokens(b)
  {
    TheTags();
    match p
    case Open => TokensOfTag("<p>", b);
    case FooterOpen(tag) => TokensOfTag(tag, b);
    case Esc(t) => TokensOfText(t, b);
    case _ => TokensOfMark(p, b);
  }

  function AllTokens(ps: seq<Piece>): seq<Token> {
    if ps == [] then [] else Token0(ps[0]) + AllTokens(ps[1..])
  }

  ghost predicate PlainText(ps: seq<Piece>) {
    forall k :: 0 <= k < |ps| ==> TagOk(ps[k]) && (ps[k].Esc? ==> '\n' !in ps[k].text)
  }

  lemma AllTokensCons(p: Piece, ps: seq<Piece>)
    ensures AllTokens([p] + ps) == Token0(p) + AllTokens(ps)
  {
    assert ([p] + ps)[1..] == ps;
  }

  lemma {:induction false} TokensOfPieces(ps: seq<Piece>, b: string)
    requires PlainText(ps)
    ensures Tokens(Flat(0, ps) + b) == AllTokens(ps) + Tokens(b)
    decreases |ps|
  {
    if ps == [] {
      NoneBefore(b);
      NoneBefore(Tokens(b));
    } else {
      var p, rest := SplitFirst(ps);
      assert ps[0] == p && ps[1..] == rest;
      TokensOfPieces(rest, b);
      TokensOfPiece(p, Flat(0, rest) + b);
      Around(Show(0, p), Flat(0, rest), b);
      Around(Token0(p), AllTokens(rest), Tokens(b));
    }
  }

  // ---------------------------------------------------------------- one block

  ghost predicate BlockOk(b: Block) {
    ParagraphTag(b.tag) && b.tag[1] == 'p' && b.lines != [] && forall k :: 0 <= k < |b.lines| ==> '\n' !in b.lines[k]
  }

  /** How a block is printed. */
  function Html(b: Block): string {
    b.tag + Join("<br>\n", EscapeAll(b.lines)) + "</p>"
  }

  lemma {:induction false} LineTokens(lines: seq<string>)
    requires forall k :: 0 <= k < |lines| ==> '\n' !in lines[k]
    ensures PlainText(LinePieces(lines)) && AllTokens(LinePieces(lines)) == Seen(lines)
  {
    if |lines| == 1 {
      AllTokensCons(Esc(lines[0]), []);
      assert [Esc(lines[0])] + [] == [Esc(lines[0])] && Chars(lines[0]) + [] == Chars(lines[0]);
    } else if |lines| > 1 {
      LineTokens(lines[1..]);
      var rest := LinePieces(lines[1..]);
      AllTokensCons(Gap, rest);
      AllTokensCons(Break, [Gap] + rest);
      AllTokensCons(Esc(lines[0]), [Break] + ([Gap] + rest));
    }
  }

  lemma TokensOfBlock(b: Block, rest: string)
    requires BlockOk(b)
    ensures Tokens(Html(b) + rest) == SeenBlock(b) + Tokens(rest)
  {
    var open, inner := FooterOpen(b.tag), LinePieces(b.lines);
    LineTokens(b.lines);
    LinesAreShown(b.lines);
    WrapShown(open, inner, Join("<br>\n", EscapeAll(b.lines)));
    var ps := [open] + (inner + [Close]);
    assert PlainText(ps);
    TokensOfPieces(ps, rest);
    AllTokensCons(open, inner + [Close]);
    AllTokensSnoc(inner, Close);
    assert [Start(b.tag)] + (Seen(b.lines) + [End]) == SeenBlock(b);
  }

  lemma {:induction false} AllTokensSnoc(ps: seq<Piece>, p: Piece)
    ensures AllTokens(ps + [p]) == AllTokens(ps) + Token0(p)
    decreases |ps|
  {
    if ps == [] {
      assert [] + [p] == [p] + [] && AllTokens([p] + []) == Token0(p) + [];
    } else {
      var first, rest := SplitFirst(ps);
      assert ps[0] == first && ps[1..] == rest;
      assert ps + [p] == [first] + (rest + [p]);
      AllTokensSnoc(rest, p);
      AllTokensCons(first, rest + [p]);
      Around(Token0(first), AllTokens(rest), Token0(p));
    }
  }

  // ---------------------------------------------------------------- all blocks

  function HtmlAll(blocks: seq<Block>): seq<string> {
    seq(|blocks|, k requires 0 <= k < |blocks| => Html(blocks[k]))
  }

  lemma {:induction false} TokensOfBlocks(blocks: seq<Block>)
    requires forall k :: 0 <= k < |blocks| ==> BlockOk(blocks[k])
    ensures Tokens(Join("\n", HtmlAll(blocks))) == SeenBlocks(blocks)
  {
    if |blocks| == 1 {
      TokensOfBlock(blocks[0], "");
      assert Html(blocks[0]) + "" == Html(blocks[0]) && SeenBlock(blocks[0]) + [] == SeenBlock(blocks[0]);
    } else if |blocks| > 1 {
      TokensOfBlocks(blocks[1..]);
      assert HtmlAll(blocks) == [Html(blocks[0])] + HtmlAll(blocks[1..]);
      JoinCons("\n", Html(blocks[0]), HtmlAll(blocks[1..]));
      NextBlock(blocks[0], Join("\n", HtmlAll(blocks[1..])));
    }
  }

  lemma NextBlock(b: Block, rest: string)
    requires BlockOk(b)
    ensures Tokens(Html(b) + "\n" + rest) == SeenBlock(b) + [NewLine] + Tokens(rest)
  {
    TokensOfBlock(b, "\n" + rest);
    assert Html(b) + ("\n" + rest) == Html(b) + "\n" + rest;
    assert ("\n" + rest)[1..] == rest;
  }

  // ---------------------------------------------------------------- one paragraph

  ghost predicate ParagraphOk(lines: seq<string>) {
    lines != [] && forall k :: 0 <= k < |lines| ==> Neat(lines[k])
  }

  lemma {:induction false} TextIsTrimmed(lines: seq<string>)
    requires ParagraphOk(lines)
    ensures Join("\n", lines) != "" && Trimmed(Join("\n", lines))
  {
    if |lines| > 1 { TextIsTrimmed(lines[1..]); }
  }

  /** The lines are those of the text. */
  ghost predicate LinesOfText(lines: seq<string>, text: string) {
    text == Join("\n", lines) && text != "" && Strip(text) == text && Lines(text) == lines
  }

  lemma TextOf(lines: seq<string>)
    requires ParagraphOk(lines)
    ensures LinesOfText(lines, Join("\n", lines))
  {
    TextIsTrimmed(lines);
    StripOfTrimmed(Join("\n", lines));
    forall k | 0 <= k < |lines| ensures '\n' !in lines[k] { NeatHasNoBreak(lines[k]); }
    LinesOfJoin(lines);
  }

  lemma ParagraphIsBlock(text: string)
    requires text != ""
    ensures ParagraphHtml(text) == Html(Block("<p>", Lines(text))) && ParagraphHtml(text) != ""
    ensures BlockOk(Block("<p>", Lines(text)))
  {
    InnerIsText(text);
    TheTags();
  }

  /** The parts are the blocks' HTML. */
  ghost predicate PrintedAs(blocks: seq<Block>, parts: seq<string>) {
    parts == HtmlAll(blocks) && forall k :: 0 <= k < |blocks| ==> BlockOk(blocks[k])
  }

  lemma OnePrinted(b: Block)
    requires BlockOk(b)
    ensures PrintedAs([b], [Html(b)])
  {
  }

  lemma TwoPrinted(a: Block, b: Block)
    requires BlockOk(a) && BlockOk(b)
    ensures PrintedAs([a] + [b], [Html(a)] + [Html(b)])
  {
  }

  lemma FooterIsBlock(f: Footer)
    requires FooterOk(f) && '\n' !in f.text
    ensures FooterHtml(f) == Html(Block(f.tag, [f.text])) && BlockOk(Block(f.tag, [f.text]))
  {
    assert EscapeAll([f.text]) == [Escape(f.text)];
  }

  lemma FooterAtEnd(f: Footer, text: string)
    requires FooterOk(f) && '\n' !in f.text && Strip(text) == text && text != f.text && EndsWith(text, f.text)
    ensures var main := StripRight(text[..|text| - |f.text|]);
            var blocks := (if main == "" then [] else [Block("<p>", Lines(main))]) + [Block(f.tag, [f.text])];
            PrintedAs(blocks, ParagraphParts(f, text))
  {
    var main, footer := StripRight(text[..|text| - |f.text|]), Block(f.tag, [f.text]);
    FooterIsBlock(f);
    if main == "" {
      NoneBefore([footer]);
      NoneBefore([FooterHtml(f)]);
      OnePrinted(footer);
    } else {
      ParagraphIsBlock(main);
      TwoPrinted(Block("<p>", Lines(main)), footer);
    }
  }

  lemma FooterAlone(f: Footer, text: string, lines: seq<string>)
    requires FooterOk(f) && '\n' !in f.text && LinesOfText(lines, text) && text == f.text
    ensures PrintedAs(BlocksOf(f, lines), ParagraphParts(f, text))
  {
    FooterIsBlock(f);
    OnePrinted(Block(f.tag, [f.text]));
    assert BlocksOf(f, lines) == [Block(f.tag, [f.text])];
  }

  lemma FooterLast(f: Footer, text: string, lines: seq<string>)
    requires FooterOk(f) && '\n' !in f.text && LinesOfText(lines, text) && text != f.text && EndsWith(text, f.text)
    ensures PrintedAs(BlocksOf(f, lines), ParagraphParts(f, text))
  {
    var main := StripRight(text[..|text| - |f.text|]);
    assert BlocksOf(f, lines) == (if main == "" then [] else [Block("<p>", Lines(main))]) + [Block(f.tag, [f.text])];
    FooterAtEnd(f, text);
  }

  lemma NoFooter(f: Footer, text: string, lines: seq<string>)
    requires LinesOfText(lines, text) && text != f.text && !EndsWith(text, f.text)
    ensures PrintedAs(BlocksOf(f, lines), ParagraphParts(f, text))
  {
    assert BlocksOf(f, lines) == [Block("<p>", lines)];
    ParagraphIsBlock(text);
    OnePrinted(Block("<p>", lines));
  }

  lemma PartsAreBlocks(f: Footer, lines: seq<string>)
    requires FooterOk(f) && '\n' !in f.text && ParagraphOk(lines)
    ensures PrintedAs(BlocksOf(f, lines), ParagraphParts(f, Join("\n", lines)))
  {
    var text := Join("\n", lines);
    TextOf(lines);
    if text == f.text {
      FooterAlone(f, text, lines);
    } else if EndsWith(text, f.text) {
      FooterLast(f, text, lines);
    } else {
      NoFooter(f, text, lines);
    }
  }

  function Texts(paragraphs: seq<seq<string>>): seq<string> {
    seq(|paragraphs|, k requires 0 <= k < |paragraphs| => Join("\n", paragraphs[k]))
  }

  lemma {:induction false} AllPartsAreBlocks(f: Footer, paragraphs: seq<seq<string>>)
    requires FooterOk(f) && '\n' !in f.text && forall k :: 0 <= k < |paragraphs| ==> ParagraphOk(paragraphs[k])
    ensures AllParts(f, Texts(paragraphs)) == HtmlAll(View(f, paragraphs))
    ensures forall k :: 0 <= k < |View(f, paragraphs)| ==> BlockOk(View(f, paragraphs)[k])
  {
    if paragraphs != [] {
      var n := |paragraphs| - 1;
      AllPartsAreBlocks(f, paragraphs[..n]);
      PartsAreBlocks(f, paragraphs[n]);
      assert Texts(paragraphs)[..n] == Texts(paragraphs[..n]);
      HtmlConcat(View(f, paragraphs[..n]), BlocksOf(f, paragraphs[n]));
    }
  }

  lemma HtmlConcat(a: seq<Block>, b: seq<Block>)
    ensures HtmlAll(a + b) == HtmlAll(a) + HtmlAll(b)
  {
  }

  // ---------------------------------------------------------------- splitting at blank lines

  /** Every line break is followed by a character that is not whitespace. */
  ghost predicate Solid(text: string) {
    forall i :: 0 <= i < |text| && text[i] == '\n' ==> i + 1 < |text| && !IsSpace(text[i + 1])
  }

  lemma NoBlankLine(text: string)
    requires text != "" && (text[0] == '\n' ==> |text| > 1 && !IsSpace(text[1]))
    ensures MatchBlankLine(text).None?
  {
  }

  lemma BlankLineFound(rest: string)
    requires rest != "" && !IsSpace(rest[0])
    ensures MatchBlankLine("\n\n" + rest) == Some(2)
  {
    var s := "\n\n" + rest;
    assert s[0] == '\n' && s[1] == '\n' && s[2] == rest[0];
    assert LastBreak(s, 0, 2).None?;
  }

  lemma {:induction false} SplitAfter(text: string, rest: string)
    requires Solid(text) && rest != "" && !IsSpace(rest[0])
    ensures SplitBlankLines(text + "\n\n" + rest) == [text] + SplitBlankLines(rest)
    decreases |text|
  {
    var s := text + "\n\n" + rest;
    if text == "" {
      assert s == "\n\n" + rest && s[2..] == rest;
      BlankLineFound(rest);
    } else {
      assert s[0] == text[0] && (|text| > 1 ==> s[1] == text[1]);
      NoBlankLine(s);
      assert s[1..] == text[1..] + "\n\n" + rest;
      SplitAfter(text[1..], rest);
      assert text == [text[0]] + text[1..];
      assert ([text[1..]] + SplitBlankLines(rest))[1..] == SplitBlankLines(rest);
    }
  }

  lemma {:induction false} SplitNone(text: string)
    requires Solid(text)
    ensures SplitBlankLines(text) == [text]
  {
    if text != "" {
      NoBlankLine(text);
      SplitNone(text[1..]);
      assert text == [text[0]] + text[1..];
    }
  }

  lemma {:induction false} TextIsSolid(lines: seq<string>)
    requires ParagraphOk(lines)
    ensures Solid(Join("\n", lines))
  {
    NeatHasNoBreak(lines[0]);
    if |lines| > 1 {
      TextIsSolid(lines[1..]);
      TextIsTrimmed(lines[1..]);
      SolidConcat(lines[0], Join("\n", lines[1..]));
    }
  }

  lemma SolidConcat(a: string, b: string)
    requires '\n' !in a && Solid(b) && b != "" && !IsSpace(b[0])
    ensures Solid(a + "\n" + b)
  {
    var s := a + "\n" + b;
    assert forall i :: 0 <= i < |a| ==> s[i] == a[i];
    assert forall i :: 0 <= i < |b| ==> s[|a| + 1 + i] == b[i];
  }

  ghost predicate TextsOk(texts: seq<string>) {
    forall k :: 0 <= k < |texts| ==> Solid(texts[k]) && Trimmed(texts[k]) && texts[k] != ""
  }

  lemma {:induction false} SplitTexts(texts: seq<string>)
    requires TextsOk(texts) && texts != []
    ensures SplitBlankLines(Join("\n\n", texts)) == texts
    ensures Join("\n\n", texts) != "" && !IsSpace(Join("\n\n", texts)[0])
  {
    if |texts| == 1 {
      SplitNone(texts[0]);
    } else {
      SplitTexts(texts[1..]);
      SplitAfter(texts[0], Join("\n\n", texts[1..]));
      assert texts == [texts[0]] + texts[1..];
    }
  }

  lemma {:induction false} StrippedTexts(texts: seq<string>)
    requires TextsOk(texts)
    ensures Stripped(texts) == texts
  {
    if texts != [] {
      StrippedTexts(texts[1..]);
      StripOfTrimmed(texts[0]);
      assert texts == [texts[0]] + texts[1..];
    }
  }

  // ---------------------------------------------------------------- the whole mail

  /** Lines with a blank line between each two paragraphs are their texts with one between each two. */
  lemma {:induction false} ApartJoins(paragraphs: seq<seq<string>>)
    requires forall k :: 0 <= k < |paragraphs| ==> paragraphs[k] != []
    ensures Join("\n", B.Apart(paragraphs)) == Join("\n\n", Texts(paragraphs))
    ensures paragraphs != [] ==> B.Apart(paragraphs) != []
  {
    if |paragraphs| == 1 {
      assert Texts(paragraphs) == [Join("\n", paragraphs[0])];
    } else if |paragraphs| > 1 {
      var n := |paragraphs| - 1;
      var front, last := paragraphs[..n], paragraphs[n];
      ApartJoins(front);
      assert Texts(paragraphs) == Texts(front) + [Join("\n", last)];
      JoinConcat("\n\n", Texts(front), [Join("\n", last)]);
      JoinConcat("\n", B.Apart(front) + [""], last);
      JoinConcat("\n", B.Apart(front), [""]);
      var a, b := Join("\n", B.Apart(front)), Join("\n", last);
      assert a + "\n" + "" + "\n" + b == a + "\n\n" + b;
    }
  }

  lemma {:induction false} LineIsApart(paragraphs: seq<seq<string>>, k: nat, line: string)
    requires k < |paragraphs| && line in paragraphs[k]
    ensures line in B.Apart(paragraphs)
  {
    var n := |paragraphs| - 1;
    if k < n { LineIsApart(paragraphs[..n], k, line); }
  }

  /** The paragraphs of normalised text have neat lines only. */
  lemma ParagraphsAreOk(text: string)
    ensures var ps := B.Paragraphs(B.SourceLines(text));
            (forall k :: 0 <= k < |ps| ==> ParagraphOk(ps[k])) && Normalize(text) == Join("\n\n", Texts(ps))
  {
    var ps := B.Paragraphs(B.SourceLines(text));
    B.NormalizeIsParagraphs(text);
    NormalLinesAreNeat(text);
    B.LoopCollects(B.SourceLines(text));
    var lines := NormalLines(text);
    forall k, i | 0 <= k < |ps| && 0 <= i < |ps[k]| ensures Neat(ps[k][i]) {
      assert ps[k][i] in ps[k];
      LineIsApart(ps, k, ps[k][i]);
      var j :| 0 <= j < |lines| && lines[j] == ps[k][i];
    }
    ApartJoins(ps);
  }

  lemma TextsAreOk(paragraphs: seq<seq<string>>)
    requires forall k :: 0 <= k < |paragraphs| ==> ParagraphOk(paragraphs[k])
    ensures TextsOk(Texts(paragraphs))
  {
    forall k | 0 <= k < |paragraphs|
      ensures var text := Texts(paragraphs)[k]; Solid(text) && Trimmed(text) && text != ""
    {
      TextIsSolid(paragraphs[k]);
      TextIsTrimmed(paragraphs[k]);
    }
  }

  /** Normalised text is printed as the blocks of its paragraphs, one per line. */
  lemma ViewIsPrinted(f: Footer, text: string) returns (blocks: seq<Block>)
    requires FooterOk(f) && '\n' !in f.text && Normalize(text) == text
    ensures blocks == View(f, B.Paragraphs(B.SourceLines(text)))
    ensures forall k :: 0 <= k < |blocks| ==> BlockOk(blocks[k])
    ensures RenderNormalized(f, text) == Join("\n", HtmlAll(blocks))
  {
    var ps := B.Paragraphs(B.SourceLines(text));
    blocks := View(f, ps);
    ParagraphsAreOk(text);
    TextsAreOk(ps);
    AllPartsAreBlocks(f, ps);
    if ps != [] {
      SplitTexts(Texts(ps));
      StrippedTexts(Texts(ps));
    }
  }

  lemma NormalizedIsRead(f: Footer, text: string)
    requires FooterOk(f) && '\n' !in f.text && Normalize(text) == text
    ensures Tokens(RenderNormalized(f, text)) == SeenBlocks(View(f, B.Paragraphs(B.SourceLines(text))))
  {
    var blocks := ViewIsPrinted(f, text);
    TokensOfBlocks(blocks);
  }

  /** The HTML of a body, read as HTML, is the paragraphs of the outbound text: one element each, its lines with a
      line break between each two, every character as written, and the footer in an element of its own. */
  lemma RenderIsRead(sp: Splitters, f: Footer, body: string)
    requires CutsAtSpace(sp) && FooterOk(f) && '\n' !in f.text
    ensures Tokens(Render(sp, f, body)) ==
            SeenBlocks(View(f, B.Paragraphs(B.SourceLines(Outbound(sp, body)))))
  {
    OutboundKeepsInk(sp, body);
    NormalizedIsRead(f, Outbound(sp, body));
  }

  /** With the house footer. */
  lemma HouseIsRead(sp: Splitters, body: string)
    requires CutsAtSpace(sp)
    ensures Tokens(Render(sp, STAY_FOOTER, body)) ==
            SeenBlocks(View(STAY_FOOTER, B.Paragraphs(B.SourceLines(Outbound(sp, body)))))
  {
    StayFooterOk();
    StayFooterIsOneLine();
    RenderIsRead(sp, STAY_FOOTER, body);
  }

  /** Stripping takes whitespace off both ends. */
  lemma StripCuts(s: string) returns (before: string, after: string)
    ensures s == before + Strip(s) + after && AllSpace(before) && AllSpace(after)
  {
    var left := StripLeft(s);
    var kept := StripRight(left);
    StripLeftDrops(s);
    StripRightDrops(left);
    before, after := s[..|s| - |left|], left[|kept|..];
    assert s == before + left && left == kept + after;
    assert before + (kept + after) == before + kept + after;
  }

  /** HTML that the caller gives is kept as it is but for outer whitespace, unless it is blank. */
  lemma GivenHtmlIsKept(sp: Splitters, f: Footer, text: string, html: string)
    returns (before: string, after: string)
    requires CutsAtSpace(sp) && Ink(html) != ""
    ensures var (plain, alternative) := Bodies(sp, f, text, Some(html));
            plain == Outbound(sp, text) && html == before + alternative + after && AllSpace(before) &&
            AllSpace(after) && Trimmed(alternative)
  {
    InkStrip(html);
    StripIsTrimmed(html);
    before, after := StripCuts(html);
  }
}
