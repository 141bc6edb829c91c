/** What the stripper makes of rendered HTML, character by character. */
module StrippedText {
  import opened Wrappers
  import opened Strings
  import opened BodyFormat
  import opened BodyReflow
  import opened EmailHtml
  import opened EmailReading
  import B = BodyParagraphs

  /** What is left of a block: its lines, with a blank line between each two and after the last. */
  function Left(b: Block): string {
    Join("\n\n", b.lines) + "\n\n"
  }

  function AllLeft(blocks: seq<Block>): seq<string> {
    seq(|blocks|, k requires 0 <= k < |blocks| => Left(blocks[k]))
  }

  // ---------------------------------------------------------------- one block

  function PiecesOf(b: Block): seq<Piece> {
    [FooterOpen(b.tag)] + (LinePieces(b.lines) + [Close])
  }

  lemma LineLeft(line: string, rest: seq<Piece>)
    ensures Flat(4, [Esc(line)] + ([Break] + ([Gap] + rest))) == line + "\n\n" + Flat(4, rest)
  {
    FlatCons(4, Gap, rest);
    FlatCons(4, Break, [Gap] + rest);
    FlatCons(4, Esc(line), [Break] + ([Gap] + rest));
    assert "\n" + ("\n" + Flat(4, rest)) == "\n\n" + Flat(4, rest);
    Around(line, "\n\n", Flat(4, rest));
  }

  lemma {:induction false} LinesLeft(lines: seq<string>)
    ensures Flat(4, LinePieces(lines)) == Join("\n\n", lines)
  {
    if |lines| == 1 {
      FlatOne(4, Esc(lines[0]));
      assert lines == [lines[0]];
    } else if |lines| > 1 {
      LinesLeft(lines[1..]);
      LineLeft(lines[0], LinePieces(lines[1..]));
      assert lines == [lines[0]] + lines[1..];
      JoinCons("\n\n", lines[0], lines[1..]);
    }
  }

  lemma WrapLeft(tag: string, inner: seq<Piece>)
    ensures Flat(4, [FooterOpen(tag)] + (inner + [Close])) == Flat(4, inner) + "\n\n"
  {
    FlatOne(4, Close);
    FlatConcat(4, inner, [Close]);
    FlatCons(4, FooterOpen(tag), inner + [Close]);
    NoneBefore(Flat(4, inner) + "\n\n");
  }

  lemma BlockIsPieces(b: Block)
    requires BlockOk(b)
    ensures Flat(0, PiecesOf(b)) == Html(b) && Flat(4, PiecesOf(b)) == Left(b) && Rendered(PiecesOf(b))
  {
    LinesAreShown(b.lines);
    LinesLeft(b.lines);
    WrapShown(FooterOpen(b.tag), LinePieces(b.lines), Join("<br>\n", EscapeAll(b.lines)));
    WrapLeft(b.tag, LinePieces(b.lines));
  }

  // ---------------------------------------------------------------- all blocks

  function AllPieces(blocks: seq<Block>): seq<Piece> {
    if blocks == [] then []
    else if |blocks| == 1 then PiecesOf(blocks[0])
    else PiecesOf(blocks[0]) + ([Gap] + AllPieces(blocks[1..]))
  }

  lemma GapJoins(stage: nat, first: seq<Piece>, rest: seq<Piece>, shown: seq<string>)
    requires shown != [] && Flat(stage, rest) == Join("\n", shown)
    ensures Flat(stage, first + ([Gap] + rest)) == Join("\n", [Flat(stage, first)] + shown)
  {
    FlatConcat(stage, first, [Gap] + rest);
    FlatCons(stage, Gap, rest);
    JoinCons("\n", Flat(stage, first), shown);
    Around(Flat(stage, first), "\n", Join("\n", shown));
  }

  lemma TagsOfMore(first: seq<Piece>, rest: seq<Piece>)
    requires Rendered(first) && TagsOk(rest)
    ensures Rendered(first + ([Gap] + rest))
  {
  }

  /** The blocks are these pieces, and the pieces leave this text. */
  ghost predicate InPieces(blocks: seq<Block>, ps: seq<Piece>) {
    Flat(0, ps) == Join("\n", HtmlAll(blocks)) && Flat(4, ps) == Join("\n", AllLeft(blocks)) && Rendered(ps)
  }

  lemma OneInPieces(b: Block)
    requires BlockOk(b)
    ensures InPieces([b], PiecesOf(b))
  {
    BlockIsPieces(b);
    assert HtmlAll([b]) == [Html(b)] && AllLeft([b]) == [Left(b)];
  }

  lemma FirstBlock(b: Block, rest: seq<Block>)
    ensures HtmlAll([b] + rest) == [Html(b)] + HtmlAll(rest) && AllLeft([b] + rest) == [Left(b)] + AllLeft(rest)
  {
  }

  lemma MoreInPieces(b: Block, rest: seq<Block>, ps: seq<Piece>)
    requires BlockOk(b) && rest != [] && InPieces(rest, ps)
    ensures InPieces([b] + rest, PiecesOf(b) + ([Gap] + ps))
  {
    BlockIsPieces(b);
    GapJoins(0, PiecesOf(b), ps, HtmlAll(rest));
    GapJoins(4, PiecesOf(b), ps, AllLeft(rest));
    FirstBlock(b, rest);
    TagsOfMore(PiecesOf(b), ps);
  }

  lemma {:induction false} BlocksArePieces(blocks: seq<Block>)
    requires blocks != [] && forall k :: 0 <= k < |blocks| ==> BlockOk(blocks[k])
    ensures InPieces(blocks, AllPieces(blocks))
    decreases |blocks|
  {
    if |blocks| == 1 {
      OneInPieces(blocks[0]);
      assert blocks == [blocks[0]];
    } else {
      BlocksArePieces(blocks[1..]);
      MoreInPieces(blocks[0], blocks[1..], AllPieces(blocks[1..]));
      assert blocks == [blocks[0]] + blocks[1..];
    }
  }

  // ---------------------------------------------------------------- rendered text

  /** Stripping the HTML of a body gives its lines as they were written, each followed by a blank line, whatever
      markup characters they hold. */
  lemma RenderIsStripped(table: References, sp: Splitters, f: Footer, body: string)
    requires CutsAtSpace(sp) && FooterOk(f) && '\n' !in f.text
    ensures HtmlToPlain(table, Render(sp, f, body)) ==
            Join("\n", AllLeft(View(f, B.Paragraphs(B.SourceLines(Outbound(sp, body))))))
  {
    OutboundKeepsInk(sp, body);
    var blocks := ViewIsPrinted(f, Outbound(sp, body));
    if blocks != [] {
      BlocksArePieces(blocks);
      StrippedIsFlat(table, AllPieces(blocks));
    }
  }

  /** Text without a tag stays as it is. */
  lemma UntaggedStays(table: References, text: string)
    requires '<' !in text || '>' !in text
    ensures HtmlToPlain(table, text) == text
  {
  }
}
